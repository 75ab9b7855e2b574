/** The time stamps that statuses carry: UTC times in ISO format, compared as strings. */
module Timestamps {
  import opened Text

  datatype Time = Time(year: nat, month: nat, day: nat, hour: nat, minute: nat, second: nat, micro: nat)
  {
    predicate Valid() {
      1 <= year <= 9999 && 1 <= month <= 12 && 1 <= day <= 31 &&
      hour < 24 && minute < 60 && second < 60 && micro < 1_000_000
    }

    predicate Before(t: Time) {
      year < t.year || (year == t.year && (
      month < t.month || (month == t.month && (
      day < t.day || (day == t.day && (
      hour < t.hour || (hour == t.hour && (
      minute < t.minute || (minute == t.minute && (
      second < t.second || (second == t.second &&
      micro < t.micro)))))))))))
    }

    /** Python `isoformat` of an aware UTC datetime, which omits the fraction when it is zero. */
    function Iso(): string {
      Field(year, 4, "-" + Field(month, 2, "-" + Field(day, 2, "T" +
      Field(hour, 2, ":" + Field(minute, 2, ":" + Field(second, 2, Fraction(micro)))))))
    }
  }

  function Field(n: nat, width: nat, rest: string): string {
    Pad(n, width) + rest
  }

  function Fraction(micro: nat): string {
    if micro == 0 then "+00:00" else "." + Field(micro, 6, "+00:00")
  }

  lemma FieldKeepsOrder(m: nat, n: nat, width: nat, x: string, y: string)
    requires m < Power10(width) && n < Power10(width)
    ensures Less(Field(m, width, x), Field(n, width, y)) <==> m < n || (m == n && Less(x, y))
  {
    PadKeepsOrder(m, n, width);
    LessByField(Pad(m, width), Pad(n, width), x, y);
  }

  lemma MarkKeepsOrder(mark: char, x: string, y: string)
    ensures Less([mark] + x, [mark] + y) <==> Less(x, y)
  {}

  lemma Widths()
    ensures Power10(2) == 100 && Power10(4) == 10_000 && Power10(6) == 1_000_000
  {}

  /** '+' comes before '.', so an omitted zero fraction sorts before every other one. */
  lemma FractionKeepsOrder(m: nat, n: nat)
    requires m < 1_000_000 && n < 1_000_000
    ensures Less(Fraction(m), Fraction(n)) <==> m < n
  {
    Widths();
    if m > 0 && n > 0 {
      MarkKeepsOrder('.', Field(m, 6, "+00:00"), Field(n, 6, "+00:00"));
      FieldKeepsOrder(m, n, 6, "+00:00", "+00:00");
      LessIsTotal("+00:00", "+00:00");
    } else if m == n {
      LessIsTotal("+00:00", "+00:00");
    } else {
      assert Fraction(0)[0] == '+' && Fraction(if m == 0 then n else m)[0] == '.';
    }
  }

  /** The string order of time stamps is the order of the times. */
  lemma IsoKeepsOrder(t: Time, u: Time)
    requires t.Valid() && u.Valid()
    ensures Less(t.Iso(), u.Iso()) <==> t.Before(u)
  {
    Widths();
    FractionKeepsOrder(t.micro, u.micro);
    var s6, s6' := Field(t.second, 2, Fraction(t.micro)), Field(u.second, 2, Fraction(u.micro));
    FieldKeepsOrder(t.second, u.second, 2, Fraction(t.micro), Fraction(u.micro));
    MarkKeepsOrder(':', s6, s6');
    var s5, s5' := Field(t.minute, 2, ":" + s6), Field(u.minute, 2, ":" + s6');
    FieldKeepsOrder(t.minute, u.minute, 2, ":" + s6, ":" + s6');
    MarkKeepsOrder(':', s5, s5');
    var s4, s4' := Field(t.hour, 2, ":" + s5), Field(u.hour, 2, ":" + s5');
    FieldKeepsOrder(t.hour, u.hour, 2, ":" + s5, ":" + s5');
    MarkKeepsOrder('T', s4, s4');
    var s3, s3' := Field(t.day, 2, "T" + s4), Field(u.day, 2, "T" + s4');
    FieldKeepsOrder(t.day, u.day, 2, "T" + s4, "T" + s4');
    MarkKeepsOrder('-', s3, s3');
    var s2, s2' := Field(t.month, 2, "-" + s3), Field(u.month, 2, "-" + s3');
    FieldKeepsOrder(t.month, u.month, 2, "-" + s3, "-" + s3');
    MarkKeepsOrder('-', s2, s2');
    FieldKeepsOrder(t.year, u.year, 4, "-" + s2, "-" + s2');
  }

  lemma IsoIsNotEmpty(t: Time)
    ensures t.Iso() != ""
  {
    assert |Pad(t.year, 4)| == 4;
  }
}
