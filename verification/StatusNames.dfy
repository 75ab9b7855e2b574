/** The names under which statuses are stored. */
module StatusNames {
  /** A packed 64-bit hash, read as the number its eight bytes spell from the first to the last. */
  type Hash = h: nat | h < 0x1_0000_0000_0000_0000

  function Letter(d: nat): char
    requires d < 32
  {
    if d < 26 then 'a' + d as char else '2' + (d - 26) as char
  }

  function LetterValue(c: char): nat
  {
    if 'a' <= c <= 'z' then (c - 'a') as nat
    else if '2' <= c <= '7' then (c - '2') as nat + 26
    else 0
  }

  function Power32(k: nat): nat {
    if k == 0 then 1 else 32 * Power32(k - 1)
  }

  /** The last k base-32 digits of n, most significant first. */
  function Letters(n: nat, k: nat): (s: string)
    ensures |s| == k
  {
    if k == 0 then "" else Letters(n / 32, k - 1) + [Letter(n % 32)]
  }

  function Spelled(s: string): nat {
    if s == "" then 0 else 32 * Spelled(s[..|s|-1]) + LetterValue(s[|s|-1])
  }

  /**
   Eight bytes are 64 bits: twelve letters of five bits, and a thirteenth for the last four bits and a
   zero. Base 32 pads to sixteen characters, and the padding is stripped.
   */
  function Encoded(h: Hash): string {
    Letters(2 * h, 13) + "==="
  }

  function StripPadding(s: string): string {
    if s != "" && s[|s|-1] == '=' then StripPadding(s[..|s|-1]) else s
  }

  function Suffix(h: Hash): string {
    StripPadding(Encoded(h))
  }

  function CreateName(hash: string -> Hash, app: string, deploymentId: string): string {
    app + "-" + Suffix(hash(deploymentId))
  }

  lemma {:induction false} LettersSpell(n: nat, k: nat)
    requires n < Power32(k)
    ensures Spelled(Letters(n, k)) == n
    decreases k
  {
    if k == 0 {
    } else {
      LettersSpell(n / 32, k - 1);
      var s := Letters(n, k);
      assert s[..|s|-1] == Letters(n / 32, k - 1);
      assert LetterValue(Letter(n % 32)) == n % 32;
    }
  }

  lemma {:induction false} LettersAreNotPadding(n: nat, k: nat)
    ensures forall i :: 0 <= i < k ==> Letters(n, k)[i] != '='
    decreases k
  {
    if k == 0 {
    } else {
      LettersAreNotPadding(n / 32, k - 1);
    }
  }

  lemma StripOne(s: string)
    ensures StripPadding(s + "=") == StripPadding(s)
  {}

  /** A suffix always has thirteen characters, and spells twice the hash it was made from. */
  lemma SuffixIsDecodable(h: Hash)
    ensures |Suffix(h)| == 13 && Spelled(Suffix(h)) == 2 * h
  {
    var s := Letters(2 * h, 13);
    LettersAreNotPadding(2 * h, 13);
    assert s + "===" == s + "=" + "=" + "=";
    StripOne(s + "=" + "=");
    StripOne(s + "=");
    StripOne(s);
    assert StripPadding(s) == s;
    assert 2 * h < Power32(13) by {
      assert Power32(1) == 32 && Power32(2) == 1024 && Power32(3) == 32768 && Power32(4) == 1048576;
      assert Power32(5) == 33554432 && Power32(6) == 1073741824 && Power32(7) == 34359738368;
      assert Power32(8) == 1099511627776 && Power32(9) == 35184372088832 && Power32(10) == 1125899906842624;
      assert Power32(11) == 36028797018963968 && Power32(12) == 1152921504606846976;
    }
    LettersSpell(2 * h, 13);
  }

  /** Two names are equal only for the same application and equal hashes. */
  lemma NamesCollideOnlyOnHashes(hash: string -> Hash, app: string, id: string, app': string, id': string)
    ensures CreateName(hash, app, id) == CreateName(hash, app', id') <==> app == app' && hash(id) == hash(id')
  {
    SuffixIsDecodable(hash(id));
    SuffixIsDecodable(hash(id'));
    var n, n' := CreateName(hash, app, id), CreateName(hash, app', id');
    assert n[|n|-13..] == Suffix(hash(id)) && n'[|n'|-13..] == Suffix(hash(id'));
    assert n[..|n|-14] == app && n'[..|n'|-14] == app';
  }

  /** The letters are those of base 32, in lower case. */
  lemma LettersAreBase32(d: nat)
    requires d < 32
    ensures Letter(d) == "abcdefghijklmnopqrstuvwxyz234567"[d]
  {}
}
