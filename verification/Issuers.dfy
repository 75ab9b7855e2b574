/** Which certificate issuer serves a host. */
module Issuers {
  import opened Values
  import opened Text

  /** A domain suffix and the issuer type or name to use under it. */
  type Override = (string, string)

  predicate EndsWith(s: string, end: string) {
    |end| <= |s| && s[|s|-|end|..] == end
  }

  /** The host is the suffix's domain or lies under it. */
  predicate Matches(host: string, suffix: string) {
    host == suffix || EndsWith(host, "." + suffix)
  }

  /** Longer suffixes first. */
  function LongerFirst(): (Override, Override) -> bool {
    (a: Override, b: Override) => |a.0| >= |b.0|
  }

  function ByLength(overrides: seq<Override>): seq<Override> {
    Sort(overrides, LongerFirst())
  }

  /** The loop over a sorted list, which stops at the first match. */
  function FirstMatch(host: string, overrides: seq<Override>): Option<string> {
    if overrides == [] then None
    else if Matches(host, overrides[0].0) then Some(overrides[0].1)
    else FirstMatch(host, overrides[1..])
  }

  /** The override for a host, if any; no host has none. */
  function OverrideFor(host: string, overrides: seq<Override>): Option<string> {
    if host == "" then None else FirstMatch(host, ByLength(overrides))
  }

  /** The listing of a dictionary's items, in any order. */
  predicate Lists(overrides: seq<Override>, dict: map<string, string>) {
    && (forall i :: 0 <= i < |overrides| ==> overrides[i].0 in dict && dict[overrides[i].0] == overrides[i].1)
    && (forall s :: s in dict ==> (s, dict[s]) in overrides)
  }

  predicate LongestMatch(host: string, dict: map<string, string>, suffix: string) {
    && suffix in dict && Matches(host, suffix)
    && forall s :: s in dict && Matches(host, s) ==> |s| <= |suffix|
  }

  /** A host matches a suffix exactly if it is the suffix, or something with a dot and the suffix behind it. */
  lemma MatchesDomains(host: string, suffix: string)
    ensures Matches(host, suffix) <==> host == suffix || exists sub: string :: host == sub + "." + suffix
  {
    if EndsWith(host, "." + suffix) {
      var cut := |host| - |"." + suffix|;
      assert host == host[..cut] + host[cut..];
      assert host == host[..cut] + "." + suffix;
    }
    if exists sub: string :: host == sub + "." + suffix {
      var sub: string :| host == sub + "." + suffix;
      assert host == sub + ("." + suffix);
    }
  }

  /** The suffixes that match one host are nested domains. */
  lemma MatchesAreNested(host: string, s: string, t: string)
    requires Matches(host, s) && Matches(host, t) && |s| <= |t|
    ensures Matches(t, s)
  {
    var a, b := "." + s, "." + t;
    if host != s && host != t && |s| == |t| {
      assert host[|host|-|a|..][1..] == host[|host|-|s|..] && host[|host|-|b|..][1..] == host[|host|-|t|..];
      assert a[1..] == s && b[1..] == t;
    } else if host != s && host != t {
      assert host[|host|-|t|..] == b[1..] == t;
      assert t[|t|-|a|..] == host[|host|-|a|..];
    }
  }

  lemma LongestMatchIsUnique(host: string, dict: map<string, string>, s: string, t: string)
    requires LongestMatch(host, dict, s) && LongestMatch(host, dict, t)
    ensures s == t
  {
    MatchesAreNested(host, s, t);
  }

  lemma LongerFirstIsPreorder()
    ensures TotalPreorder(LongerFirst())
  {}

  /** The first match in a sorted list is the first of the longest ones. */
  lemma {:induction false} FirstMatchIsLongest(host: string, overrides: seq<Override>)
    requires Sorted(overrides, LongerFirst())
    ensures FirstMatch(host, overrides).None? <==> forall o :: o in overrides ==> !Matches(host, o.0)
    ensures FirstMatch(host, overrides).Some? ==>
              exists o :: o in overrides && Matches(host, o.0) && FirstMatch(host, overrides) == Some(o.1) &&
                forall p :: p in overrides && Matches(host, p.0) ==> |p.0| <= |o.0|
    decreases |overrides|
  {
    if overrides == [] {
    } else {
      var first, rest := overrides[0], overrides[1..];
      assert overrides == [first] + rest;
      forall p | p in rest ensures |p.0| <= |first.0| {
        var i :| 0 <= i < |rest| && rest[i] == p;
        assert LongerFirst()(overrides[0], overrides[i+1]);
      }
      if Matches(host, first.0) {
        assert first in overrides;
      } else {
        forall i, j | 0 <= i < j < |rest| ensures LongerFirst()(rest[i], rest[j]) {
          assert LongerFirst()(overrides[i+1], overrides[j+1]);
        }
        FirstMatchIsLongest(host, rest);
      }
    }
  }

  /**
   A host gets the issuer of the longest configured suffix that it lies under, whatever the order in
   which the dictionary lists its items; and none exactly if it lies under no suffix.
   */
  lemma LongestSuffixWins(host: string, dict: map<string, string>, overrides: seq<Override>)
    requires host != "" && Lists(overrides, dict)
    ensures OverrideFor(host, overrides).None? <==> forall s :: s in dict ==> !Matches(host, s)
    ensures forall s :: LongestMatch(host, dict, s) ==> OverrideFor(host, overrides) == Some(dict[s])
    ensures OverrideFor(host, overrides).Some? ==> exists s :: LongestMatch(host, dict, s)
  {
    LongerFirstIsPreorder();
    SortSorts(overrides, LongerFirst());
    var sorted := ByLength(overrides);
    forall o ensures o in sorted <==> o in overrides {
      assert o in multiset(sorted) <==> o in multiset(overrides);
    }
    FirstMatchIsLongest(host, sorted);
    if OverrideFor(host, overrides).Some? {
      var o :| o in sorted && Matches(host, o.0) && FirstMatch(host, sorted) == Some(o.1) &&
        forall p :: p in sorted && Matches(host, p.0) ==> |p.0| <= |o.0|;
      assert dict[o.0] == o.1;
      forall s | s in dict && Matches(host, s) ensures |s| <= |o.0| {
        assert (s, dict[s]) in sorted;
      }
      assert LongestMatch(host, dict, o.0);
      forall s | LongestMatch(host, dict, s) ensures dict[s] == o.1 {
        LongestMatchIsUnique(host, dict, s, o.0);
      }
    } else {
      forall s | s in dict ensures !Matches(host, s) {
        assert (s, dict[s]) in sorted;
      }
    }
  }

  /** Two listings of one dictionary never disagree. */
  lemma ListingOrderIsIrrelevant(host: string, dict: map<string, string>, a: seq<Override>, b: seq<Override>)
    requires Lists(a, dict) && Lists(b, dict)
    ensures OverrideFor(host, a) == OverrideFor(host, b)
  {
    if host != "" {
      LongestSuffixWins(host, dict, a);
      LongestSuffixWins(host, dict, b);
    }
  }
}
