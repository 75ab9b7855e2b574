/** Host names short enough for the common name of a certificate. */
module CommonNames {
  import opened Values
  import opened Text

  const MAX_COMMON_NAME := 63

  /** Python `s[:end]`: a negative end counts from the back. */
  function Upto(s: string, end: int): string {
    if end < 0 then (if |s| + end < 0 then "" else s[..|s|+end])
    else if end > |s| then s
    else s[..end]
  }

  /** The base-32 spelling of a SHA-1 digest, in lower case: 160 bits make 32 characters. */
  type Digest = s: string | |s| == 32 && '.' !in s witness "abcdefghijklmnopabcdefghijklmnop"

  /** None where no name fits. */
  function ShortHost(digest: Digest, suffix: string): Option<string> {
    var name := Upto(digest, 62 - |suffix|) + "." + suffix;
    if |name| > MAX_COMMON_NAME || name[0] == '.' then None else Some(name)
  }

  /** A name is found exactly for suffixes of at most 61 characters, and it fits. */
  lemma ShortHostFits(digest: Digest, suffix: string)
    requires suffix != ""
    ensures ShortHost(digest, suffix).Some? <==> |suffix| <= 61
    ensures ShortHost(digest, suffix).Some? ==>
              var name := ShortHost(digest, suffix).value;
              var n := if |suffix| <= 30 then 32 else 62 - |suffix|;
              && name == digest[..n] + "." + suffix
              && |name| <= 63
  {}

  function ByLength(): (string, string) -> bool {
    (s: string, t: string) => |s| <= |t|
  }

  function ShortestSuffix(suffixes: seq<string>): (s: Option<string>)
  {
    var sorted := Sort(suffixes, ByLength());
    if sorted == [] then None else Some(sorted[0])
  }

  lemma ShortestSuffixIsShortest(suffixes: seq<string>)
    ensures ShortestSuffix(suffixes).Some? <==> suffixes != []
    ensures ShortestSuffix(suffixes).Some? ==>
              var s := ShortestSuffix(suffixes).value;
              s in suffixes && forall t :: t in suffixes ==> |s| <= |t|
  {
    SortSorts(suffixes, ByLength());
    var sorted := Sort(suffixes, ByLength());
    assert |sorted| == |multiset(sorted)| == |multiset(suffixes)| == |suffixes|;
    if sorted != [] {
      assert sorted[0] in multiset(sorted);
      forall t | t in suffixes ensures |sorted[0]| <= |t| {
        assert t in multiset(suffixes) && t in multiset(sorted);
        var i :| 0 <= i < |sorted| && sorted[i] == t;
        assert i == 0 || ByLength()(sorted[0], sorted[i]);
      }
    }
  }

  /** The first of the hosts becomes the common name. */
  function CollapseHosts(digest: Digest, suffixes: seq<string>, hosts: seq<string>): seq<string> {
    match ShortestSuffix(suffixes)
    case None => hosts
    case Some(suffix) =>
      if suffix == "" then hosts
      else
        match ShortHost(digest, suffix)
        case Some(name) => [name] + hosts
        case None => hosts
  }

  /** The name that a digest and a suffix make: as much of the digest as fits, a dot, and the suffix. */
  predicate CommonName(name: string, digest: Digest, suffix: string) {
    name == digest[..if |suffix| <= 30 then 32 else if |suffix| <= 62 then 62 - |suffix| else 0] + "." + suffix
  }

  /**
   A common name is put in front exactly if one of the suffixes leaves room for it and none is empty,
   since an empty one would be the shortest. It is made with a shortest suffix, and fits.
   */
  lemma CommonNameIsFound(digest: Digest, suffixes: seq<string>, hosts: seq<string>)
    ensures var collapsed := CollapseHosts(digest, suffixes, hosts);
            if "" !in suffixes && exists s :: s in suffixes && |s| <= 61
            then collapsed != [] && |collapsed[0]| <= 63 && collapsed[1..] == hosts
              && exists s :: s in suffixes && CommonName(collapsed[0], digest, s) && forall t :: t in suffixes ==> |s| <= |t|
            else collapsed == hosts
  {
    ShortestSuffixIsShortest(suffixes);
    if suffixes != [] && "" !in suffixes {
      var s := ShortestSuffix(suffixes).value;
      ShortHostFits(digest, s);
      if |s| <= 61 {
        assert CommonName(CollapseHosts(digest, suffixes, hosts)[0], digest, s);
      }
    }
  }
}
