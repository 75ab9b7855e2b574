/** Pairs of hosts that are always served alike. */
module HostPairs {
  import opened Values

  type Pairs = map<string, string>

  /** Python `split("=", 1)` into exactly two parts; None where there is no '='. */
  function SplitOnce(s: string): Option<(string, string)> {
    if s == "" then None
    else if s[0] == '=' then Some(("", s[1..]))
    else
      match SplitOnce(s[1..])
      case Some((a, b)) => Some(([s[0]] + a, b))
      case None => None
  }

  lemma {:induction false} SplitOnceIsExact(s: string, a: string, b: string)
    ensures SplitOnce(s) == Some((a, b)) <==> s == a + "=" + b && '=' !in a
    decreases |s|
  {
    if s != "" && s[0] != '=' {
      if a != "" {
        SplitOnceIsExact(s[1..], a[1..], b);
        assert a == [a[0]] + a[1..] && s == [s[0]] + s[1..];
        assert s == a + "=" + b <==> s[0] == a[0] && s[1..] == a[1..] + "=" + b by {
          assert (a + "=" + b)[0] == a[0] && (a + "=" + b)[1..] == a[1..] + "=" + b;
        }
      } else {
        assert (a + "=" + b)[0] == '=';
      }
    } else if s != "" {
      if a == "" {
        assert (a + "=" + b)[1..] == b;
        assert s == ['='] + s[1..];
      } else {
        assert (a + "=" + b)[0] == a[0];
      }
    }
  }

  /** Both directions are entered, and a later pair overrides an earlier one. */
  function Enter(pairs: Pairs, p: (string, string)): Pairs {
    pairs[p.0 := p.1][p.1 := p.0]
  }

  function Entered(args: seq<(string, string)>): Pairs
    decreases |args|
  {
    if args == [] then map[] else Enter(Entered(args[..|args|-1]), args[|args|-1])
  }

  /** The parsed arguments, or the first one that is not a pair. */
  function Parsed(args: seq<string>): Result<seq<(string, string)>, string> {
    if args == [] then Ok([])
    else
      match SplitOnce(args[0])
      case None => Err(args[0])
      case Some(p) => (match Parsed(args[1..]) case Ok(ps) => Ok([p] + ps) case Err(e) => Err(e))
  }

  lemma {:induction false} ParsedPrefix(args: seq<string>, i: nat)
    requires i < |args| && Parsed(args[..i]).Ok?
    ensures |Parsed(args[..i]).value| == i
    ensures match SplitOnce(args[i])
            case Some(p) => Parsed(args[..i+1]) == Ok(Parsed(args[..i]).value + [p])
            case None => Parsed(args) == Err(args[i])
    decreases |args|
  {
    if i > 0 {
      assert args[..i][1..] == args[1..][..i-1] && args[..i+1][1..] == args[1..][..i];
      ParsedPrefix(args[1..], i - 1);
      assert args[..i][0] == args[0] && args[..i+1][0] == args[0] && args[1..][i-1] == args[i];
      var q, xs := SplitOnce(args[0]).value, Parsed(args[1..][..i-1]).value;
      assert Parsed(args[..i]) == Ok([q] + xs);
      match SplitOnce(args[i]) {
        case Some(p) => assert [q] + (xs + [p]) == ([q] + xs) + [p];
        case None =>
      }
    } else {
      assert args[..0] == [] && args[..1][1..] == [];
      assert args[..1][0] == args[0];
      assert Parsed(args[..1][1..]) == Ok([]);
      match SplitOnce(args[0]) {
        case Some(p) => assert Parsed(args[..1]) == Ok([p] + []); assert [p] + [] == [] + [p];
        case None =>
      }
    }
  }

  /** A text that is a pair: split at its first '='. */
  predicate Spells(arg: string, p: (string, string)) {
    arg == p.0 + "=" + p.1 && '=' !in p.0
  }

  /** All arguments are pairs, in their order; or the first one that has no '=' is reported. */
  lemma {:induction false} ParsedIsExact(args: seq<string>)
    ensures match Parsed(args)
      case Ok(ps) => |ps| == |args| && forall i :: 0 <= i < |args| ==> Spells(args[i], ps[i])
      case Err(bad) => exists i :: 0 <= i < |args| && args[i] == bad && '=' !in bad && forall k :: 0 <= k < i ==> '=' in args[k]
    decreases |args|
  {
    if args == [] {
    } else {
      ParsedIsExact(args[1..]);
      match SplitOnce(args[0]) {
        case Some(p) =>
          SplitOnceIsExact(args[0], p.0, p.1);
          assert args[0][|p.0|] == '=';
          match Parsed(args[1..]) {
            case Ok(_) =>
            case Err(bad) =>
              var i :| 0 <= i < |args[1..]| && args[1..][i] == bad && '=' !in bad && forall k :: 0 <= k < i ==> '=' in args[1..][k];
              assert args[i+1] == bad;
              assert forall k :: 0 < k < i + 1 ==> args[k] == args[1..][k-1];
          }
        case None =>
          NoSplitNoEquals(args[0]);
          assert args[0] == args[0];
      }
    }
  }

  lemma NoSplitNoEquals(s: string)
    requires SplitOnce(s).None?
    ensures '=' !in s
  {
    if '=' in s {
      SomeSplit(s);
      assert false;
    }
  }

  lemma {:induction false} SomeSplit(s: string)
    requires '=' in s
    ensures SplitOnce(s).Some?
    decreases |s|
  {
    if s[0] == '=' {
    } else {
      SomeSplit(s[1..]);
    }
  }

  method ParseIngressHostPairs(args: seq<string>) returns (r: Result<Pairs, string>)
    ensures r == match Parsed(args) case Ok(ps) => Ok(Entered(ps)) case Err(bad) => Err(bad)
  {
    var pairs: Pairs := map[];
    for i := 0 to |args|
      invariant Parsed(args[..i]).Ok? && |Parsed(args[..i]).value| == i && pairs == Entered(Parsed(args[..i]).value)
    {
      ParsedPrefix(args, i);
      match SplitOnce(args[i]) {
        case None => return Err(args[i]);
        case Some(p) =>
          pairs := pairs[p.0 := p.1];
          pairs := pairs[p.1 := p.0];
          ghost var ps := Parsed(args[..i]).value;
          assert (ps + [p])[..|ps|] == ps;
      }
    }
    assert args[..|args|] == args;
    r := Ok(pairs);
  }

  predicate Involution(pairs: Pairs) {
    forall h :: h in pairs ==> pairs[h] in pairs && pairs[pairs[h]] == h
  }

  predicate Pairing(args: seq<(string, string)>, g: string, h: string) {
    (g, h) in args || (h, g) in args
  }

  /** No host occurs in two different pairs. */
  ghost predicate Monogamous(args: seq<(string, string)>) {
    forall h, g, g' :: Pairing(args, g, h) && Pairing(args, g', h) ==> g == g'
  }

  predicate Mentions(p: (string, string), h: string) {
    h == p.0 || h == p.1
  }

  /** Pair i mentions the host, and no later one does. */
  predicate LastFor(args: seq<(string, string)>, i: nat, h: string) {
    i < |args| && Mentions(args[i], h) && forall k :: i < k < |args| ==> !Mentions(args[k], h)
  }

  function Other(p: (string, string), h: string): string {
    if h == p.1 then p.0 else p.1
  }

  /** The last pair that mentions a host decides on its partner. */
  lemma {:induction false} LastPairDecides(args: seq<(string, string)>, i: nat, h: string)
    requires LastFor(args, i, h)
    ensures h in Entered(args) && Entered(args)[h] == Other(args[i], h)
    decreases |args|
  {
    var front := args[..|args|-1];
    if i == |front| {
    } else {
      assert !Mentions(args[|front|], h);
      assert forall k :: i <= k < |front| ==> front[k] == args[k];
      LastPairDecides(front, i, h);
    }
  }

  lemma {:induction false} EnteredHasLast(args: seq<(string, string)>, h: string) returns (i: nat)
    requires h in Entered(args)
    ensures LastFor(args, i, h)
    decreases |args|
  {
    var front := args[..|args|-1];
    if Mentions(args[|front|], h) {
      i := |front|;
    } else {
      i := EnteredHasLast(front, h);
      assert forall k :: i <= k < |front| ==> front[k] == args[k];
    }
  }

  /** No pair is overridden for one of its hosts only. */
  predicate OverriddenWhole(args: seq<(string, string)>) {
    forall i :: 0 <= i < |args| ==> (LastFor(args, i, args[i].0) <==> LastFor(args, i, args[i].1))
  }

  /** Following a pair twice leads back exactly if later pairs override both hosts of a pair or neither. */
  lemma InvolutionExactly(args: seq<(string, string)>)
    ensures Involution(Entered(args)) <==> OverriddenWhole(args)
  {
    var pairs := Entered(args);
    if OverriddenWhole(args) {
      forall h | h in pairs ensures pairs[h] in pairs && pairs[pairs[h]] == h {
        var i := EnteredHasLast(args, h);
        LastPairDecides(args, i, h);
        LastPairDecides(args, i, pairs[h]);
      }
    }
    if Involution(pairs) {
      forall i | 0 <= i < |args| ensures LastFor(args, i, args[i].0) <==> LastFor(args, i, args[i].1) {
        if LastFor(args, i, args[i].0) { LastForBoth(args, i, args[i].0); }
        if LastFor(args, i, args[i].1) { LastForBoth(args, i, args[i].1); }
      }
    }
  }

  lemma LastForBoth(args: seq<(string, string)>, i: nat, h: string)
    requires Involution(Entered(args)) && LastFor(args, i, h)
    ensures LastFor(args, i, Other(args[i], h))
  {
    var g := Other(args[i], h);
    LastPairDecides(args, i, h);
    var k := EnteredHasLast(args, g);
    LastPairDecides(args, k, g);
    assert Mentions(args[k], h);
  }

  /** Every entry comes from one of the pairs. */
  lemma {:induction false} EntryIsPair(args: seq<(string, string)>, h: string)
    requires h in Entered(args)
    ensures Pairing(args, h, Entered(args)[h])
    decreases |args|
  {
    if args == [] {
    } else {
      var front, last := args[..|args|-1], args[|args|-1];
      assert args == front + [last];
      if h != last.0 && h != last.1 {
        EntryIsPair(front, h);
      }
    }
  }

  /** Every host of a pair has an entry. */
  lemma {:induction false} PairIsEntered(args: seq<(string, string)>, g: string, h: string)
    requires Pairing(args, g, h)
    ensures g in Entered(args)
    decreases |args|
  {
    var front, last := args[..|args|-1], args[|args|-1];
    assert args == front + [last];
    if g == last.0 || g == last.1 {
    } else {
      PairIsEntered(front, g, h);
    }
  }

  /** If no host occurs in two different pairs, each host of a pair is entered with its partner. */
  lemma PartnersAreEntered(args: seq<(string, string)>, g: string, h: string)
    requires Monogamous(args) && Pairing(args, g, h)
    ensures g in Entered(args) && Entered(args)[g] == h
  {
    PairIsEntered(args, g, h);
    EntryIsPair(args, g);
    assert Pairing(args, Entered(args)[g], g) && Pairing(args, h, g);
  }

  /** In particular, following a pair twice then leads back. */
  lemma MonogamousPairsAreInvolution(args: seq<(string, string)>)
    requires Monogamous(args)
    ensures Involution(Entered(args))
  {
    forall i | 0 <= i < |args| ensures LastFor(args, i, args[i].0) <==> LastFor(args, i, args[i].1) {
      forall k | 0 <= k < |args| ensures Mentions(args[k], args[i].0) <==> Mentions(args[k], args[i].1) {
        SharingMonogamousPairs(args, i, k);
      }
    }
    InvolutionExactly(args);
  }

  lemma SharingMonogamousPairs(args: seq<(string, string)>, i: nat, k: nat)
    requires Monogamous(args) && i < |args| && k < |args|
    ensures Mentions(args[k], args[i].0) <==> Mentions(args[k], args[i].1)
  {
    var (g, h) := args[i];
    var (g', h') := args[k];
    assert (g, h) in args && (g', h') in args;
    assert Pairing(args, g, h) && Pairing(args, h, g) && Pairing(args, g', h') && Pairing(args, h', g');
  }

  /** Two pairs that share a host and are not overridden as a whole do not lead back. */
  lemma SharedHostBreaksInvolution()
    ensures !Involution(Entered([("a", "b"), ("b", "c")]))
  {
    var args := [("a", "b"), ("b", "c")];
    var first := args[..1];
    assert first == [("a", "b")] && first[..0] == [];
    assert Entered(first[..0]) == map[] && Entered(first) == Enter(map[], ("a", "b"));
    var pairs := Entered(args);
    assert pairs == Enter(Entered(first), ("b", "c"));
    assert "a" in pairs && pairs["a"] == "b" && pairs["b"] == "c";
  }

  /** Yet pairs may share hosts and lead back, because the first of these is overridden for both its hosts. */
  lemma SharedHostsMayLeadBack()
    ensures Involution(Entered([("h", "g"), ("h", "k"), ("g", "m")]))
    ensures !Monogamous([("h", "g"), ("h", "k"), ("g", "m")])
  {
    var args := [("h", "g"), ("h", "k"), ("g", "m")];
    assert Mentions(args[1], "h") && Mentions(args[2], "g");
    assert LastFor(args, 1, "h") && LastFor(args, 1, "k") && LastFor(args, 2, "g") && LastFor(args, 2, "m");
    InvolutionExactly(args);
    assert ("h", "g") in args && ("h", "k") in args;
    assert Pairing(args, "g", "h") && Pairing(args, "k", "h");
  }
}
