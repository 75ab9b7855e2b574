/** Removing from a configuration everything that the defaults already supply. */
module Transformer {
  import opened Values
  import opened Lookup

  /** A sequence with exactly one element, which is a mapping. */
  predicate SingleDictList(v: Value) {
    v.List? && |v.items| == 1 && v.items[0].Map?
  }

  /** Null stands for an entry that does not survive. */
  function StripItem(v: Value, dv: Value): Value
    decreases v, 1
  {
    if v == dv then Null
    else if v.Map? && dv.Map? then Strip(v, dv)
    else if SingleDictList(v) && SingleDictList(dv) then
      var item := Strip(v.items[0], dv.items[0]);
      List(if item.Truthy() then [item] else [])
    else v
  }

  function Strip(c: Value, d: Value): (r: Value)
    requires c.Map? && d.Map?
    ensures r.Map? && r.entries.Keys <= c.entries.Keys
    decreases c, 0
  {
    Map(map k | k in c.entries && StripItem(c.entries[k], Get(d.entries, k)).Truthy()
        :: StripItem(c.entries[k], Get(d.entries, k)))
  }

  /**
   The stripping loop: entries equal to their default are popped, what is left under common keys is
   stripped recursively, in whatever order the set of keys is visited, and falsy entries are popped.
   */
  method RemoveIntersect(dict1: map<string, Value>, dict2: map<string, Value>) returns (dict: map<string, Value>)
    ensures Map(dict) == Strip(Map(dict1), Map(dict2))
    decreases Map(dict1), 0
  {
    dict := PopAll(dict1, set k | k in dict1 && k in dict2 && dict2[k] == dict1[k]);
    var common := dict.Keys * dict2.Keys;
    ghost var popped := dict;
    while common != {}
      invariant dict.Keys == popped.Keys && common <= popped.Keys * dict2.Keys
      invariant forall k :: k in common ==> dict[k] == popped[k]
      invariant forall k :: k in popped && k !in common ==> dict[k] == StripItem(popped[k], Get(dict2, k))
    {
      var k :| k in common;
      common := common - {k};
      assert dict[k] == dict1[k] && dict1[k] < Map(dict1);
      var stripped := RemoveCommon(dict[k], dict2[k]);
      dict := dict[k := stripped];
    }
    ghost var swept := dict;
    dict := PopAll(dict, set k | k in dict && !dict[k].Truthy());
    SweptIsStripped(dict1, dict2, swept, dict);
  }

  lemma SweptIsStripped(dict1: map<string, Value>, dict2: map<string, Value>,
                        swept: map<string, Value>, dict: map<string, Value>)
    requires swept.Keys == set k | k in dict1 && !(k in dict2 && dict2[k] == dict1[k])
    requires forall k :: k in swept ==> swept[k] == StripItem(dict1[k], Get(dict2, k))
    requires dict.Keys == set k | k in swept && swept[k].Truthy()
    requires forall k :: k in dict ==> dict[k] == swept[k]
    ensures Map(dict) == Strip(Map(dict1), Map(dict2))
  {}

  /** The body of the loop, for one key that both dictionaries have. */
  method RemoveCommon(v: Value, dv: Value) returns (r: Value)
    requires v != dv
    ensures r == StripItem(v, dv)
    decreases v, 1
  {
    r := v;
    if v.Map? && dv.Map? {
      var inner := RemoveIntersect(v.entries, dv.entries);
      r := Map(inner);
    } else if SingleDictList(v) && SingleDictList(dv) {
      var inner := RemoveIntersect(v.items[0].entries, dv.items[0].entries);
      r := List(if inner != map[] then [Map(inner)] else []);
    }
  }

  method PopAll(dict: map<string, Value>, keys: set<string>) returns (rest: map<string, Value>)
    ensures rest.Keys == dict.Keys - keys && forall k :: k in rest ==> rest[k] == dict[k]
  {
    rest := dict;
    var left := keys;
    while left != {}
      invariant left <= keys
      invariant rest.Keys == dict.Keys - (keys - left) && forall k :: k in rest ==> rest[k] == dict[k]
    {
      var k :| k in left;
      left := left - {k};
      rest := rest - {k};
    }
  }

  // ---- What a second strip, and every survivor, looks like ----

  /** At every level the strip reaches, a survivor is truthy, was configured, and is not the default. */
  predicate Irredundant(r: Value, c: Value, d: Value)
    requires r.Map? && c.Map? && d.Map?
    decreases r
  {
    forall k :: k in r.entries ==>
      && k in c.entries
      && r.entries[k].Truthy()
      && r.entries[k] != Get(d.entries, k)
      && var v, dv := c.entries[k], Get(d.entries, k);
         if v.Map? && dv.Map? then r.entries[k].Map? && Irredundant(r.entries[k], v, dv)
         else if SingleDictList(v) && SingleDictList(dv) then
           SingleDictList(r.entries[k]) && Irredundant(r.entries[k].items[0], v.items[0], dv.items[0])
         else r.entries[k] == v
  }

  lemma {:induction false} StripIsIrredundant(c: Value, d: Value)
    requires c.Map? && d.Map?
    ensures Irredundant(Strip(c, d), c, d)
    decreases c
  {
    var r := Strip(c, d);
    forall k | k in r.entries
      ensures r.entries[k] != Get(d.entries, k)
      ensures var v, dv := c.entries[k], Get(d.entries, k);
        if v.Map? && dv.Map? then r.entries[k].Map? && Irredundant(r.entries[k], v, dv)
        else if SingleDictList(v) && SingleDictList(dv) then
          SingleDictList(r.entries[k]) && Irredundant(r.entries[k].items[0], v.items[0], dv.items[0])
        else r.entries[k] == v
    {
      var v, dv := c.entries[k], Get(d.entries, k);
      assert v != dv && r.entries[k] == StripItem(v, dv);
      if v.Map? && dv.Map? {
        StripIsIrredundant(v, dv);
        IrredundantIsNotTheDefault(r.entries[k], v, dv);
      } else if SingleDictList(v) && SingleDictList(dv) {
        StripIsIrredundant(v.items[0], dv.items[0]);
        IrredundantIsNotTheDefault(r.entries[k].items[0], v.items[0], dv.items[0]);
      }
    }
  }

  lemma IrredundantIsNotTheDefault(r: Value, c: Value, d: Value)
    requires r.Map? && c.Map? && d.Map? && r.Truthy() && Irredundant(r, c, d)
    ensures r != d
  {}

  lemma {:induction false} StripIsIdempotent(c: Value, d: Value)
    requires c.Map? && d.Map?
    ensures Strip(Strip(c, d), d) == Strip(c, d)
    decreases c
  {
    var r := Strip(c, d);
    StripIsIrredundant(c, d);
    forall k | k in r.entries
      ensures StripItem(r.entries[k], Get(d.entries, k)) == r.entries[k]
    {
      var v, dv := c.entries[k], Get(d.entries, k);
      assert v != dv && r.entries[k] == StripItem(v, dv);
      if v.Map? && dv.Map? {
        StripIsIdempotent(v, dv);
      } else if SingleDictList(v) && SingleDictList(dv) {
        StripIsIdempotent(v.items[0], dv.items[0]);
      }
    }
  }

  // ---- When stripping keeps the meaning of a configuration ----

  /**
   Every value the strip throws away, at any level it reaches, adds nothing to the default under it.
   With far indices it may throw away no list that has elements.
   */
  predicate Safe(far: bool, c: Value, d: Value)
    requires c.Map? && d.Map?
    decreases c, 0
  {
    forall k :: k in c.entries ==> SafeItem(far, c.entries[k], Get(d.entries, k))
  }

  predicate SafeItem(far: bool, v: Value, dv: Value)
    decreases v, 1
  {
    if v == dv then Redundant(far, v, dv)
    else if v.Map? && dv.Map? then Safe(far, v, dv)
    else if SingleDictList(v) && SingleDictList(dv) then
      Safe(far, v.items[0], dv.items[0]) && (far ==> Strip(v.items[0], dv.items[0]).Truthy())
    else v.Truthy() || Redundant(far, v, dv)
  }

  /**
   The stripped configuration reads the same as the original, through every lookup path that uses such
   keys, exactly when every value it drops is redundant.
   */
  lemma {:induction false} StripPreservesMeaning(far: bool, c: Value, d: Value)
    requires c.Map? && d.Map?
    ensures Same(far, Mapping(c, d.entries), Mapping(Strip(c, d), d.entries)) <==> Safe(far, c, d)
    decreases c, 0
  {
    var n, n' := Mapping(c, d.entries), Mapping(Strip(c, d), d.entries);
    forall k | k in c.entries
      ensures Item(n, Name(k)) == Make(c.entries[k], Get(d.entries, k))
      ensures Item(n', Name(k)) == Make(Survivor(c.entries[k], Get(d.entries, k)), Get(d.entries, k))
      ensures Same(far, Item(n, Name(k)), Item(n', Name(k))) <==> SafeItem(far, c.entries[k], Get(d.entries, k))
    {
      StripItemPreservesMeaning(far, c.entries[k], Get(d.entries, k));
    }
    if Same(far, n, n') {
      forall k | k in c.entries ensures SafeItem(far, c.entries[k], Get(d.entries, k)) {
        SameItem(far, n, n', Name(k));
      }
    }
    if Safe(far, c, d) {
      forall key | Used(far, n, key) ensures Same(far, Item(n, key), Item(n', key)) {
        if key.Name? && key.name in c.entries {
        } else {
          assert Item(n, key) == Item(n', key);
        }
      }
      SameFromItems(far, n, n');
    }
  }

  /** What a lookup finds in the stripped configuration. */
  function Survivor(v: Value, dv: Value): Value {
    if StripItem(v, dv).Truthy() then StripItem(v, dv) else Null
  }

  lemma {:induction false} StripItemPreservesMeaning(far: bool, v: Value, dv: Value)
    ensures Same(far, Make(v, dv), Make(Survivor(v, dv), dv)) <==> SafeItem(far, v, dv)
    decreases v, 1
  {
    RedundantIsUnnoticed(far, v, dv);
    if v == dv {
    } else if v.Map? && dv.Map? {
      StripPreservesMeaning(far, v, dv);
      EmptyMapIsUnnoticed(far, Strip(v, dv), v, dv.entries);
    } else if SingleDictList(v) && SingleDictList(dv) {
      StripPreservesMeaning(far, v.items[0], dv.items[0]);
      SingleDictListPreservesMeaning(far, v, dv);
    } else if v.Truthy() {
      SameFromEqual(far, Make(v, dv));
    }
  }

  lemma SameFromEqual(far: bool, n: Node)
    ensures Same(far, n, n)
  {}

  /** Dropping an empty mapping from under a mapping default cannot be noticed. */
  lemma EmptyMapIsUnnoticed(far: bool, r: Value, c: Value, ds: map<string, Value>)
    requires r.Map? && c.Map?
    ensures Same(far, Mapping(c, ds), Mapping(r, ds)) <==>
            Same(far, Mapping(c, ds), Mapping(if r.Truthy() then r else Null, ds))
  {}

  lemma SingleDictListPreservesMeaning(far: bool, v: Value, dv: Value)
    requires v != dv && SingleDictList(v) && SingleDictList(dv)
    ensures Same(far, Make(v, dv), Make(Survivor(v, dv), dv)) <==>
            && Same(far, Mapping(v.items[0], dv.items[0].entries),
                    Mapping(Strip(v.items[0], dv.items[0]), dv.items[0].entries))
            && (far ==> Strip(v.items[0], dv.items[0]).Truthy())
  {
    var x, y := v.items[0], dv.items[0];
    var r := Strip(x, y);
    EmptyMapIsUnnoticed(far, r, x, y.entries);
    var n, n' := Make(v, dv), Make(Survivor(v, dv), dv);
    forall i | i == 0 || i == -1
      ensures Item(n, Index(i)) == Mapping(x, y.entries)
      ensures Item(n', Index(i)) == Mapping(if r.Truthy() then r else Null, y.entries)
    {}
    if Same(far, n, n') {
      SameItem(far, n, n', Index(0));
      if far && !r.Truthy() {
        FarIndexTellsApart(v, dv.items);
        SameItem(far, n, n', Index(-2));
        SameLook(far, Item(n, Index(-2)), Item(n', Index(-2)));
      }
    }
    if Same(far, Mapping(x, y.entries), Mapping(r, y.entries)) && (far ==> r.Truthy()) {
      forall key | Used(far, n, key) ensures Same(far, Item(n, key), Item(n', key)) {
        if key == Index(0) || key == Index(-1) {
        } else {
          assert Item(n, key) == Item(n', key);
        }
      }
      SameFromItems(far, n, n');
    }
  }

  // ---- The condition in the terms of the shipped default files ----

  /** Every list of defaults, at any depth, has at most one element. */
  predicate ShortLists(d: Value) {
    match d
    case List(xs) => |xs| <= 1 && forall i :: 0 <= i < |xs| ==> ShortLists(xs[i])
    case Map(m) => forall k :: k in m ==> ShortLists(m[k])
    case _ => true
  }

  lemma {:induction false} ShortDefaultsAreSelfRedundant(d: Value)
    requires ShortLists(d)
    ensures Redundant(false, d, d)
    decreases d
  {
    match d {
      case Map(m) =>
        forall k | k in m ensures Redundant(false, m[k], Get(m, k)) { ShortDefaultsAreSelfRedundant(m[k]); }
      case List(xs) =>
        forall i | 0 <= i < |xs| ensures Redundant(false, xs[i], xs[0]) { ShortDefaultsAreSelfRedundant(xs[0]); }
      case _ =>
    }
  }

  /** No falsy value, at any level the strip reaches, overrides a default of another meaning. */
  predicate NoFalsyOverride(c: Value, d: Value)
    requires c.Map? && d.Map?
    decreases c
  {
    forall k :: k in c.entries ==>
      var v, dv := c.entries[k], Get(d.entries, k);
      || v == dv
      || (if v.Map? && dv.Map? then NoFalsyOverride(v, dv)
          else if SingleDictList(v) && SingleDictList(dv) then NoFalsyOverride(v.items[0], dv.items[0])
          else v.Truthy() || Redundant(false, v, dv))
  }

  /** With at most one element in each default list, falsy overrides are the only way to lose meaning. */
  lemma {:induction false} SafeUnderShortDefaults(c: Value, d: Value)
    requires c.Map? && d.Map? && ShortLists(d)
    ensures Safe(false, c, d) <==> NoFalsyOverride(c, d)
    decreases c
  {
    forall k | k in c.entries
      ensures ShortLists(Get(d.entries, k)) && Redundant(false, Get(d.entries, k), Get(d.entries, k))
      ensures var v, dv := c.entries[k], Get(d.entries, k);
        && (v.Map? && dv.Map? ==> (Safe(false, v, dv) <==> NoFalsyOverride(v, dv)))
        && (SingleDictList(v) && SingleDictList(dv) ==>
              (Safe(false, v.items[0], dv.items[0]) <==> NoFalsyOverride(v.items[0], dv.items[0])))
    {
      var v, dv := c.entries[k], Get(d.entries, k);
      ShortDefaultsAreSelfRedundant(dv);
      if v.Map? && dv.Map? {
        SafeUnderShortDefaults(v, dv);
      } else if SingleDictList(v) && SingleDictList(dv) {
        assert dv.items[0] == dv.items[0];
        SafeUnderShortDefaults(v.items[0], dv.items[0]);
      }
    }
  }

  // ---- The three ways in which stripping does change what is read ----

  /** A configured `false` over a true default is thrown away, and the default comes back. */
  lemma FalsyOverrideIsLost()
    ensures
      var c, d := Map(map["singleton" := Bool(false)]), Map(map["singleton" := Bool(true)]);
      !Same(false, Mapping(c, d.entries), Mapping(Strip(c, d), d.entries))
  {
    var c, d := Map(map["singleton" := Bool(false)]), Map(map["singleton" := Bool(true)]);
    assert "singleton" in c.entries && !SafeItem(false, c.entries["singleton"], Get(d.entries, "singleton"));
    StripPreservesMeaning(false, c, d);
  }

  /** A list equal to a two-element default is thrown away, but its second element no longer reads the same. */
  lemma LongDefaultListIsLost()
    ensures
      var d := Map(map["groups" := List([Num(1), Num(2)])]);
      !Same(false, Mapping(d, d.entries), Mapping(Strip(d, d), d.entries))
  {
    var d := Map(map["groups" := List([Num(1), Num(2)])]);
    var groups := d.entries["groups"];
    assert "groups" in d.entries && !Redundant(false, groups.items[1], groups.items[0]);
    StripPreservesMeaning(false, d, d);
  }

  /** A negative index beyond the list's length fails on a configured list but not on a default one. */
  lemma FarNegativeIndexTellsApart()
    ensures
      var c := Map(map["ports" := List([Map(map["name" := Str("http")])])]);
      var d := Map(map["ports" := List([Map(map["name" := Str("http"), "port" := Num(80)])])]);
      && Safe(false, c, d) && ShortLists(d)
      && Look(Walk(Mapping(c, d.entries), [Name("ports"), Index(-2)])) == SeesFault(OutOfBounds)
      && Look(Walk(Mapping(Strip(c, d), d.entries), [Name("ports"), Index(-2)])) == SeesMapping
  {
    var x, y := Map(map["name" := Str("http")]), Map(map["name" := Str("http"), "port" := Num(80)]);
    assert "port" in y.entries && "port" !in x.entries;
    NamesAreStripped(x, y);
    ShortEntries(y);
    OneListIsSafe("ports", x, y);
    FarWalkFails("ports", x, y);
    FarWalkFinds("ports", y);
  }

  lemma NamesAreStripped(x: Value, y: Value)
    requires x == Map(map["name" := Str("http")]) && y == Map(map["name" := Str("http"), "port" := Num(80)])
    ensures Strip(x, y) == Map(map[]) && Safe(false, x, y)
  {
    assert Strip(x, y).entries == map[];
  }

  lemma ShortEntries(y: Value)
    requires y == Map(map["name" := Str("http"), "port" := Num(80)])
    ensures ShortLists(y)
  {}

  /** A configuration of one list of one mapping, all of which the defaults supply, is stripped to nothing. */
  lemma OneListIsSafe(k: string, x: Value, y: Value)
    requires x.Map? && y.Map? && x != y && Strip(x, y) == Map(map[]) && Safe(false, x, y) && ShortLists(y)
    ensures var c, d := Map(map[k := List([x])]), Map(map[k := List([y])]);
            Strip(c, d) == Map(map[]) && Safe(false, c, d) && ShortLists(d)
  {
    var c, d := Map(map[k := List([x])]), Map(map[k := List([y])]);
    assert StripItem(List([x]), List([y])) == List([]);
    assert Strip(c, d).entries == map[];
    assert ShortLists(List([y]));
  }

  lemma FarWalkFails(k: string, x: Value, y: Value)
    requires x.Map? && y.Map?
    ensures Look(Walk(Mapping(Map(map[k := List([x])]), map[k := List([y])]), [Name(k), Index(-2)])) == SeesFault(OutOfBounds)
  {
    WalkTwo(Mapping(Map(map[k := List([x])]), map[k := List([y])]), Name(k), Index(-2));
  }

  lemma FarWalkFinds(k: string, y: Value)
    requires y.Map?
    ensures Look(Walk(Mapping(Map(map[]), map[k := List([y])]), [Name(k), Index(-2)])) == SeesMapping
  {
    WalkTwo(Mapping(Map(map[]), map[k := List([y])]), Name(k), Index(-2));
  }

  lemma WalkTwo(n: Node, first: Key, second: Key)
    ensures Walk(n, [first, second]) == Item(Item(n, first), second)
  {
    var path := [first, second];
    assert path[1..] == [second] && path[1..][1..] == [];
    assert Walk(n, path) == Walk(Item(n, first), [second]);
  }
}
