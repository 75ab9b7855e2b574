/** Iterating over an overlay, and turning it into plain nested dictionaries. */
module Flatten {
  import opened Values
  import opened Lookup
  import Sets

  /** List overlays are not mappings, so flattening leaves them lazy. */
  datatype Flat =
    | Leaf(value: Value)
    | Dict(entries: map<string, Flat>)
    | Lazy(config: Value, defaults: seq<Value>)

  /** Python `len` of a mapping overlay: the larger of the two sides, an absent side counting as -1. */
  function MappingLen(config: Value, defaults: map<string, Value>): Option<nat> {
    if config.Null? then Some(|defaults|)
    else
      match Len(config)
      case Some(n) => Some(if |defaults| > n then |defaults| else n)
      case None => None
  }

  /** The keys that `items()` visits: those of the larger side, the configuration winning ties. */
  function ItemKeys(config: Value, defaults: map<string, Value>): Option<set<string>> {
    match config
    case Map(m) => Some(if |defaults| > |m| then defaults.Keys else m.Keys)
    case Bool(_) => None
    case Num(_) => None
    case _ => if config.Truthy() then None else Some(defaults.Keys)
  }

  /** A configuration that an overlay can be iterated over: a mapping, or nothing. */
  predicate HasKeys(config: Value) {
    config.Map? || config.Null? || config == Str("") || config == List([])
  }

  function Configured(config: Value, k: string): Value {
    if config.Map? then Get(config.entries, k) else Null
  }

  function UnionKeys(config: Value, defaults: map<string, Value>): set<string> {
    (if config.Map? then config.entries.Keys else {}) + defaults.Keys
  }

  /** Flattening goes through the overlay's own iteration; None where it raises. */
  function FlattenItem(config: Value, default: Value): Option<Flat>
    decreases default
  {
    match Make(config, default)
    case Plain(v) => Some(Leaf(v))
    case Listing(c, ds) => Some(Lazy(c, ds))
    case Raised(_) => None
    case Mapping(c, ds) =>
      match ItemKeys(c, ds)
      case None => None
      case Some(keys) =>
        Collect(map k | k in keys :: FlattenEntry(c, default, k))
  }

  function FlattenEntry(config: Value, default: Value, k: string): Option<Flat>
    requires default.Map?
    decreases default, 0
  {
    if k in default.entries then FlattenItem(Configured(config, k), default.entries[k])
    else Some(Leaf(Configured(config, k)))
  }

  function Collect(items: map<string, Option<Flat>>): Option<Flat> {
    if forall k :: k in items ==> items[k].Some? then Some(Dict(map k | k in items :: items[k].value)) else None
  }

  /** The eager merge: the configuration wins, null counts as absent, mappings merge key by key. */
  function Merge(config: Value, default: Value): Option<Flat>
    decreases default
  {
    match default
    case Map(ds) =>
      if HasKeys(config) then
        Collect(map k | k in UnionKeys(config, ds) :: MergeEntry(config, default, k))
      else None
    case List(ds) =>
      if config.Truthy() && ds != [] && !config.List? then None else Some(Lazy(config, ds))
    case _ =>
      Some(Leaf(if config.Null? then default else config))
  }

  function MergeEntry(config: Value, default: Value, k: string): Option<Flat>
    requires default.Map?
    decreases default, 0
  {
    if k in default.entries then Merge(Configured(config, k), default.entries[k])
    else Some(Leaf(Configured(config, k)))
  }

  /** One of the two sides has all the keys. */
  predicate OneSideHasAll(config: Value, ds: map<string, Value>) {
    config.Map? ==> config.entries.Keys <= ds.Keys || ds.Keys <= config.entries.Keys
  }

  /** At every mapping level, one of the two sides has all the keys. */
  predicate Comparable(config: Value, default: Value)
    decreases default
  {
    default.Map? ==>
      && OneSideHasAll(config, default.entries)
      && forall k :: k in default.entries ==> Comparable(Configured(config, k), default.entries[k])
  }


  /** Iteration visits exactly the keys of both sides, and `len` counts them, just when one side has all the keys. */
  lemma IterationIsUnion(m: map<string, Value>, ds: map<string, Value>)
    ensures ItemKeys(Map(m), ds) == Some(UnionKeys(Map(m), ds)) <==> OneSideHasAll(Map(m), ds)
    ensures MappingLen(Map(m), ds) == Some(|UnionKeys(Map(m), ds)|) <==> OneSideHasAll(Map(m), ds)
  {
    var union := m.Keys + ds.Keys;
    Sets.SubsetSize(m.Keys, union);
    Sets.SubsetSize(ds.Keys, union);
    assert |m| == |m.Keys| && |ds| == |ds.Keys|;
    if m.Keys <= ds.Keys { assert union == ds.Keys; }
    if ds.Keys <= m.Keys { assert union == m.Keys; }
  }

  /** The claim of `FlattenIsMerge` for one pair. */
  ghost predicate MergesExactly(config: Value, default: Value) {
    && (Comparable(config, default) ==> FlattenItem(config, default) == Merge(config, default))
    && (Merge(config, default).Some? && FlattenItem(config, default) == Merge(config, default) ==> Comparable(config, default))
  }

  /**
   Flattening the lazy overlay gives the eager merge whenever at every mapping level one side has all
   the keys; and where the merge is defined at all, only then.
   */
  lemma {:induction false} FlattenIsMerge(config: Value, default: Value)
    ensures Comparable(config, default) ==> FlattenItem(config, default) == Merge(config, default)
    ensures Merge(config, default).Some? ==>
              (FlattenItem(config, default) == Merge(config, default) <==> Comparable(config, default))
    decreases default
  {
    if !default.Map? {
    } else {
      forall k | k in default.entries ensures MergesExactly(Configured(config, k), default.entries[k]) {
        FlattenIsMerge(Configured(config, k), default.entries[k]);
      }
      if HasKeys(config) {
        if Comparable(config, default) {
          ComparableMerges(config, default);
        }
        if Merge(config, default).Some? && FlattenItem(config, default) == Merge(config, default) {
          MergedIsComparable(config, default);
        }
      }
    }
  }

  lemma ComparableMerges(config: Value, default: Value)
    requires default.Map? && HasKeys(config)
    requires forall k :: k in default.entries ==> MergesExactly(Configured(config, k), default.entries[k])
    requires Comparable(config, default)
    ensures FlattenItem(config, default) == Merge(config, default)
  {
    if config.Map? {
      IterationIsUnion(config.entries, default.entries);
      assert config == Map(config.entries);
    }
    var keys := UnionKeys(config, default.entries);
    assert !config.Map? ==> keys == default.entries.Keys;
    assert OneSideHasAll(config, default.entries);
    assert ItemKeys(config, default.entries) == Some(keys);
    forall k | k in keys ensures FlattenEntry(config, default, k) == MergeEntry(config, default, k) {
      if k in default.entries {
        assert MergesExactly(Configured(config, k), default.entries[k]);
      }
    }
    var flat := map k | k in keys :: FlattenEntry(config, default, k);
    var merged := map k | k in keys :: MergeEntry(config, default, k);
    assert flat == merged;
  }

  lemma MergedIsComparable(config: Value, default: Value)
    requires default.Map? && HasKeys(config)
    requires forall k :: k in default.entries ==> MergesExactly(Configured(config, k), default.entries[k])
    requires Merge(config, default).Some? && FlattenItem(config, default) == Merge(config, default)
    ensures Comparable(config, default)
  {
    MergedEntries(config, default);
    forall k | k in default.entries ensures Comparable(Configured(config, k), default.entries[k]) {
      assert MergesExactly(Configured(config, k), default.entries[k]);
    }
    if config.Map? {
      IterationIsUnion(config.entries, default.entries);
      assert config == Map(config.entries);
    }
  }

  lemma MergedEntries(config: Value, default: Value)
    requires default.Map? && HasKeys(config)
    requires Merge(config, default).Some? && FlattenItem(config, default) == Merge(config, default)
    ensures ItemKeys(config, default.entries) == Some(UnionKeys(config, default.entries))
    ensures forall k :: k in default.entries ==>
              var c, d := Configured(config, k), default.entries[k];
              Merge(c, d).Some? && FlattenItem(c, d) == Merge(c, d)
  {
    var keys := ItemKeys(config, default.entries).value;
    var flat := map k | k in keys :: FlattenEntry(config, default, k);
    var merged := map k | k in UnionKeys(config, default.entries) :: MergeEntry(config, default, k);
    CollectIsInjective(flat, merged);
    assert flat.Keys == keys && merged.Keys == UnionKeys(config, default.entries);
    forall k | k in default.entries
      ensures MergeEntry(config, default, k).Some? && FlattenEntry(config, default, k) == MergeEntry(config, default, k)
    {
      assert k in merged && flat[k] == merged[k];
    }
  }

  lemma CollectIsInjective(a: map<string, Option<Flat>>, b: map<string, Option<Flat>>)
    requires Collect(a).Some? && Collect(a) == Collect(b)
    ensures a == b && forall k :: k in a ==> a[k].Some?
  {
    var result := Collect(a).value.entries;
    assert result.Keys == a.Keys && result.Keys == b.Keys;
    forall k | k in a ensures a[k] == Some(result[k]) && b[k] == Some(result[k]) {}
  }
}
