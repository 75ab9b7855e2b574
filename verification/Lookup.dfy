/**
 A user configuration overlaid lazily on a tree of defaults.

 The objects a caller holds while walking the overlay are `Node`s; what a caller can tell about a
 node without indexing it further is its `View`.
 */
module Lookup {
  import opened Values

  datatype Key = Name(name: string) | Index(index: int)

  /** `NotIndexable` stands for Python's TypeError, AttributeError and KeyError. */
  datatype Fault = InvalidConfiguration | OutOfBounds | NotIndexable

  datatype Node =
    | Plain(value: Value)
    | Mapping(config: Value, mapDefaults: map<string, Value>)
    | Listing(config: Value, listDefaults: seq<Value>)
    | Raised(fault: Fault)

  /** What one item of an overlay becomes, given the configured value and the default value. */
  function Make(config: Value, default: Value): Node {
    match default
    case List(ds) =>
      if config.Truthy() && ds != [] && !config.List? then Raised(InvalidConfiguration) else Listing(config, ds)
    case Map(ds) =>
      if config.Truthy() && ds != map[] && !config.Map? then Raised(InvalidConfiguration) else Mapping(config, ds)
    case _ =>
      Plain(if config.Null? then default else config)
  }

  /** Python `len`; None where it raises. */
  function Len(v: Value): Option<nat> {
    match v
    case Str(s) => Some(|s|)
    case List(xs) => Some(|xs|)
    case Map(m) => Some(|m|)
    case _ => None
  }

  /** The length of a list overlay: the configured list wins as a whole. */
  function ListingLen(config: Value, defaults: seq<Value>): Option<nat> {
    if config.Null? then Some(|defaults|) else Len(config)
  }

  /** Python indexing into a sequence of length `len`: a negative index counts from the end. */
  function Position(len: nat, i: int): Option<nat> {
    if 0 <= i < len then Some(i)
    else if i < 0 <= len + i then Some(len + i)
    else None
  }

  /** Indexing a plain Python value. */
  function PlainItem(v: Value, key: Key): Node {
    match (v, key)
    case (Map(m), Name(k)) => if k in m then Plain(m[k]) else Raised(NotIndexable)
    case (List(xs), Index(i)) => (match Position(|xs|, i) case Some(p) => Plain(xs[p]) case None => Raised(OutOfBounds))
    case (Str(s), Index(i)) => (match Position(|s|, i) case Some(p) => Plain(Str([s[p]])) case None => Raised(OutOfBounds))
    case _ => Raised(NotIndexable)
  }

  function MappingItem(config: Value, defaults: map<string, Value>, key: Key): Node {
    if config.Truthy() && !config.Map? then Raised(NotIndexable)
    else
      match key
      case Name(k) => Make(if config.Map? then Get(config.entries, k) else Null, Get(defaults, k))
      case Index(_) => Plain(Null)
  }

  /** The bounds test comes first; every position then has the first default element as its template. */
  function ListingItem(config: Value, defaults: seq<Value>, key: Key): Node {
    match (ListingLen(config, defaults), key)
    case (Some(len), Index(i)) =>
      if i >= len then Raised(OutOfBounds)
      else
        var template := if defaults != [] then defaults[0] else Null;
        if !config.Truthy() then Make(Null, template)
        else (match PlainItem(config, key)
              case Plain(v) => Make(v, template)
              case other => other)
    case _ => Raised(NotIndexable)
  }

  function Item(n: Node, key: Key): Node {
    match n
    case Plain(v) => PlainItem(v, key)
    case Mapping(c, ds) => MappingItem(c, ds, key)
    case Listing(c, ds) => ListingItem(c, ds, key)
    case Raised(_) => n
  }

  function Walk(n: Node, path: seq<Key>): Node
    decreases |path|
  {
    if path == [] then n else Walk(Item(n, path[0]), path[1..])
  }

  datatype View = SeesPlain(value: Value) | SeesMapping | SeesListing(len: Option<nat>) | SeesFault(fault: Fault)

  function Look(n: Node): View {
    match n
    case Plain(v) => SeesPlain(v)
    case Mapping(_, _) => SeesMapping
    case Listing(c, ds) => SeesListing(ListingLen(c, ds))
    case Raised(f) => SeesFault(f)
  }

  // ---- What the overlay reads ----

  /** A configured list is read in its own order, from either end, and each element lies over the first default element. */
  lemma ListIsReadInOrder(xs: seq<Value>, ds: seq<Value>, i: nat)
    ensures var template := if ds != [] then ds[0] else Null;
      && Look(Listing(List(xs), ds)) == SeesListing(Some(|xs|))
      && (i < |xs| ==> Item(Listing(List(xs), ds), Index(i)) == Make(xs[i], template))
      && (i < |xs| ==> Item(Listing(List(xs), ds), Index(i - |xs|)) == Make(xs[i], template))
      && (i >= |xs| ==> Item(Listing(List(xs), ds), Index(i)) == Raised(OutOfBounds))
  {}

  /** What a path leads to in a plain value: names into mappings, positions into lists. */
  function At(v: Value, path: seq<Key>): Option<Value>
    decreases |path|
  {
    if path == [] then Some(v)
    else
      match (v, path[0])
      case (Map(m), Name(k)) => if k in m then At(m[k], path[1..]) else None
      case (List(xs), Index(i)) => if 0 <= i < |xs| then At(xs[i], path[1..]) else None
      case _ => None
  }

  predicate Scalar(v: Value) {
    v.Bool? || v.Num? || v.Str?
  }

  /** The node stands for this configured value, over whatever default. */
  predicate Carries(n: Node, c: Value) {
    match n
    case Plain(v) => v == c
    case Mapping(config, _) => config == c
    case Listing(config, _) => config == c
    case Raised(_) => true
  }

  lemma {:induction false} WalkCarries(n: Node, c: Value, path: seq<Key>, v: Value)
    requires Carries(n, c) && At(c, path) == Some(v) && !v.Null?
    ensures Carries(Walk(n, path), v)
    decreases |path|
  {
    if path == [] {
    } else {
      var c' := if path[0].Name? then c.entries[path[0].name] else c.items[path[0].index];
      assert Carries(Item(n, path[0]), c');
      WalkCarries(Item(n, path[0]), c', path[1..], v);
    }
  }

  /**
   The configuration wins: a path that leads to a scalar in the configuration reads no other plain
   value than that scalar.
   */
  lemma ConfiguredScalarWins(config: Value, default: Value, path: seq<Key>, v: Value)
    requires At(config, path) == Some(v) && Scalar(v)
    ensures var n := Walk(Make(config, default), path);
            n.Plain? ==> n.value == v
  {
    WalkCarries(Make(config, default), config, path, v);
  }

  /** The configuration says nothing at this path of names. */
  predicate Silent(config: Value, path: seq<Key>)
    decreases |path|
  {
    config.Null? ||
    (path != [] && config.Map? && path[0].Name? &&
     (path[0].name !in config.entries || Silent(config.entries[path[0].name], path[1..])))
  }

  /** The default shows through: where the configuration says nothing, a scalar default is what is read. */
  lemma {:induction false} DefaultShowsThrough(config: Value, default: Value, path: seq<Key>, v: Value)
    requires forall i :: 0 <= i < |path| ==> path[i].Name?
    requires At(default, path) == Some(v) && Scalar(v) && Silent(config, path)
    ensures Walk(Make(config, default), path) == Plain(v)
    decreases |path|
  {
    if path == [] {
    } else {
      var k, ds := path[0].name, default.entries;
      var c' := if config.Map? then Get(config.entries, k) else Null;
      assert forall i :: 0 <= i < |path[1..]| ==> path[1..][i] == path[i+1];
      DefaultShowsThrough(c', ds[k], path[1..], v);
      assert Item(Make(config, default), path[0]) == Make(c', ds[k]);
    }
  }

  /**
   Whether a key is used: all of them if `far` indices are, and otherwise only those that reach back no
   further than the list is long.
   */
  predicate Used(far: bool, n: Node, key: Key) {
    !far && n.Listing? && key.Index? && key.index < 0 ==>
      var len := ListingLen(n.config, n.listDefaults);
      len.Some? && -key.index <= len.value
  }

  predicate UsedPath(far: bool, n: Node, path: seq<Key>)
    decreases |path|
  {
    path == [] || (Used(far, n, path[0]) && UsedPath(far, Item(n, path[0]), path[1..]))
  }

  /** No lookup path, however long, that uses such keys tells the two nodes apart. */
  ghost predicate Same(far: bool, n: Node, n': Node) {
    forall path :: UsedPath(far, n, path) ==> Look(Walk(n, path)) == Look(Walk(n', path))
  }

  lemma SameLook(far: bool, n: Node, n': Node)
    requires Same(far, n, n')
    ensures Look(n) == Look(n')
  {
    var empty: seq<Key> := [];
    assert UsedPath(far, n, empty) && Walk(n, empty) == n && Walk(n', empty) == n';
  }

  /** Indistinguishable nodes have indistinguishable items. */
  lemma SameItem(far: bool, n: Node, n': Node, key: Key)
    requires Same(far, n, n') && Used(far, n, key)
    ensures Same(far, Item(n, key), Item(n', key))
  {
    forall path | UsedPath(far, Item(n, key), path)
      ensures Look(Walk(Item(n, key), path)) == Look(Walk(Item(n', key), path))
    {
      var longer := [key] + path;
      assert longer[1..] == path;
      assert UsedPath(far, n, longer);
      assert Walk(n, longer) == Walk(Item(n, key), path) && Walk(n', longer) == Walk(Item(n', key), path);
    }
  }

  /** Nodes that look alike and have indistinguishable items are indistinguishable. */
  lemma SameFromItems(far: bool, n: Node, n': Node)
    requires Look(n) == Look(n')
    requires forall key :: Used(far, n, key) ==> Same(far, Item(n, key), Item(n', key))
    ensures Same(far, n, n')
  {}

  /**
   The configured value adds nothing to the default: removing it cannot be noticed. With far indices
   that goes for no list that has elements.
   */
  predicate Redundant(far: bool, config: Value, default: Value)
    decreases config
  {
    match default
    case Map(ds) =>
      !config.Truthy() ||
      (config.Map? && forall k :: k in config.entries ==> Redundant(far, config.entries[k], Get(ds, k)))
    case List(ds) =>
      || config.Null?
      || (config.List? && |config.items| == |ds| && (far ==> ds == []) && forall i :: 0 <= i < |ds| ==> Redundant(far, config.items[i], ds[0]))
      || (ds == [] && (config == Str("") || config == Map(map[])))
    case _ => config.Null? || config == default
  }

  lemma {:induction false} RedundantIsUnnoticed(far: bool, config: Value, default: Value)
    ensures Same(far, Make(config, default), Make(Null, default)) <==> Redundant(far, config, default)
    decreases config
  {
    var n, n' := Make(config, default), Make(Null, default);
    match default {
      case Map(ds) =>
        if config.Map? {
          MapRedundantIsUnnoticed(far, config, ds);
        } else if config.Truthy() {
          if Same(far, n, n') {
            SameLook(far, n, n');
            SameItem(far, n, n', Name(""));
            SameLook(far, Item(n, Name("")), Item(n', Name("")));
          }
        } else {
          forall key | Used(far, n, key) ensures Item(n, key) == Item(n', key) {}
          SameFromItems(far, n, n');
        }
      case List(ds) =>
        if config.List? && |config.items| == |ds| {
          ListRedundantIsUnnoticed(far, config, ds);
        } else if Redundant(far, config, default) {
          forall key | Used(far, n, key) ensures Item(n, key) == Item(n', key) {}
          SameFromItems(far, n, n');
        } else if Same(far, n, n') {
          SameLook(far, n, n');
          assert false;
        }
      case _ =>
        if Same(far, n, n') {
          SameLook(far, n, n');
        } else {
          assert n != n';
        }
    }
  }

  lemma {:induction false} MapRedundantIsUnnoticed(far: bool, config: Value, ds: map<string, Value>)
    requires config.Map?
    ensures Same(far, Make(config, Map(ds)), Make(Null, Map(ds))) <==> Redundant(far, config, Map(ds))
    decreases config, 0
  {
    var n, n' := Make(config, Map(ds)), Make(Null, Map(ds));
    forall k | k in config.entries
      ensures Item(n, Name(k)) == Make(config.entries[k], Get(ds, k)) && Item(n', Name(k)) == Make(Null, Get(ds, k))
      ensures Same(far, Item(n, Name(k)), Item(n', Name(k))) <==> Redundant(far, config.entries[k], Get(ds, k))
    {
      RedundantIsUnnoticed(far, config.entries[k], Get(ds, k));
    }
    if Same(far, n, n') {
      forall k | k in config.entries ensures Redundant(far, config.entries[k], Get(ds, k)) {
        SameItem(far, n, n', Name(k));
      }
    }
    if Redundant(far, config, Map(ds)) {
      forall key | Used(far, n, key) ensures Same(far, Item(n, key), Item(n', key)) {
        if key.Name? && key.name in config.entries {
        } else {
          assert Item(n, key) == Item(n', key);
        }
      }
      SameFromItems(far, n, n');
    }
  }

  /** An index before the start of the list is out of bounds if one is configured, and finds an element if none is. */
  lemma FarIndexTellsApart(config: Value, ds: seq<Value>)
    requires config.List? && config.items != [] && |config.items| == |ds|
    ensures Look(Item(Listing(config, ds), Index(-|ds| - 1))) == SeesFault(OutOfBounds)
    ensures !Item(Listing(Null, ds), Index(-|ds| - 1)).Raised?
  {}

  lemma {:induction false} ListRedundantIsUnnoticed(far: bool, config: Value, ds: seq<Value>)
    requires config.List? && |config.items| == |ds|
    ensures Same(far, Make(config, List(ds)), Make(Null, List(ds))) <==> Redundant(far, config, List(ds))
    decreases config, 0
  {
    var n, n' := Make(config, List(ds)), Make(Null, List(ds));
    forall i | 0 <= i < |ds|
      ensures Same(far, Make(config.items[i], ds[0]), Make(Null, ds[0])) <==> Redundant(far, config.items[i], ds[0])
    {
      RedundantIsUnnoticed(far, config.items[i], ds[0]);
    }
    if Same(far, n, n') {
      forall i | 0 <= i < |ds| ensures Redundant(far, config.items[i], ds[0]) {
        SameItem(far, n, n', Index(i));
        assert Item(n, Index(i)) == Make(config.items[i], ds[0]) && Item(n', Index(i)) == Make(Null, ds[0]);
      }
      if far && ds != [] {
        FarIndexTellsApart(config, ds);
        SameItem(far, n, n', Index(-|ds| - 1));
        SameLook(far, Item(n, Index(-|ds| - 1)), Item(n', Index(-|ds| - 1)));
      }
    }
    if Redundant(far, config, List(ds)) {
      forall key | Used(far, n, key) ensures Same(far, Item(n, key), Item(n', key)) {
        match key {
          case Index(i) =>
            if ds == [] { assert Item(n, key) == Item(n', key); }
            match Position(|ds|, i) {
              case Some(p) =>
                assert Item(n, key) == Make(config.items[p], ds[0]) && Item(n', key) == Make(Null, ds[0]);
              case None =>
            }
          case Name(_) =>
        }
      }
      SameFromItems(far, n, n');
    }
  }
}
