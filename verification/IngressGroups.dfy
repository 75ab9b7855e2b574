/** Dividing the hosts of an application among named Ingress objects, one issuer to each. */
module IngressGroups {
  import opened Values
  import opened Text
  import opened Issuers
  import opened IngressItems

  // ---- Issuers ----

  /** The annotation key that names the kind of issuer, and the issuer's own name. */
  datatype Issuer = Issuer(kind: string, name: Option<string>)

  datatype Config = Config(suffixes: seq<string>, kindOverrides: seq<Override>, nameOverrides: seq<Override>,
                           kindDefault: string, nameDefault: Option<string>)

  /** The override for the first ingress suffix that has one. */
  function SuffixOverride(suffixes: seq<string>, overrides: seq<Override>): Option<string> {
    if suffixes == [] then None
    else if OverrideFor(suffixes[0], overrides).Some? then OverrideFor(suffixes[0], overrides)
    else SuffixOverride(suffixes[1..], overrides)
  }

  function DefaultKind(cfg: Config): string {
    match SuffixOverride(cfg.suffixes, cfg.kindOverrides)
    case Some(k) => k
    case None => cfg.kindDefault
  }

  function FallbackName(cfg: Config, app: AppSpec): Option<string> {
    if app.certificateIssuer.Some? && app.certificateIssuer != Some("") then app.certificateIssuer else cfg.nameDefault
  }

  function DefaultIssuer(cfg: Config, app: AppSpec): Issuer {
    var name := SuffixOverride(cfg.suffixes, cfg.nameOverrides);
    Issuer(DefaultKind(cfg), if name.Some? then name else FallbackName(cfg, app))
  }

  function IssuerOf(cfg: Config, app: AppSpec, host: string): Issuer {
    var kind, name := OverrideFor(host, cfg.kindOverrides), OverrideFor(host, cfg.nameOverrides);
    Issuer(if kind.Some? then kind.value else DefaultKind(cfg), if name.Some? then name else FallbackName(cfg, app))
  }

  /** The override found is that of the first suffix that has one. */
  lemma {:induction false} SuffixOverrideIsFirst(suffixes: seq<string>, overrides: seq<Override>)
    ensures match SuffixOverride(suffixes, overrides)
      case None => forall i :: 0 <= i < |suffixes| ==> OverrideFor(suffixes[i], overrides) == None
      case Some(v) => exists i :: 0 <= i < |suffixes| && OverrideFor(suffixes[i], overrides) == Some(v) &&
                        forall k :: 0 <= k < i ==> OverrideFor(suffixes[k], overrides) == None
    decreases |suffixes|
  {
    if suffixes == [] {
    } else {
      var rest := suffixes[1..];
      SuffixOverrideIsFirst(rest, overrides);
      assert forall i :: 0 < i < |suffixes| ==> suffixes[i] == rest[i-1];
      if OverrideFor(suffixes[0], overrides).None? && SuffixOverride(rest, overrides).Some? {
        var i :| 0 <= i < |rest| && OverrideFor(rest[i], overrides) == SuffixOverride(rest, overrides) &&
          forall k :: 0 <= k < i ==> OverrideFor(rest[k], overrides) == None;
        assert suffixes[i+1] == rest[i];
      }
    }
  }

  /**
   A host with overrides gets them; the default issuer gets those of the suffixes. What is missing is, for
   the kind, that of the suffixes or else the configured one, and for the name the application's own if it
   has one and else the configured one.
   */
  lemma IssuersAreExact(cfg: Config, app: AppSpec, host: string)
    ensures var ownName := app.certificateIssuer.Some? && app.certificateIssuer.value != "";
            var kind, name := OverrideFor(host, cfg.kindOverrides), OverrideFor(host, cfg.nameOverrides);
            var suffixKind, suffixName := SuffixOverride(cfg.suffixes, cfg.kindOverrides), SuffixOverride(cfg.suffixes, cfg.nameOverrides);
            var issuer, default := IssuerOf(cfg, app, host), DefaultIssuer(cfg, app);
      && (kind.Some? ==> issuer.kind == kind.value)
      && (kind.None? ==> issuer.kind == default.kind)
      && (name.Some? ==> issuer.name == name)
      && (name.None? && ownName ==> issuer.name == app.certificateIssuer)
      && (name.None? && !ownName ==> issuer.name == cfg.nameDefault)
      && (suffixKind.Some? ==> default.kind == suffixKind.value)
      && (suffixKind.None? ==> default.kind == cfg.kindDefault)
      && (suffixName.Some? ==> default.name == suffixName)
      && (suffixName.None? && ownName ==> default.name == app.certificateIssuer)
      && (suffixName.None? && !ownName ==> default.name == cfg.nameDefault)
  {}

  /** Python's `str` of an optional name. */
  function Shown(name: Option<string>): string {
    match name
    case Some(s) => s
    case None => "None"
  }

  /** The dictionary key under which hosts of one issuer are collected. */
  function KeyOf(i: Issuer): string {
    i.kind + ":" + Shown(i.name)
  }

  /** Keys of colon-free kinds fall together only for the same kind and the same shown name. */
  lemma KeysAreFaithful(a: Issuer, b: Issuer)
    requires ':' !in a.kind && ':' !in b.kind
    ensures KeyOf(a) == KeyOf(b) <==> a.kind == b.kind && Shown(a.name) == Shown(b.name)
    ensures Shown(a.name) == Shown(b.name) <==>
              a.name == b.name || (a.name in {None, Some("None")} && b.name in {None, Some("None")})
  {
    var k, l := KeyOf(a), KeyOf(b);
    if k == l {
      assert k[|a.kind|] == ':' && l[|b.kind|] == ':';
      assert |a.kind| == |b.kind|;
      assert k[..|a.kind|] == a.kind && l[..|b.kind|] == b.kind;
      assert k[|a.kind|+1..] == Shown(a.name) && l[|b.kind|+1..] == Shown(b.name);
    }
  }

  // ---- Grouping ----

  /** The name of a group follows from its serial: the application's own name for 0. */
  datatype Group = Group(serial: nat, items: seq<Item>, annotations: map<string, string>, explicitHost: bool, issuer: Issuer)
  {
    function Name(app: string): string {
      if serial == 0 then app else app + "-" + Decimal(serial)
    }
  }

  /** How hosts are issued to, and whether some ingress names its host. */
  datatype Rules = Rules(of: string -> Issuer, default: Issuer, explicitHost: bool)

  predicate HasExplicitHost(ingresses: seq<SpecItem>) {
    exists i :: 0 <= i < |ingresses| && ingresses[i].host.Some? && ingresses[i].annotations == map[]
  }

  function RulesFor(cfg: Config, app: AppSpec): Rules {
    Rules((host: string) => IssuerOf(cfg, app, host), DefaultIssuer(cfg, app), HasExplicitHost(app.ingresses))
  }

  datatype Class = Plain | Annotated | Keyed(key: string)

  function ClassOf(r: Rules, x: Item): Class {
    if x.annotations != map[] then Annotated
    else if r.of(x.host) != r.default then Keyed(KeyOf(r.of(x.host)))
    else Plain
  }

  /** The dictionary's values, in insertion order. */
  function DictGroups(keyed: seq<(string, Group)>): seq<Group> {
    seq(|keyed|, i requires 0 <= i < |keyed| => keyed[i].1)
  }

  /** The default group, the groups of one annotated item each, and the dictionary of the rest in insertion order. */
  datatype Grouping = Grouping(default: Group, annotated: seq<Group>, keyed: seq<(string, Group)>)
  {
    function Groups(): seq<Group> {
      [default] + annotated + DictGroups(keyed)
    }
  }

  function Start(r: Rules): Grouping {
    Grouping(Group(0, [], map[], r.explicitHost, r.default), [], [])
  }

  function Find(keyed: seq<(string, Group)>, key: string): (i: nat)
    ensures i <= |keyed| && (forall j :: 0 <= j < i ==> keyed[j].0 != key) && (i < |keyed| ==> keyed[i].0 == key)
  {
    if keyed == [] || keyed[0].0 == key then 0 else 1 + Find(keyed[1..], key)
  }

  function Place(r: Rules, g: Grouping, x: Item): Grouping {
    var serial := 1 + |g.annotated| + |g.keyed|;
    match ClassOf(r, x)
    case Annotated => g.(annotated := g.annotated + [Group(serial, [x], x.annotations, true, r.of(x.host))])
    case Plain => g.(default := g.default.(items := g.default.items + [x]))
    case Keyed(_) => g.(keyed := PlaceKeyed(r, g.keyed, r.of(x.host), serial, x))
  }

  /** What `Place` makes of the dictionary. */
  function PlaceKeyed(r: Rules, keyed: seq<(string, Group)>, issuer: Issuer, serial: nat, x: Item): seq<(string, Group)> {
    var key := KeyOf(issuer);
    var i := Find(keyed, key);
    if i < |keyed| then keyed[i := (key, keyed[i].1.(items := keyed[i].1.items + [x]))]
    else keyed + [(key, Group(serial, [x], map[], r.explicitHost, issuer))]
  }

  function Grouped(r: Rules, items: seq<Item>): Grouping
    decreases |items|
  {
    if items == [] then Start(r) else Place(r, Grouped(r, items[..|items|-1]), items[|items|-1])
  }

  /** `setdefault`, and an append to what it returns. */
  method AddOverride(r: Rules, overrides: seq<(string, Group)>, issuer: Issuer, serial: nat, x: Item)
    returns (after: seq<(string, Group)>)
    ensures after == PlaceKeyed(r, overrides, issuer, serial, x)
  {
    after := overrides;
    var key := KeyOf(issuer);
    var i := Find(overrides, key);
    if i == |overrides| {
      after := after + [(key, Group(serial, [], map[], r.explicitHost, issuer))];
    }
    var g := after[i].1;
    after := after[i := (key, g.(items := g.items + [x]))];
    if i == |overrides| {
      assert g.items + [x] == [x];
      assert after == overrides + [(key, Group(serial, [x], map[], r.explicitHost, issuer))];
    }
  }

  lemma GroupedStep(r: Rules, items: seq<Item>, n: nat)
    requires n < |items|
    ensures Grouped(r, items[..n+1]) == Place(r, Grouped(r, items[..n]), items[n])
  {
    assert items[..n+1][..n] == items[..n];
  }

  method GroupItems(r: Rules, items: seq<Item>) returns (groups: seq<Group>)
    ensures groups == Grouped(r, items).Groups()
  {
    var ingresses := [Group(0, [], map[], r.explicitHost, r.default)];
    var overrides: seq<(string, Group)> := [];
    for n := 0 to |items|
      invariant ingresses != []
      invariant Grouping(ingresses[0], ingresses[1..], overrides) == Grouped(r, items[..n])
    {
      var x := items[n];
      var issuer := r.of(x.host);
      var serial := |ingresses| + |overrides|;
      GroupedStep(r, items, n);
      ghost var before := ingresses;
      if x.annotations != map[] {
        ingresses := ingresses + [Group(serial, [x], x.annotations, true, issuer)];
        assert ingresses[1..] == before[1..] + [Group(serial, [x], x.annotations, true, issuer)];
      } else if issuer != r.default {
        overrides := AddOverride(r, overrides, issuer, serial, x);
      } else {
        var g := ingresses[0];
        ingresses := ingresses[0 := g.(items := g.items + [x])];
        assert ingresses[1..] == before[1..];
      }
    }
    assert items[..|items|] == items;
    groups := ingresses + DictGroups(overrides);
    assert [ingresses[0]] + ingresses[1..] == ingresses;
  }

  // ---- What the groups are ----

  /** The items of one class, in order. */
  function Of(r: Rules, items: seq<Item>, c: Class): seq<Item>
    decreases |items|
  {
    if items == [] then []
    else Of(r, items[..|items|-1], c) + if ClassOf(r, items[|items|-1]) == c then [items[|items|-1]] else []
  }

  /** The keys of the items that are neither annotated nor served by the default issuer. */
  function KeysOf(r: Rules, items: seq<Item>): seq<string>
    decreases |items|
  {
    if items == [] then []
    else
      KeysOf(r, items[..|items|-1]) +
      match ClassOf(r, items[|items|-1]) case Keyed(k) => [k] case _ => []
  }

  /** Item i of a class sits alone in group i. */
  predicate Singles(r: Rules, groups: seq<Group>, items: seq<Item>) {
    && |groups| == |items|
    && forall i :: 0 <= i < |groups| ==>
         && groups[i].items == [items[i]] && groups[i].annotations == items[i].annotations
         && groups[i].explicitHost && groups[i].issuer == r.of(items[i].host)
  }

  /** An entry of the dictionary holds the items of its key and the issuer of the first of them. */
  predicate EntryFor(r: Rules, items: seq<Item>, key: string, e: (string, Group)) {
    && e.0 == key && e.1.items == Of(r, items, Keyed(key)) && e.1.items != []
    && e.1.annotations == map[] && e.1.explicitHost == r.explicitHost
    && e.1.issuer == r.of(e.1.items[0].host)
  }

  /** One entry for each key, in order of first occurrence. */
  predicate Collected(r: Rules, keyed: seq<(string, Group)>, items: seq<Item>) {
    var keys := Firsts(KeysOf(r, items));
    |keyed| == |keys| && forall i :: 0 <= i < |keyed| ==> EntryFor(r, items, keys[i], keyed[i])
  }

  /**
   The groups are the classes of the items, each in order: the default group, one group for each
   annotated item, and one for each other issuer key in order of its first occurrence.
   */
  lemma GroupsAreClasses(r: Rules, items: seq<Item>)
    ensures var g := Grouped(r, items);
      && g.default == Group(0, Of(r, items, Plain), map[], r.explicitHost, r.default)
      && Singles(r, g.annotated, Of(r, items, Annotated))
      && Collected(r, g.keyed, items)
  {
    DefaultIsClass(r, items);
    AnnotatedAreSingles(r, items);
    KeyedAreCollected(r, items);
  }

  lemma {:induction false} DefaultIsClass(r: Rules, items: seq<Item>)
    ensures Grouped(r, items).default == Group(0, Of(r, items, Plain), map[], r.explicitHost, r.default)
    decreases |items|
  {
    if items == [] {
    } else {
      DefaultIsClass(r, items[..|items|-1]);
    }
  }

  lemma {:induction false} AnnotatedAreSingles(r: Rules, items: seq<Item>)
    ensures Singles(r, Grouped(r, items).annotated, Of(r, items, Annotated))
    decreases |items|
  {
    if items == [] {
    } else {
      AnnotatedAreSingles(r, items[..|items|-1]);
    }
  }

  lemma {:induction false} KeyedAreCollected(r: Rules, items: seq<Item>)
    ensures Collected(r, Grouped(r, items).keyed, items)
    decreases |items|
  {
    if items == [] {
    } else {
      var front, x := items[..|items|-1], items[|items|-1];
      KeyedAreCollected(r, front);
      if ClassOf(r, x).Keyed? {
        var g := Grouped(r, front);
        PlaceKeyedCollects(r, g.keyed, 1 + |g.annotated| + |g.keyed|, front, items);
      } else {
        OtherClassCollects(r, Grouped(r, front).keyed, front, items);
      }
    }
  }

  lemma OtherClassCollects(r: Rules, keyed: seq<(string, Group)>, front: seq<Item>, items: seq<Item>)
    requires items != [] && front == items[..|items|-1] && !ClassOf(r, items[|items|-1]).Keyed?
    requires Collected(r, keyed, front)
    ensures Collected(r, keyed, items)
  {
    var keys := Firsts(KeysOf(r, front));
    assert KeysOf(r, items) == KeysOf(r, front);
    forall i | 0 <= i < |keyed| ensures EntryFor(r, items, keys[i], keyed[i]) {
      assert EntryFor(r, front, keys[i], keyed[i]);
    }
  }

  lemma PlaceKeyedCollects(r: Rules, keyed: seq<(string, Group)>, serial: nat, front: seq<Item>, items: seq<Item>)
    requires items != [] && front == items[..|items|-1] && ClassOf(r, items[|items|-1]).Keyed?
    requires Collected(r, keyed, front)
    ensures Collected(r, PlaceKeyed(r, keyed, r.of(items[|items|-1].host), serial, items[|items|-1]), items)
  {
    var x := items[|items|-1];
    var key := KeyOf(r.of(x.host));
    var i := Find(keyed, key);
    KeysGrow(r, front, items, key);
    if i == |keyed| {
      NewKey(r, keyed, front, key);
      var e := (key, Group(serial, [x], map[], r.explicitHost, r.of(x.host)));
      NewEntry(r, front, items, e);
      NewKeyCollects(r, keyed, e, front, items);
    } else {
      assert EntryFor(r, front, Firsts(KeysOf(r, front))[i], keyed[i]);
      var e := (key, keyed[i].1.(items := keyed[i].1.items + [x]));
      KnownEntry(r, front, items, keyed[i], e);
      KnownKeyCollects(r, keyed, i, e, front, items);
    }
  }

  lemma KeysGrow(r: Rules, front: seq<Item>, items: seq<Item>, key: string)
    requires OneMore(r, front, items, key)
    ensures Firsts(KeysOf(r, items)) == Firsts(KeysOf(r, front)) + if key in Firsts(KeysOf(r, front)) then [] else [key]
  {
    var keys := KeysOf(r, front);
    assert KeysOf(r, items) == keys + [key] && (keys + [key])[..|keys|] == keys;
    FirstsHaveTheSameElements(keys, key);
  }

  lemma NewKey(r: Rules, keyed: seq<(string, Group)>, front: seq<Item>, key: string)
    requires Collected(r, keyed, front) && forall j :: 0 <= j < |keyed| ==> keyed[j].0 != key
    ensures key !in Firsts(KeysOf(r, front)) && key !in KeysOf(r, front)
  {
    var keys := Firsts(KeysOf(r, front));
    forall j | 0 <= j < |keyed| ensures keys[j] != key {
      assert EntryFor(r, front, keys[j], keyed[j]);
    }
    FirstsHaveTheSameElements(KeysOf(r, front), key);
  }

  /** The items have one more than those in front, of this class. */
  predicate OneMore(r: Rules, front: seq<Item>, items: seq<Item>, key: string) {
    items != [] && front == items[..|items|-1] && ClassOf(r, items[|items|-1]) == Keyed(key)
  }

  lemma NewEntry(r: Rules, front: seq<Item>, items: seq<Item>, e: (string, Group))
    requires OneMore(r, front, items, e.0) && e.0 !in KeysOf(r, front)
    requires e.1.items == [items[|items|-1]] && e.1.annotations == map[] && e.1.explicitHost == r.explicitHost
    requires e.1.issuer == r.of(items[|items|-1].host)
    ensures EntryFor(r, items, e.0, e)
  {
    NoneOfKey(r, front, e.0);
  }

  lemma KnownEntry(r: Rules, front: seq<Item>, items: seq<Item>, e: (string, Group), e': (string, Group))
    requires OneMore(r, front, items, e.0) && EntryFor(r, front, e.0, e)
    requires e' == (e.0, e.1.(items := e.1.items + [items[|items|-1]]))
    ensures EntryFor(r, items, e.0, e')
  {}

  lemma OtherEntryStays(r: Rules, front: seq<Item>, items: seq<Item>, key: string, e: (string, Group))
    requires items != [] && front == items[..|items|-1] && ClassOf(r, items[|items|-1]) != Keyed(key)
    requires EntryFor(r, front, key, e)
    ensures EntryFor(r, items, key, e)
  {}

  lemma NewKeyCollects(r: Rules, keyed: seq<(string, Group)>, e: (string, Group), front: seq<Item>, items: seq<Item>)
    requires OneMore(r, front, items, e.0) && Collected(r, keyed, front) && EntryFor(r, items, e.0, e)
    requires Firsts(KeysOf(r, items)) == Firsts(KeysOf(r, front)) + [e.0] && e.0 !in Firsts(KeysOf(r, front))
    ensures Collected(r, keyed + [e], items)
  {
    var keys := Firsts(KeysOf(r, front));
    forall j | 0 <= j < |keyed| ensures EntryFor(r, items, keys[j], keyed[j]) {
      assert EntryFor(r, front, keys[j], keyed[j]) && keys[j] != e.0;
      OtherEntryStays(r, front, items, keys[j], keyed[j]);
    }
  }

  lemma KnownKeyCollects(r: Rules, keyed: seq<(string, Group)>, i: nat, e: (string, Group), front: seq<Item>, items: seq<Item>)
    requires OneMore(r, front, items, e.0) && Collected(r, keyed, front) && EntryFor(r, items, e.0, e)
    requires i < |keyed| && Firsts(KeysOf(r, front))[i] == e.0
    requires Firsts(KeysOf(r, items)) == Firsts(KeysOf(r, front))
    ensures Collected(r, keyed[i := e], items)
  {
    var keys := Firsts(KeysOf(r, front));
    FirstsAreExact(KeysOf(r, front));
    forall j | 0 <= j < |keyed| && j != i ensures EntryFor(r, items, keys[j], keyed[j]) {
      assert keys[j] != keys[i];
      assert EntryFor(r, front, keys[j], keyed[j]);
      OtherEntryStays(r, front, items, keys[j], keyed[j]);
    }
  }

  lemma {:induction false} NoneOfKey(r: Rules, items: seq<Item>, key: string)
    requires key !in KeysOf(r, items)
    ensures Of(r, items, Keyed(key)) == []
    decreases |items|
  {
    if items == [] {
    } else {
      NoneOfKey(r, items[..|items|-1], key);
      assert ClassOf(r, items[|items|-1]) != Keyed(key);
    }
  }

  // ---- A faithful partition ----

  /** How often an item occurs in the groups. */
  function Copies(groups: seq<Group>, x: Item): nat {
    if groups == [] then 0 else multiset(groups[0].items)[x] + Copies(groups[1..], x)
  }

  lemma {:induction false} CopiesOfConcat(a: seq<Group>, b: seq<Group>, x: Item)
    ensures Copies(a + b, x) == Copies(a, x) + Copies(b, x)
    decreases |a|
  {
    if a == [] {
      assert a + b == b;
    } else {
      CopiesOfConcat(a[1..], b, x);
      assert (a + b)[1..] == a[1..] + b;
    }
  }

  lemma CopiesOfOne(g: Group, x: Item)
    ensures Copies([g], x) == multiset(g.items)[x]
  {}

  lemma CopiesOfUpdate(groups: seq<Group>, i: nat, g: Group, x: Item)
    requires i < |groups|
    ensures Copies(groups[i := g], x) + multiset(groups[i].items)[x] == Copies(groups, x) + multiset(g.items)[x]
  {
    var before, after := groups[..i], groups[i+1..];
    assert groups == before + [groups[i]] + after && groups[i := g] == before + [g] + after;
    CopiesOfConcat(before + [groups[i]], after, x);
    CopiesOfConcat(before, [groups[i]], x);
    CopiesOfConcat(before + [g], after, x);
    CopiesOfConcat(before, [g], x);
    CopiesOfOne(groups[i], x);
    CopiesOfOne(g, x);
  }

  lemma CopiesInGroups(g: Grouping, x: Item)
    ensures Copies(g.Groups(), x) == multiset(g.default.items)[x] + Copies(g.annotated, x) + Copies(DictGroups(g.keyed), x)
  {
    CopiesOfConcat([g.default] + g.annotated, DictGroups(g.keyed), x);
    CopiesOfConcat([g.default], g.annotated, x);
    CopiesOfOne(g.default, x);
  }

  /** Every item lands in exactly one group, as often as it was there. */
  lemma {:induction false} EveryItemInOneGroup(r: Rules, items: seq<Item>, x: Item)
    ensures Copies(Grouped(r, items).Groups(), x) == multiset(items)[x]
    decreases |items|
  {
    if items == [] {
      assert Start(r).Groups() == [Start(r).default];
      CopiesOfOne(Start(r).default, x);
    } else {
      var front, last := items[..|items|-1], items[|items|-1];
      EveryItemInOneGroup(r, front, x);
      PlaceAddsOne(r, Grouped(r, front), last, x);
      assert items == front + [last];
    }
  }

  lemma PlaceAddsOne(r: Rules, g: Grouping, last: Item, x: Item)
    ensures Copies(Place(r, g, last).Groups(), x) == Copies(g.Groups(), x) + multiset{last}[x]
  {
    CopiesInGroups(g, x);
    CopiesInGroups(Place(r, g, last), x);
    PlaceAddsToOnePart(r, g, last, x);
  }

  lemma PlaceAddsToOnePart(r: Rules, g: Grouping, last: Item, x: Item)
    ensures var g' := Place(r, g, last);
      multiset(g'.default.items)[x] + Copies(g'.annotated, x) + Copies(DictGroups(g'.keyed), x) ==
      multiset(g.default.items)[x] + Copies(g.annotated, x) + Copies(DictGroups(g.keyed), x) + multiset{last}[x]
  {
    var serial := 1 + |g.annotated| + |g.keyed|;
    match ClassOf(r, last) {
      case Annotated =>
        OneMoreGroup(g.annotated, Group(serial, [last], last.annotations, true, r.of(last.host)), last, x);
      case Plain =>
        assert multiset(g.default.items + [last]) == multiset(g.default.items) + multiset{last};
      case Keyed(_) =>
        KeyedAddsOne(r, g.keyed, r.of(last.host), serial, last, x);
    }
  }

  lemma KeyedAddsOne(r: Rules, keyed: seq<(string, Group)>, issuer: Issuer, serial: nat, last: Item, x: Item)
    ensures Copies(DictGroups(PlaceKeyed(r, keyed, issuer, serial, last)), x) == Copies(DictGroups(keyed), x) + multiset{last}[x]
  {
    var i, keyed' := Find(keyed, KeyOf(issuer)), PlaceKeyed(r, keyed, issuer, serial, last);
    if i < |keyed| {
      assert DictGroups(keyed') == DictGroups(keyed)[i := keyed'[i].1];
      OneMoreItem(DictGroups(keyed), i, keyed'[i].1, last, x);
    } else {
      assert DictGroups(keyed') == DictGroups(keyed) + [keyed'[i].1];
      OneMoreGroup(DictGroups(keyed), keyed'[i].1, last, x);
    }
  }

  lemma OneMoreGroup(groups: seq<Group>, g: Group, last: Item, x: Item)
    requires g.items == [last]
    ensures Copies(groups + [g], x) == Copies(groups, x) + multiset{last}[x]
  {
    CopiesOfConcat(groups, [g], x);
    CopiesOfOne(g, x);
  }

  lemma OneMoreItem(groups: seq<Group>, i: nat, g: Group, last: Item, x: Item)
    requires i < |groups| && g.items == groups[i].items + [last]
    ensures Copies(groups[i := g], x) == Copies(groups, x) + multiset{last}[x]
  {
    CopiesOfUpdate(groups, i, g, x);
    assert multiset(groups[i].items + [last]) == multiset(groups[i].items) + multiset{last};
  }

  // ---- Names ----

  /** Each of n groups has a serial below n, and no two have the same. */
  predicate SerialsFit(groups: seq<Group>) {
    && (forall i :: 0 <= i < |groups| ==> groups[i].serial < |groups|)
    && (forall i, j :: 0 <= i < j < |groups| ==> groups[i].serial != groups[j].serial)
  }

  lemma {:induction false} SerialsAreDistinct(r: Rules, items: seq<Item>)
    ensures SerialsFit(Grouped(r, items).Groups())
    decreases |items|
  {
    if items == [] {
    } else {
      var g, x := Grouped(r, items[..|items|-1]), items[|items|-1];
      SerialsAreDistinct(r, items[..|items|-1]);
      var g' := Place(r, g, x);
      if |g'.Groups()| == |g.Groups()| {
        SameSerialsFit(g.Groups(), g'.Groups());
      } else if ClassOf(r, x).Annotated? {
        InsertedSerialFits(g.Groups(), g'.Groups(), 1 + |g.annotated|);
      } else {
        InsertedSerialFits(g.Groups(), g'.Groups(), |g.Groups()|);
      }
    }
  }

  lemma SameSerialsFit(groups: seq<Group>, groups': seq<Group>)
    requires SerialsFit(groups) && |groups'| == |groups|
    requires forall i :: 0 <= i < |groups| ==> groups'[i].serial == groups[i].serial
    ensures SerialsFit(groups')
  {}

  lemma InsertedSerialFits(groups: seq<Group>, groups': seq<Group>, at: nat)
    requires SerialsFit(groups) && at <= |groups| && |groups'| == |groups| + 1
    requires groups'[..at] == groups[..at] && groups'[at+1..] == groups[at..] && groups'[at].serial == |groups|
    ensures SerialsFit(groups')
  {}

  lemma NamesOfSerials(app: string, g: Group, h: Group)
    ensures g.Name(app) == h.Name(app) <==> g.serial == h.serial
  {
    if g.serial != h.serial && g.serial > 0 && h.serial > 0 && g.Name(app) == h.Name(app) {
      assert g.Name(app)[|app|+1..] == Decimal(g.serial) && h.Name(app)[|app|+1..] == Decimal(h.serial);
      DecimalIsInjective(g.serial, h.serial);
    }
  }

  /** No two groups share a name. */
  lemma NamesAreDistinct(r: Rules, items: seq<Item>, app: string, i: nat, j: nat)
    requires i < j < |Grouped(r, items).Groups()|
    ensures Grouped(r, items).Groups()[i].Name(app) != Grouped(r, items).Groups()[j].Name(app)
  {
    SerialsAreDistinct(r, items);
    NamesOfSerials(app, Grouped(r, items).Groups()[i], Grouped(r, items).Groups()[j]);
  }

  // ---- One issuer to a group ----

  /** Every host of the group has the group's issuer. */
  predicate Uniform(r: Rules, g: Group) {
    forall j :: 0 <= j < |g.items| ==> r.of(g.items[j].host) == g.issuer
  }

  predicate IssuersAgree(r: Rules, groups: seq<Group>) {
    forall i :: 0 <= i < |groups| ==> Uniform(r, groups[i])
  }

  /** Items that share a key share an issuer. */
  predicate KeysTellIssuersApart(r: Rules, items: seq<Item>) {
    forall x, y :: x in items && y in items && ClassOf(r, x).Keyed? && ClassOf(r, x) == ClassOf(r, y) ==> r.of(x.host) == r.of(y.host)
  }

  lemma {:induction false} OfClass(r: Rules, items: seq<Item>, c: Class, x: Item)
    ensures x in Of(r, items, c) <==> x in items && ClassOf(r, x) == c
    decreases |items|
  {
    if items == [] {
    } else {
      OfClass(r, items[..|items|-1], c, x);
      assert items == items[..|items|-1] + [items[|items|-1]];
    }
  }

  /** The groups are uniform exactly when no key stands for two issuers. */
  lemma IssuersAgreeIffKeysDo(r: Rules, items: seq<Item>)
    ensures IssuersAgree(r, Grouped(r, items).Groups()) <==> KeysTellIssuersApart(r, items)
  {
    GroupsAreClasses(r, items);
    var g := Grouped(r, items);
    if KeysTellIssuersApart(r, items) {
      TellingKeysAgree(r, items, g);
    }
    if IssuersAgree(r, g.Groups()) {
      forall x, y | x in items && y in items && ClassOf(r, x).Keyed? && ClassOf(r, x) == ClassOf(r, y)
        ensures r.of(x.host) == r.of(y.host)
      {
        SameKeySameGroup(r, items, g, x, y);
      }
    }
  }

  lemma TellingKeysAgree(r: Rules, items: seq<Item>, g: Grouping)
    requires g.default.items == Of(r, items, Plain) && g.default.issuer == r.default
    requires Singles(r, g.annotated, Of(r, items, Annotated)) && Collected(r, g.keyed, items)
    requires KeysTellIssuersApart(r, items)
    ensures IssuersAgree(r, g.Groups())
  {
    forall j | 0 <= j < |g.default.items| ensures r.of(g.default.items[j].host) == r.default {
      OfClass(r, items, Plain, g.default.items[j]);
    }
    forall i | 0 <= i < |g.annotated| ensures Uniform(r, g.annotated[i]) {}
    forall i | 0 <= i < |g.keyed| ensures Uniform(r, g.keyed[i].1) {
      forall j | 0 <= j < |g.keyed[i].1.items| ensures r.of(g.keyed[i].1.items[j].host) == g.keyed[i].1.issuer {
        GroupOfKeyAgrees(r, items, g, i, j);
      }
    }
    UniformParts(r, g);
  }

  lemma UniformParts(r: Rules, g: Grouping)
    requires Uniform(r, g.default)
    requires forall i :: 0 <= i < |g.annotated| ==> Uniform(r, g.annotated[i])
    requires forall i :: 0 <= i < |g.keyed| ==> Uniform(r, g.keyed[i].1)
    ensures IssuersAgree(r, g.Groups())
  {}

  lemma GroupOfKeyAgrees(r: Rules, items: seq<Item>, g: Grouping, i: nat, j: nat)
    requires Collected(r, g.keyed, items) && KeysTellIssuersApart(r, items)
    requires i < |g.keyed| && j < |g.keyed[i].1.items|
    ensures r.of(g.keyed[i].1.items[j].host) == g.keyed[i].1.issuer
  {
    var e := g.keyed[i];
    assert EntryFor(r, items, Firsts(KeysOf(r, items))[i], e);
    OfClass(r, items, Keyed(e.0), e.1.items[0]);
    OfClass(r, items, Keyed(e.0), e.1.items[j]);
  }

  lemma SameKeySameGroup(r: Rules, items: seq<Item>, g: Grouping, x: Item, y: Item)
    requires Collected(r, g.keyed, items) && IssuersAgree(r, g.Groups())
    requires x in items && y in items && ClassOf(r, x).Keyed? && ClassOf(r, x) == ClassOf(r, y)
    ensures r.of(x.host) == r.of(y.host)
  {
    var key := ClassOf(r, x).key;
    OfClass(r, items, Keyed(key), x);
    OfClass(r, items, Keyed(key), y);
    var i := EntryOfKey(r, items, g.keyed, key);
    var at := 1 + |g.annotated| + i;
    assert g.Groups()[at] == g.keyed[i].1;
    UniformPair(r, g.Groups()[at], x, y);
  }

  lemma EntryOfKey(r: Rules, items: seq<Item>, keyed: seq<(string, Group)>, key: string) returns (i: nat)
    requires Collected(r, keyed, items) && Of(r, items, Keyed(key)) != []
    ensures i < |keyed| && keyed[i].1.items == Of(r, items, Keyed(key))
  {
    if key !in KeysOf(r, items) {
      NoneOfKey(r, items, key);
      assert false;
    }
    FirstsHaveTheSameElements(KeysOf(r, items), key);
    i :| 0 <= i < |keyed| && Firsts(KeysOf(r, items))[i] == key;
    assert EntryFor(r, items, key, keyed[i]);
  }

  lemma UniformPair(r: Rules, g: Group, x: Item, y: Item)
    requires Uniform(r, g) && x in g.items && y in g.items
    ensures r.of(x.host) == r.of(y.host)
  {}

  /** An issuer whose kind has no colon and whose name cannot be taken for a missing one. */
  predicate Telling(i: Issuer) {
    ':' !in i.kind && i.name != Some("None")
  }

  lemma TellingIssuersAgree(r: Rules, items: seq<Item>)
    requires forall x :: x in items ==> Telling(r.of(x.host))
    ensures IssuersAgree(r, Grouped(r, items).Groups())
  {
    forall x, y | x in items && y in items && ClassOf(r, x).Keyed? && ClassOf(r, x) == ClassOf(r, y)
      ensures r.of(x.host) == r.of(y.host)
    {
      KeysAreFaithful(r.of(x.host), r.of(y.host));
    }
    IssuersAgreeIffKeysDo(r, items);
  }

  lemma SharedKeyMixesIssuers(r: Rules, x: Item, y: Item)
    requires ClassOf(r, x).Keyed? && ClassOf(r, x) == ClassOf(r, y) && r.of(x.host) != r.of(y.host)
    ensures !IssuersAgree(r, Grouped(r, [x, y]).Groups())
  {
    assert x in [x, y] && y in [x, y];
    IssuersAgreeIffKeysDo(r, [x, y]);
  }

  /** An override for the very host wins. */
  lemma OwnOverrideWins(host: string, dict: map<string, string>, overrides: seq<Override>)
    requires host != "" && Lists(overrides, dict) && host in dict
    ensures OverrideFor(host, overrides) == Some(dict[host])
  {
    LongestSuffixWins(host, dict, overrides);
    assert LongestMatch(host, dict, host);
  }

  /** Otherwise two hosts of different issuers can end up in one group: because of a colon in a kind, */
  lemma ColonsMixIssuers(app: AppSpec)
    requires app.certificateIssuer == None
    ensures
      var r := RulesFor(Config([], [("b", "k:m")], [("a", "m:n"), ("b", "n")], "k", None), app);
      && r.of("a") == Issuer("k", Some("m:n")) && r.of("b") == Issuer("k:m", Some("n"))
      && !IssuersAgree(r, Grouped(r, [Item("a", [], map[]), Item("b", [], map[])]).Groups())
  {
    var kinds, names: seq<Override> := [("b", "k:m")], [("a", "m:n"), ("b", "n")];
    var r := RulesFor(Config([], kinds, names, "k", None), app);
    var nameDict := map["a" := "m:n", "b" := "n"];
    assert names[0] == ("a", "m:n") && names[1] == ("b", "n") && Lists(names, nameDict);
    OwnOverrideWins("a", nameDict, names);
    OwnOverrideWins("b", nameDict, names);
    assert kinds[0] == ("b", "k:m") && Lists(kinds, map["b" := "k:m"]);
    OwnOverrideWins("b", map["b" := "k:m"], kinds);
    LongestSuffixWins("a", map["b" := "k:m"], kinds);
    assert !Matches("a", "b");
    assert KeyOf(r.of("a")) == "k:m:n" && KeyOf(r.of("b")) == "k:m:n";
    SharedKeyMixesIssuers(r, Item("a", [], map[]), Item("b", [], map[]));
  }

  /** or because of an issuer called `None`. */
  lemma NoneMixesIssuers(app: AppSpec)
    requires app.certificateIssuer == None
    ensures
      var r := RulesFor(Config([], [("a", "m"), ("b", "m")], [("a", "None")], "k", None), app);
      && r.of("a") == Issuer("m", Some("None")) && r.of("b") == Issuer("m", None)
      && !IssuersAgree(r, Grouped(r, [Item("a", [], map[]), Item("b", [], map[])]).Groups())
  {
    var kinds, names: seq<Override> := [("a", "m"), ("b", "m")], [("a", "None")];
    var r := RulesFor(Config([], kinds, names, "k", None), app);
    var kindDict := map["a" := "m", "b" := "m"];
    assert kinds[0] == ("a", "m") && kinds[1] == ("b", "m") && Lists(kinds, kindDict);
    OwnOverrideWins("a", kindDict, kinds);
    OwnOverrideWins("b", kindDict, kinds);
    assert names[0] == ("a", "None") && Lists(names, map["a" := "None"]);
    OwnOverrideWins("a", map["a" := "None"], names);
    LongestSuffixWins("b", map["a" := "None"], names);
    assert !Matches("b", "a");
    assert KeyOf(r.of("a")) == "m:None" && KeyOf(r.of("b")) == "m:None";
    SharedKeyMixesIssuers(r, Item("a", [], map[]), Item("b", [], map[]));
  }
}
