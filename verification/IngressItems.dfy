/** From the ingresses an application asks for to the list of hosts that are to be served. */
module IngressItems {
  import opened Values
  import opened HostPairs

  datatype PathMapping = PathMapping(path: string, port: int)

  /** As configured: the host is optional. */
  datatype SpecItem = SpecItem(host: Option<string>, paths: seq<PathMapping>, annotations: map<string, string>)

  /** As deployed. */
  datatype Item = Item(host: string, paths: seq<PathMapping>, annotations: map<string, string>)

  datatype Port = Port(name: string, protocol: string, port: int)

  datatype AppSpec = AppSpec(name: string, ingresses: seq<SpecItem>, ports: seq<Port>, certificateIssuer: Option<string>)

  // ---- Removing duplicates ----

  /** The elements of a sequence in the order of their first occurrence. */
  function Firsts<T(==)>(xs: seq<T>): seq<T> {
    if xs == [] then []
    else
      var front, last := xs[..|xs|-1], xs[|xs|-1];
      Firsts(front) + if last in front then [] else [last]
  }

  method DeduplicateInOrder<T(==)>(xs: seq<T>) returns (r: seq<T>)
    ensures r == Firsts(xs)
  {
    var seen: set<T> := {};
    r := [];
    for i := 0 to |xs|
      invariant r == Firsts(xs[..i]) && seen == set x | x in xs[..i]
    {
      assert xs[..i+1][..i] == xs[..i];
      if xs[i] !in seen {
        r := r + [xs[i]];
        seen := seen + {xs[i]};
      }
    }
    assert xs[..|xs|] == xs;
  }

  /** Position p holds the first occurrence of its element. */
  predicate IsFirst<T(==)>(xs: seq<T>, p: nat) {
    p < |xs| && xs[p] !in xs[..p]
  }

  lemma {:induction false} FirstsHaveTheSameElements<T>(xs: seq<T>, x: T)
    ensures x in Firsts(xs) <==> x in xs
    decreases |xs|
  {
    if xs == [] {
    } else {
      FirstsHaveTheSameElements(xs[..|xs|-1], x);
      assert xs == xs[..|xs|-1] + [xs[|xs|-1]];
    }
  }

  /** The first occurrence of x comes before that of y. */
  ghost predicate ComesFirst<T>(xs: seq<T>, x: T, y: T) {
    exists p: nat, q: nat :: p < q && IsFirst(xs, p) && IsFirst(xs, q) && xs[p] == x && xs[q] == y
  }

  /** No element is repeated, and the order is that of the first occurrences. */
  ghost predicate InOrderOf<T>(r: seq<T>, xs: seq<T>) {
    forall i, j :: 0 <= i < j < |r| ==> r[i] != r[j] && ComesFirst(xs, r[i], r[j])
  }

  /** Nothing is lost, nothing is kept twice, and the order is that of the first occurrences. */
  lemma FirstsAreExact<T>(xs: seq<T>)
    ensures forall x :: x in Firsts(xs) <==> x in xs
    ensures InOrderOf(Firsts(xs), xs)
  {
    forall x ensures x in Firsts(xs) <==> x in xs { FirstsHaveTheSameElements(xs, x); }
    FirstsAreInOrder(xs);
  }

  lemma {:induction false} FirstsAreInOrder<T>(xs: seq<T>)
    ensures InOrderOf(Firsts(xs), xs)
    decreases |xs|
  {
    if xs == [] {
    } else {
      var front, last := xs[..|xs|-1], xs[|xs|-1];
      FirstsAreInOrder(front);
      forall x | x in Firsts(front) ensures x in front { FirstsHaveTheSameElements(front, x); }
      OneMoreInOrder(Firsts(front), front, last);
      assert front + [last] == xs;
    }
  }

  lemma OneMoreInOrder<T>(r: seq<T>, front: seq<T>, last: T)
    requires InOrderOf(r, front) && forall x :: x in r ==> x in front
    ensures InOrderOf(r + if last in front then [] else [last], front + [last])
  {
    var r' := r + if last in front then [] else [last];
    forall i, j | 0 <= i < j < |r'| ensures r'[i] != r'[j] && ComesFirst(front + [last], r'[i], r'[j]) {
      assert r'[i] == r[i] && r[i] in front;
      if j < |r| {
        assert ComesFirst(front, r[i], r[j]);
        StillComesFirst(front, last, r[i], r[j]);
      } else {
        NewComesLast(front, last, r[i]);
      }
    }
  }

  lemma StillComesFirst<T>(front: seq<T>, last: T, x: T, y: T)
    requires ComesFirst(front, x, y)
    ensures ComesFirst(front + [last], x, y)
  {
    var xs := front + [last];
    var p: nat, q: nat :| p < q && IsFirst(front, p) && IsFirst(front, q) && front[p] == x && front[q] == y;
    assert xs[..p] == front[..p] && xs[..q] == front[..q];
    assert IsFirst(xs, p) && IsFirst(xs, q);
  }

  lemma NewComesLast<T>(front: seq<T>, last: T, x: T)
    requires x in front && last !in front
    ensures ComesFirst(front + [last], x, last)
  {
    var xs := front + [last];
    var p := FirstOccurrence(front, x);
    assert xs[..p] == front[..p] && xs[..|front|] == front;
    assert IsFirst(xs, p) && IsFirst(xs, |front|);
  }

  lemma {:induction false} FirstOccurrence<T>(xs: seq<T>, x: T) returns (p: nat)
    requires x in xs
    ensures IsFirst(xs, p) && xs[p] == x
    decreases |xs|
  {
    var front := xs[..|xs|-1];
    if x in front {
      p := FirstOccurrence(front, x);
      assert xs[..p] == front[..p];
    } else {
      p := |xs| - 1;
    }
  }

  // ---- Default hosts ----

  function AllPaths(ingresses: seq<SpecItem>): seq<PathMapping> {
    if ingresses == [] then []
    else (if ingresses[0].annotations == map[] then ingresses[0].paths else []) + AllPaths(ingresses[1..])
  }

  function HttpPort(ports: seq<Port>): Option<int> {
    if ports == [] then None
    else if ports[0].name == "http" then Some(ports[0].port)
    else HttpPort(ports[1..])
  }

  /** One item per suffix, serving every path that is not annotated; None where no http port can be found. */
  function DefaultItems(app: AppSpec, suffixes: seq<string>, defaultPath: string): Option<seq<Item>> {
    var paths := Firsts(AllPaths(app.ingresses));
    var hosts := seq(|suffixes|, i requires 0 <= i < |suffixes| => app.name + "." + suffixes[i]);
    if paths != [] then Some(seq(|hosts|, i requires 0 <= i < |hosts| => Item(hosts[i], paths, map[])))
    else
      match HttpPort(app.ports)
      case None => None
      case Some(port) =>
        Some(seq(|hosts|, i requires 0 <= i < |hosts| => Item(hosts[i], [PathMapping(defaultPath, port)], map[])))
  }

  /** The configured items that have a host, with the host rewritten. */
  function ExplicitItems(ingresses: seq<SpecItem>, rewrite: string -> string): seq<Item> {
    if ingresses == [] then [] else ExplicitItem(ingresses[0], rewrite) + ExplicitItems(ingresses[1..], rewrite)
  }

  function ExplicitItem(x: SpecItem, rewrite: string -> string): seq<Item> {
    if x.host.Some? && x.host.value != "" then [Item(rewrite(x.host.value), x.paths, x.annotations)] else []
  }

  /** Some ingress without annotations asks for the path. */
  predicate AsksFor(ingresses: seq<SpecItem>, p: PathMapping) {
    exists i :: 0 <= i < |ingresses| && ingresses[i].annotations == map[] && p in ingresses[i].paths
  }

  lemma {:induction false} AllPathsAreAskedFor(ingresses: seq<SpecItem>, p: PathMapping)
    ensures p in AllPaths(ingresses) <==> AsksFor(ingresses, p)
    decreases |ingresses|
  {
    if ingresses == [] {
    } else {
      AllPathsAreAskedFor(ingresses[1..], p);
      if AsksFor(ingresses[1..], p) {
        var i :| 0 <= i < |ingresses[1..]| && ingresses[1..][i].annotations == map[] && p in ingresses[1..][i].paths;
        assert ingresses[i+1] == ingresses[1..][i];
      }
      if AsksFor(ingresses, p) {
        var i :| 0 <= i < |ingresses| && ingresses[i].annotations == map[] && p in ingresses[i].paths;
        assert i > 0 ==> ingresses[1..][i-1] == ingresses[i];
      }
    }
  }

  lemma {:induction false} HttpPortIsFirst(ports: seq<Port>)
    ensures match HttpPort(ports)
      case None => forall i :: 0 <= i < |ports| ==> ports[i].name != "http"
      case Some(port) => exists i :: 0 <= i < |ports| && ports[i].name == "http" && ports[i].port == port &&
                           forall k :: 0 <= k < i ==> ports[k].name != "http"
    decreases |ports|
  {
    if ports == [] {
    } else {
      HttpPortIsFirst(ports[1..]);
      assert forall i :: 0 < i < |ports| ==> ports[i] == ports[1..][i-1];
      if ports[0].name != "http" && HttpPort(ports[1..]).Some? {
        var i :| 0 <= i < |ports[1..]| && ports[1..][i].name == "http" && ports[1..][i].port == HttpPort(ports[1..]).value &&
          forall k :: 0 <= k < i ==> ports[1..][k].name != "http";
        assert ports[i+1] == ports[1..][i];
      }
    }
  }

  /** Exactly the paths that ingresses without annotations ask for, each once. */
  ghost predicate ExactlyAsked(paths: seq<PathMapping>, ingresses: seq<SpecItem>) {
    && (forall p :: p in paths <==> AsksFor(ingresses, p))
    && (forall i, j :: 0 <= i < j < |paths| ==> paths[i] != paths[j])
  }

  lemma FirstsAreAsked(ingresses: seq<SpecItem>)
    ensures ExactlyAsked(Firsts(AllPaths(ingresses)), ingresses)
    ensures Firsts(AllPaths(ingresses)) != [] <==> exists p :: AsksFor(ingresses, p)
  {
    var all := AllPaths(ingresses);
    FirstsAreExact(all);
    forall p ensures p in Firsts(all) <==> AsksFor(ingresses, p) {
      FirstsHaveTheSameElements(all, p);
      AllPathsAreAskedFor(ingresses, p);
    }
    if Firsts(all) != [] {
      assert Firsts(all)[0] in Firsts(all);
    }
  }

  /**
   Each suffix gets one host, in order: the application's name and the suffix with a dot between them. It
   serves exactly what ingresses without annotations ask for, and if they ask for nothing the default
   path on the first port called http, without which there is nothing to serve.
   */
  lemma DefaultItemsAreExact(app: AppSpec, suffixes: seq<string>, defaultPath: string)
    ensures var items := DefaultItems(app, suffixes, defaultPath);
      && (items.None? <==> HttpPort(app.ports).None? && !exists p :: AsksFor(app.ingresses, p))
      && (items.Some? ==> |items.value| == |suffixes|)
    ensures var items := DefaultItems(app, suffixes, defaultPath);
      items.Some? ==> forall i :: 0 <= i < |suffixes| ==>
        && items.value[i].host == app.name + "." + suffixes[i] && items.value[i].annotations == map[]
        && if exists p :: AsksFor(app.ingresses, p) then ExactlyAsked(items.value[i].paths, app.ingresses)
           else HttpPort(app.ports).Some? && items.value[i].paths == [PathMapping(defaultPath, HttpPort(app.ports).value)]
  {
    FirstsAreAsked(app.ingresses);
  }

  /** The items of one configured ingress: its host rewritten, its paths and annotations kept, if it has a host. */
  lemma ExplicitItemIsExact(x: SpecItem, rewrite: string -> string)
    ensures ExplicitItems([x], rewrite) ==
            match x.host
            case Some(h) => if h != "" then [Item(rewrite(h), x.paths, x.annotations)] else []
            case None => []
  {
    assert ExplicitItems([x][1..], rewrite) == [];
  }

  /** The items of all of them, one ingress after the other. */
  lemma {:induction false} ExplicitItemsInOrder(a: seq<SpecItem>, b: seq<SpecItem>, rewrite: string -> string)
    ensures ExplicitItems(a + b, rewrite) == ExplicitItems(a, rewrite) + ExplicitItems(b, rewrite)
    decreases |a|
  {
    if a == [] {
      assert a + b == b;
    } else {
      ExplicitItemsInOrder(a[1..], b, rewrite);
      assert (a + b)[1..] == a[1..] + b;
      Associative(ExplicitItem(a[0], rewrite), ExplicitItems(a[1..], rewrite), ExplicitItems(b, rewrite));
    }
  }

  lemma Associative<T>(a: seq<T>, b: seq<T>, c: seq<T>)
    ensures a + (b + c) == (a + b) + c
  {}

  // ---- Paired hosts ----

  predicate Serves(items: seq<Item>, host: string) {
    exists i :: 0 <= i < |items| && items[i].host == host
  }

  function PartnerOf(pairs: Pairs, host: string): string {
    if host in pairs then pairs[host] else ""
  }

  /** The items once those pending have had their partners added to what there is so far. */
  function Paired(pending: seq<Item>, items: seq<Item>, pairs: Pairs): seq<Item>
    decreases |pending|
  {
    if pending == [] then items
    else
      var partner := PartnerOf(pairs, pending[0].host);
      Paired(pending[1..],
             if partner != "" && !Serves(items, partner) then items + [pending[0].(host := partner)] else items,
             pairs)
  }

  /** The loop goes over a copy of the list that it appends to. */
  method PairHosts(items: seq<Item>, pairs: Pairs) returns (r: seq<Item>)
    ensures r == Paired(items, items, pairs)
  {
    r := items;
    assert items[0..] == items;
    for i := 0 to |items|
      invariant Paired(items[i..], r, pairs) == Paired(items, items, pairs)
    {
      assert items[i..][0] == items[i] && items[i..][1..] == items[i+1..];
      var partner := PartnerOf(pairs, items[i].host);
      if partner != "" && !(exists j :: 0 <= j < |r| && r[j].host == partner) {
        r := r + [items[i].(host := partner)];
      }
    }
  }

  /** Item j of the result is the partner of a pending item, and the first to serve its host. */
  predicate IsAdded(pending: seq<Item>, r: seq<Item>, j: nat, pairs: Pairs)
    requires j < |r|
  {
    && r[j].host != "" && !Serves(r[..j], r[j].host)
    && exists i :: 0 <= i < |pending| && PartnerOf(pairs, pending[i].host) == r[j].host && r[j] == pending[i].(host := r[j].host)
  }

  lemma AddedForMore(first: Item, rest: seq<Item>, r: seq<Item>, j: nat, pairs: Pairs)
    requires j < |r| && IsAdded(rest, r, j, pairs)
    ensures IsAdded([first] + rest, r, j, pairs)
  {
    var i :| 0 <= i < |rest| && PartnerOf(pairs, rest[i].host) == r[j].host && r[j] == rest[i].(host := r[j].host);
    assert ([first] + rest)[i+1] == rest[i];
  }

  /** What there was stays in front; what is added serves a partner that nothing served before; and no partner is missing. */
  lemma {:induction false} PairedIsExact(pending: seq<Item>, items: seq<Item>, pairs: Pairs)
    ensures items <= Paired(pending, items, pairs)
    ensures forall j :: |items| <= j < |Paired(pending, items, pairs)| ==> IsAdded(pending, Paired(pending, items, pairs), j, pairs)
    ensures forall x :: x in pending && PartnerOf(pairs, x.host) != "" ==>
              Serves(Paired(pending, items, pairs), PartnerOf(pairs, x.host))
    decreases |pending|
  {
    if pending == [] {
    } else {
      var first, rest := pending[0], pending[1..];
      var partner := PartnerOf(pairs, first.host);
      var items' := if partner != "" && !Serves(items, partner) then items + [first.(host := partner)] else items;
      PairedIsExact(rest, items', pairs);
      var r := Paired(pending, items, pairs);
      assert pending == [first] + rest;
      forall j | |items| <= j < |r| ensures IsAdded(pending, r, j, pairs) {
        if j < |items'| {
          assert r[j] == items'[j] && r[..j] == items;
          assert pending[0] == first;
        } else {
          AddedForMore(first, rest, r, j, pairs);
        }
      }
      if partner != "" {
        assert Serves(items', partner) by {
          if !Serves(items, partner) { assert items'[|items|].host == partner; }
        }
        var k :| 0 <= k < |items'| && items'[k].host == partner;
        assert r[k].host == partner;
      }
    }
  }

  /** Where following a pair twice leads back, every served host has its partner served. */
  lemma PairedIsClosed(items: seq<Item>, pairs: Pairs, host: string)
    requires Involution(pairs)
    requires Serves(Paired(items, items, pairs), host) && PartnerOf(pairs, host) != ""
    ensures Serves(Paired(items, items, pairs), PartnerOf(pairs, host))
  {
    var r := Paired(items, items, pairs);
    PairedIsExact(items, items, pairs);
    var j :| 0 <= j < |r| && r[j].host == host;
    if j < |items| {
      assert items[j] in items && items[j] == r[j];
    } else {
      assert IsAdded(items, r, j, pairs);
      var i :| 0 <= i < |items| && PartnerOf(pairs, items[i].host) == host && r[j] == items[i].(host := host);
      assert r[i] == items[i];
    }
  }
}
