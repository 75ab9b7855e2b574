/** Binding the configured roles to the service account of an application. */
module RoleBindings {
  import opened Values

  type Strings = map<string, string>

  const APP := "app"
  const ROLE := "Role"
  const CLUSTER_ROLE := "ClusterRole"

  /** Names are given by a client, or generated by the server, which never repeats itself. */
  datatype Name = Given(name: string) | Generated(prefix: string, n: nat)

  datatype RoleRef = RoleRef(kind: string, name: string)
  datatype Owner = Owner(apiVersion: string, kind: string, name: string, uid: string)
  datatype Subject = Subject(kind: string, name: string)
  datatype Binding = Binding(labels: Strings, annotations: Strings, owners: seq<Owner>, roleRef: RoleRef, subjects: seq<Subject>)

  type Bindings = map<Name, Binding>

  datatype State = State(bindings: Bindings, next: nat)
  {
    predicate Valid() {
      forall n :: n in bindings && n.Generated? ==> n.n < next
    }
  }

  datatype Context = Context(app: string, uid: Option<string>, customLabels: Strings, labels: Strings, annotations: Strings,
                             roles: seq<string>, clusterRoles: seq<string>)
  {
    function Labels(): Strings {
      customLabels + (labels + map[APP := app])
    }

    function Owners(): seq<Owner> {
      if uid.Some? && uid != Some("") then [Owner("fiaas.schibsted.io/v1", "Application", app, uid.value)] else []
    }

    /** All roles to bind, in the order in which they are gone through. */
    function Wanted(): seq<RoleRef> {
      Refs(ROLE, roles) + Refs(CLUSTER_ROLE, clusterRoles)
    }
  }

  function Refs(kind: string, names: seq<string>): seq<RoleRef> {
    seq(|names|, i requires 0 <= i < |names| => RoleRef(kind, names[i]))
  }

  function OwnedByFiaas(b: Binding): bool {
    exists i :: 0 <= i < |b.owners| && b.owners[i].apiVersion == "fiaas.schibsted.io/v1" && b.owners[i].kind == "Application"
  }

  predicate ShouldBind(c: Context, b: Binding) {
    (b.roleRef.kind == ROLE && b.roleRef.name in c.roles) || (b.roleRef.kind == CLUSTER_ROLE && b.roleRef.name in c.clusterRoles)
  }

  predicate Mine(c: Context, b: Binding) {
    APP in b.labels && b.labels[APP] == c.app
  }

  function Deployed(c: Context, ref: RoleRef): Binding {
    Binding(c.Labels(), c.annotations, c.Owners(), ref, [Subject("ServiceAccount", c.app)])
  }

  /** The listing of the application's bindings, in any order. */
  ghost predicate Listing(s: State, c: Context, list: seq<Name>) {
    && (forall n :: n in list <==> n in s.bindings && Mine(c, s.bindings[n]))
    && (forall i, j :: 0 <= i < j < |list| ==> list[i] != list[j])
  }

  /** Everything listed is the application's. */
  ghost predicate AllMine(s: State, c: Context, list: seq<Name>) {
    forall n :: n in list ==> n in s.bindings && Mine(c, s.bindings[n])
  }

  // ---- What the loops compute ----

  predicate Unneeded(c: Context, b: Binding) {
    !ShouldBind(c, b) && OwnedByFiaas(b)
  }

  function Cleaned(s: State, c: Context): State {
    s.(bindings := map n | n in s.bindings && !(Mine(c, s.bindings[n]) && Unneeded(c, s.bindings[n])) :: s.bindings[n])
  }

  function Remaining(s: State, c: Context, list: seq<Name>): seq<Name>
    requires forall n :: n in list ==> n in s.bindings
  {
    if list == [] then []
    else (if Unneeded(c, s.bindings[list[0]]) then [] else [list[0]]) + Remaining(s, c, list[1..])
  }

  /** The first listed binding of a role. */
  function Find(bindings: Bindings, list: seq<Name>, ref: RoleRef): (r: Option<Name>)
    requires forall n :: n in list ==> n in bindings
    ensures r.Some? ==> r.value in list && bindings[r.value].roleRef == ref
    ensures r.None? ==> forall n :: n in list ==> bindings[n].roleRef != ref
  {
    if list == [] then None
    else if bindings[list[0]].roleRef == ref then Some(list[0])
    else Find(bindings, list[1..], ref)
  }

  function Bind(s: State, c: Context, list: seq<Name>, ref: RoleRef): State
    requires forall n :: n in list ==> n in s.bindings
  {
    match Find(s.bindings, list, ref)
    case Some(n) => if OwnedByFiaas(s.bindings[n]) then s.(bindings := s.bindings[n := Deployed(c, ref)]) else s
    case None => State(s.bindings[Generated(c.app + "-", s.next) := Deployed(c, ref)], s.next + 1)
  }

  function BindAll(s: State, c: Context, list: seq<Name>, refs: seq<RoleRef>): (r: State)
    requires forall n :: n in list ==> n in s.bindings
    ensures s.bindings.Keys <= r.bindings.Keys
    decreases |refs|
  {
    if refs == [] then s else Bind(BindAll(s, c, list, refs[..|refs|-1]), c, list, refs[|refs|-1])
  }

  /** What one deployment makes of the bindings. */
  function AfterDeploy(s: State, c: Context, list: seq<Name>): State
    requires Listing(s, c, list)
  {
    RemainingIsListing(s, c, list);
    BindAll(Cleaned(s, c), c, Remaining(s, c, list), c.Wanted())
  }

  lemma {:induction false} RemainingAt(s: State, c: Context, list: seq<Name>, n: Name)
    requires forall n :: n in list ==> n in s.bindings
    ensures n in Remaining(s, c, list) <==> n in list && !Unneeded(c, s.bindings[n])
    decreases |list|
  {
    if list == [] {
    } else {
      RemainingAt(s, c, list[1..], n);
      assert list == [list[0]] + list[1..];
    }
  }

  lemma {:induction false} RemainingIsDistinct(s: State, c: Context, list: seq<Name>)
    requires forall n :: n in list ==> n in s.bindings
    requires forall i, j :: 0 <= i < j < |list| ==> list[i] != list[j]
    ensures forall i, j :: 0 <= i < j < |Remaining(s, c, list)| ==> Remaining(s, c, list)[i] != Remaining(s, c, list)[j]
    decreases |list|
  {
    if list == [] {
    } else {
      RemainingIsDistinct(s, c, list[1..]);
      forall j | 0 <= j < |Remaining(s, c, list[1..])| ensures Remaining(s, c, list[1..])[j] != list[0] {
        RemainingAt(s, c, list[1..], Remaining(s, c, list[1..])[j]);
      }
    }
  }

  lemma RemainingIsListing(s: State, c: Context, list: seq<Name>)
    requires Listing(s, c, list)
    ensures Listing(Cleaned(s, c), c, Remaining(s, c, list))
  {
    forall n ensures n in Remaining(s, c, list) <==> n in Cleaned(s, c).bindings && Mine(c, s.bindings[n]) {
      RemainingAt(s, c, list, n);
    }
    RemainingIsDistinct(s, c, list);
  }

  /** Of the names gone through so far, those of unneeded bindings are gone. */
  ghost predicate CleanedUpto(s: State, now: State, c: Context, seen: seq<Name>) {
    && now.next == s.next
    && (forall n :: n in now.bindings <==> n in s.bindings && !(n in seen && Unneeded(c, s.bindings[n])))
    && (forall n :: n in now.bindings ==> now.bindings[n] == s.bindings[n])
  }

  lemma CleanedStep(s: State, now: State, c: Context, list: seq<Name>, i: nat)
    requires Listing(s, c, list) && i < |list| && CleanedUpto(s, now, c, list[..i])
    ensures list[i] in now.bindings && now.bindings[list[i]] == s.bindings[list[i]]
    ensures CleanedUpto(s, if Unneeded(c, s.bindings[list[i]]) then now.(bindings := now.bindings - {list[i]}) else now, c, list[..i+1])
  {}

  lemma CleanedAll(s: State, now: State, c: Context, list: seq<Name>)
    requires Listing(s, c, list) && CleanedUpto(s, now, c, list)
    ensures now == Cleaned(s, c)
  {}

  lemma RemainingStep(s: State, c: Context, list: seq<Name>, i: nat, rest: seq<Name>)
    requires (forall n :: n in list ==> n in s.bindings) && i < |list|
    ensures rest + Remaining(s, c, list[i..]) ==
            (if Unneeded(c, s.bindings[list[i]]) then rest else rest + [list[i]]) + Remaining(s, c, list[i+1..])
  {}

  // ---- The loops ----

  class Cluster {
    var state: State

    constructor ()
      ensures state == State(map[], 0)
    {
      state := State(map[], 0);
    }

    /** The label search of the server. */
    method List(c: Context) returns (list: seq<Name>)
      ensures Listing(state, c, list)
    {
      var left := set n | n in state.bindings && Mine(c, state.bindings[n]);
      ghost var all := left;
      list := [];
      while left != {}
        invariant left <= all && forall n :: n in list <==> n in all - left
        invariant forall i, j :: 0 <= i < j < |list| ==> list[i] != list[j]
      {
        var n :| n in left;
        assert n !in list;
        left, list := left - {n}, list + [n];
      }
    }

    /** Goes over a copy of the list that it removes from. */
    method CleanNotNeeded(c: Context, list: seq<Name>) returns (rest: seq<Name>)
      requires Listing(state, c, list)
      modifies this
      ensures state == Cleaned(old(state), c) && rest == Remaining(old(state), c, list)
    {
      ghost var s := state;
      rest := [];
      assert list[0..] == list;
      for i := 0 to |list|
        invariant rest + Remaining(s, c, list[i..]) == Remaining(s, c, list)
        invariant CleanedUpto(s, state, c, list[..i])
      {
        var n := list[i];
        CleanedStep(s, state, c, list, i);
        RemainingStep(s, c, list, i, rest);
        if !ShouldBind(c, state.bindings[n]) && OwnedByFiaas(state.bindings[n]) {
          state := state.(bindings := state.bindings - {n});
        } else {
          rest := rest + [n];
        }
      }
      assert list[..|list|] == list && rest + [] == rest;
      CleanedAll(s, state, c, list);
    }

    method UpdateOrCreate(c: Context, list: seq<Name>, kind: string, names: seq<string>)
      requires forall n :: n in list ==> n in state.bindings
      modifies this
      ensures state == BindAll(old(state), c, list, Refs(kind, names))
    {
      ghost var s := state;
      for i := 0 to |names|
        invariant state == BindAll(s, c, list, Refs(kind, names)[..i])
      {
        assert Refs(kind, names)[..i+1][..i] == Refs(kind, names)[..i];
        UpdateOrCreateOne(c, list, RoleRef(kind, names[i]));
      }
      assert Refs(kind, names)[..|names|] == Refs(kind, names);
    }

    method UpdateOrCreateOne(c: Context, list: seq<Name>, ref: RoleRef)
      requires forall n :: n in list ==> n in state.bindings
      modifies this
      ensures state == Bind(old(state), c, list, ref)
    {
      match Find(state.bindings, list, ref) {
        case Some(n) =>
          if OwnedByFiaas(state.bindings[n]) {
            state := state.(bindings := state.bindings[n := Deployed(c, ref)]);
          }
        case None =>
          state := State(state.bindings[Generated(c.app + "-", state.next) := Deployed(c, ref)], state.next + 1);
      }
    }

    method Deploy(c: Context) returns (list: seq<Name>)
      modifies this
      ensures Listing(old(state), c, list) && state == AfterDeploy(old(state), c, list)
    {
      list := List(c);
      RemainingIsListing(state, c, list);
      var rest := CleanNotNeeded(c, list);
      ghost var cleaned := state;
      UpdateOrCreate(c, rest, ROLE, c.roles);
      UpdateOrCreate(c, rest, CLUSTER_ROLE, c.clusterRoles);
      BindAllInTwo(cleaned, c, rest, Refs(ROLE, c.roles), Refs(CLUSTER_ROLE, c.clusterRoles));
    }
  }

  lemma {:induction false} BindAllInTwo(s: State, c: Context, list: seq<Name>, a: seq<RoleRef>, b: seq<RoleRef>)
    requires forall n :: n in list ==> n in s.bindings
    ensures BindAll(s, c, list, a + b) == BindAll(BindAll(s, c, list, a), c, list, b)
    decreases |b|
  {
    if b == [] {
      assert a + b == a;
    } else {
      BindAllInTwo(s, c, list, a, b[..|b|-1]);
      assert (a + b)[..|a+b|-1] == a + b[..|b|-1];
    }
  }

  // ---- What a deployment achieves ----

  /** A binding for the role, as this deployment wants it unless it is a client's own. */
  predicate Binds(c: Context, b: Binding, ref: RoleRef) {
    Mine(c, b) && b.roleRef == ref && (b == Deployed(c, ref) || !OwnedByFiaas(b))
  }

  predicate IsBound(s: State, c: Context, ref: RoleRef) {
    exists n :: n in s.bindings && Binds(c, s.bindings[n], ref)
  }

  /** Nothing that a client owns changes, and no binding gets another role. */
  predicate Respects(before: State, after: State, c: Context) {
    && (forall n :: n in before.bindings && !OwnedByFiaas(before.bindings[n]) ==>
          n in after.bindings && after.bindings[n] == before.bindings[n])
    && (forall n :: n in before.bindings && !Mine(c, before.bindings[n]) ==>
          n in after.bindings && after.bindings[n] == before.bindings[n])
    && (forall n :: n in before.bindings && n in after.bindings ==> after.bindings[n].roleRef == before.bindings[n].roleRef)
  }

  /** Every binding of the application that fiaas owns is for one of these roles. */
  predicate OnlyFor(s: State, c: Context) {
    forall n :: n in s.bindings && Mine(c, s.bindings[n]) && OwnedByFiaas(s.bindings[n]) ==> ShouldBind(c, s.bindings[n])
  }

  lemma WantedIsShouldBind(c: Context, b: Binding)
    ensures b.roleRef in c.Wanted() <==> ShouldBind(c, b)
  {
    var w := c.Wanted();
    if b.roleRef.kind == ROLE && b.roleRef.name in c.roles {
      var i :| 0 <= i < |c.roles| && c.roles[i] == b.roleRef.name;
      assert w[i] == b.roleRef;
    }
    if b.roleRef.kind == CLUSTER_ROLE && b.roleRef.name in c.clusterRoles {
      var i :| 0 <= i < |c.clusterRoles| && c.clusterRoles[i] == b.roleRef.name;
      assert w[|c.roles| + i] == b.roleRef;
    }
  }

  /** The roles to bind are the configured roles and cluster roles. */
  lemma WantedIsConfigured(c: Context, ref: RoleRef)
    ensures ref in c.Wanted() <==>
              (ref.kind == "Role" && ref.name in c.roles) || (ref.kind == "ClusterRole" && ref.name in c.clusterRoles)
  {
    WantedIsShouldBind(c, Deployed(c, ref));
  }

  /** What binding roles one by one keeps, starting from the cleaned state s. */
  ghost predicate Keeps(s: State, now: State, list: seq<Name>) {
    && now.Valid() && s.bindings.Keys <= now.bindings.Keys && s.next <= now.next
    && (forall n :: n in s.bindings && (n !in list || !OwnedByFiaas(s.bindings[n])) ==> now.bindings[n] == s.bindings[n])
    && (forall n :: n in s.bindings ==> now.bindings[n].roleRef == s.bindings[n].roleRef)
    && (forall n :: n in now.bindings && n !in s.bindings ==> n.Generated? && n.n >= s.next)
  }

  /** The listed bindings and the new ones are the application's, and the new ones are for these roles. */
  ghost predicate Adds(s: State, now: State, c: Context, list: seq<Name>, refs: seq<RoleRef>) {
    forall n :: n in now.bindings ==>
      && (n in list ==> Mine(c, now.bindings[n]))
      && (n !in s.bindings ==> now.bindings[n].roleRef in refs && Mine(c, now.bindings[n]))
  }

  ghost predicate AllBound(s: State, c: Context, refs: seq<RoleRef>) {
    forall ref :: ref in refs ==> IsBound(s, c, ref)
  }

  lemma DeployedIsMine(c: Context, ref: RoleRef)
    ensures Mine(c, Deployed(c, ref)) && Deployed(c, ref).roleRef == ref
  {}

  /** The binding that a step sees to, if it writes one. */
  function Target(now: State, c: Context, list: seq<Name>, ref: RoleRef): Name
    requires forall n :: n in list ==> n in now.bindings
  {
    match Find(now.bindings, list, ref)
    case Some(n) => n
    case None => Generated(c.app + "-", now.next)
  }

  lemma BindWritesTarget(now: State, c: Context, list: seq<Name>, ref: RoleRef)
    requires (forall n :: n in list ==> n in now.bindings) && now.Valid()
    ensures var next, t := Bind(now, c, list, ref), Target(now, c, list, ref);
      && next.Valid() && now.next <= next.next
      && t in next.bindings && next.bindings.Keys == now.bindings.Keys + {t} && next.bindings[t].roleRef == ref
      && (forall n :: n in now.bindings && n != t ==> next.bindings[n] == now.bindings[n])
      && (next.bindings[t] == Deployed(c, ref) || (t in list && !OwnedByFiaas(now.bindings[t]) && next.bindings[t] == now.bindings[t]))
      && (t in now.bindings ==> t in list && now.bindings[t].roleRef == ref)
  {}

  lemma {:induction false} BindAllKeeps(s: State, c: Context, list: seq<Name>, refs: seq<RoleRef>)
    requires s.Valid() && AllMine(s, c, list)
    ensures Keeps(s, BindAll(s, c, list, refs), list)
    decreases |refs|
  {
    if refs == [] {
    } else {
      BindAllKeeps(s, c, list, refs[..|refs|-1]);
      BindKeeps(s, BindAll(s, c, list, refs[..|refs|-1]), c, list, refs[|refs|-1]);
    }
  }

  lemma {:induction false} BindAllAdds(s: State, c: Context, list: seq<Name>, refs: seq<RoleRef>)
    requires s.Valid() && AllMine(s, c, list)
    ensures Adds(s, BindAll(s, c, list, refs), c, list, refs)
    decreases |refs|
  {
    if refs == [] {
    } else {
      var front, ref := refs[..|refs|-1], refs[|refs|-1];
      BindAllKeeps(s, c, list, front);
      BindAllAdds(s, c, list, front);
      assert refs == front + [ref];
      BindAdds(s, BindAll(s, c, list, front), c, list, front, ref, refs);
    }
  }

  lemma {:induction false} BindAllBinds(s: State, c: Context, list: seq<Name>, refs: seq<RoleRef>)
    requires s.Valid() && AllMine(s, c, list)
    ensures AllBound(BindAll(s, c, list, refs), c, refs)
    decreases |refs|
  {
    if refs == [] {
    } else {
      var front, ref := refs[..|refs|-1], refs[|refs|-1];
      BindAllKeeps(s, c, list, front);
      BindAllAdds(s, c, list, front);
      BindAllBinds(s, c, list, front);
      assert refs == front + [ref];
      BindBinds(s, BindAll(s, c, list, front), c, list, front, ref, refs);
    }
  }

  lemma BindKeeps(s: State, now: State, c: Context, list: seq<Name>, ref: RoleRef)
    requires AllMine(s, c, list) && Keeps(s, now, list)
    ensures Keeps(s, Bind(now, c, list, ref), list)
  {
    BindWritesTarget(now, c, list, ref);
    var t := Target(now, c, list, ref);
    if t in s.bindings && !OwnedByFiaas(s.bindings[t]) {
      assert now.bindings[t] == s.bindings[t];
    }
  }

  lemma BindAdds(s: State, now: State, c: Context, list: seq<Name>, refs: seq<RoleRef>, ref: RoleRef, all: seq<RoleRef>)
    requires all == refs + [ref]
    requires AllMine(s, c, list) && Keeps(s, now, list) && Adds(s, now, c, list, refs)
    ensures Adds(s, Bind(now, c, list, ref), c, list, all)
  {
    BindWritesTarget(now, c, list, ref);
    DeployedIsMine(c, ref);
  }

  lemma BindBinds(s: State, now: State, c: Context, list: seq<Name>, refs: seq<RoleRef>, ref: RoleRef, all: seq<RoleRef>)
    requires all == refs + [ref]
    requires AllMine(s, c, list) && Keeps(s, now, list) && Adds(s, now, c, list, refs) && AllBound(now, c, refs)
    ensures AllBound(Bind(now, c, list, ref), c, all)
  {
    BindWritesTarget(now, c, list, ref);
    DeployedIsMine(c, ref);
    var next, t := Bind(now, c, list, ref), Target(now, c, list, ref);
    forall r | r in all ensures IsBound(next, c, r) {
      if r == ref {
        assert t in next.bindings && Binds(c, next.bindings[t], ref);
      } else {
        assert IsBound(now, c, r);
        var n :| n in now.bindings && Binds(c, now.bindings[n], r);
        assert n != t && n in next.bindings && next.bindings[n] == now.bindings[n];
      }
    }
  }

  /**
   After one deployment every configured role is bound, afresh or by a client; every binding of the
   application that fiaas owns is for a configured role; and bindings of others are untouched.
   */
  lemma DeployConverges(s: State, c: Context, list: seq<Name>)
    requires s.Valid() && Listing(s, c, list)
    ensures var s' := AfterDeploy(s, c, list);
      && s'.Valid() && AllBound(s', c, c.Wanted()) && OnlyFor(s', c) && Respects(s, s', c)
  {
    RemainingIsListing(s, c, list);
    var cleaned, rest := Cleaned(s, c), Remaining(s, c, list);
    BindAllKeeps(cleaned, c, rest, c.Wanted());
    BindAllAdds(cleaned, c, rest, c.Wanted());
    BindAllBinds(cleaned, c, rest, c.Wanted());
    OnlyWantedRemain(cleaned, AfterDeploy(s, c, list), c, rest);
    OthersAreRespected(s, AfterDeploy(s, c, list), c, rest);
  }

  lemma OnlyWantedRemain(cleaned: State, after: State, c: Context, rest: seq<Name>)
    requires Listing(cleaned, c, rest) && Keeps(cleaned, after, rest) && Adds(cleaned, after, c, rest, c.Wanted())
    requires forall n :: n in cleaned.bindings && Mine(c, cleaned.bindings[n]) ==> !Unneeded(c, cleaned.bindings[n])
    ensures OnlyFor(after, c)
  {
    forall n | n in after.bindings && Mine(c, after.bindings[n]) && OwnedByFiaas(after.bindings[n])
      ensures ShouldBind(c, after.bindings[n])
    {
      var b := after.bindings[n];
      WantedIsShouldBind(c, b);
      if n in cleaned.bindings {
        assert b.roleRef == cleaned.bindings[n].roleRef;
      }
    }
  }

  lemma OthersAreRespected(s: State, after: State, c: Context, rest: seq<Name>)
    requires s.Valid() && Listing(Cleaned(s, c), c, rest) && Keeps(Cleaned(s, c), after, rest)
    ensures Respects(s, after, c)
  {}

  // ---- What a binding says ----

  /** A binding as a deployment writes it: for the application's service account, and owned by the application if its uid is known. */
  predicate WrittenFor(c: Context, b: Binding) {
    && b.subjects == [Subject("ServiceAccount", c.app)]
    && b.annotations == c.annotations
    && (match c.uid
        case Some(uid) => b.owners == if uid == "" then [] else [Owner("fiaas.schibsted.io/v1", "Application", c.app, uid)]
        case None => b.owners == [])
    && b.labels.Keys == c.customLabels.Keys + c.labels.Keys + {"app"}
    && forall k :: k in b.labels ==>
         b.labels[k] == if k == "app" then c.app else if k in c.labels then c.labels[k] else c.customLabels[k]
  }

  lemma DeployedIsWritten(c: Context, ref: RoleRef)
    ensures WrittenFor(c, Deployed(c, ref)) && Deployed(c, ref).roleRef == ref
  {}

  ghost predicate WrittenOrKept(s: State, now: State, c: Context) {
    forall n :: n in now.bindings ==>
      WrittenFor(c, now.bindings[n]) || (n in s.bindings && now.bindings[n] == s.bindings[n])
  }

  lemma {:induction false} BindAllWrites(s: State, c: Context, list: seq<Name>, refs: seq<RoleRef>)
    requires s.Valid() && AllMine(s, c, list)
    ensures WrittenOrKept(s, BindAll(s, c, list, refs), c)
    decreases |refs|
  {
    if refs == [] {
    } else {
      var front, ref := refs[..|refs|-1], refs[|refs|-1];
      BindAllKeeps(s, c, list, front);
      BindAllWrites(s, c, list, front);
      BindWritesTarget(BindAll(s, c, list, front), c, list, ref);
      DeployedIsWritten(c, ref);
    }
  }

  /** Whatever a deployment does not leave as it was, it writes for this application's service account. */
  lemma DeployWritesForApplication(s: State, c: Context, list: seq<Name>, n: Name)
    requires s.Valid() && Listing(s, c, list) && n in AfterDeploy(s, c, list).bindings
    ensures var b := AfterDeploy(s, c, list).bindings[n];
            WrittenFor(c, b) || (n in s.bindings && b == s.bindings[n])
  {
    RemainingIsListing(s, c, list);
    BindAllWrites(Cleaned(s, c), c, Remaining(s, c, list), c.Wanted());
  }

  /** What is written with a uid is owned by fiaas, so a later deployment without its role removes it. */
  lemma DroppedRoleIsUnbound(s: State, c: Context, list: seq<Name>, n: Name)
    requires s.Valid() && Listing(s, c, list) && n in s.bindings && Mine(c, s.bindings[n])
    requires exists before: Context :: before.uid.Some? && before.uid != Some("") && WrittenFor(before, s.bindings[n])
    requires !ShouldBind(c, s.bindings[n])
    ensures n !in AfterDeploy(s, c, list).bindings
  {
    var before: Context :| before.uid.Some? && before.uid != Some("") && WrittenFor(before, s.bindings[n]);
    assert s.bindings[n].owners[0] == Owner("fiaas.schibsted.io/v1", "Application", before.app, before.uid.value);
    assert OwnedByFiaas(s.bindings[n]);
    RemainingIsListing(s, c, list);
    assert n !in Cleaned(s, c).bindings;
    BindAllKeeps(Cleaned(s, c), c, Remaining(s, c, list), c.Wanted());
  }

  /** A binding counts as fiaas's own exactly if one of its owners is an Application of fiaas. */
  lemma OwnershipIsExact(b: Binding)
    ensures OwnedByFiaas(b) <==> exists o :: o in b.owners && o.apiVersion == "fiaas.schibsted.io/v1" && o.kind == "Application"
  {
    if OwnedByFiaas(b) {
      var i :| 0 <= i < |b.owners| && b.owners[i].apiVersion == "fiaas.schibsted.io/v1" && b.owners[i].kind == "Application";
      assert b.owners[i] in b.owners;
    }
  }

  /** A second deployment creates nothing and deletes nothing, in whatever order the bindings are listed. */
  lemma SecondDeployIsStable(s: State, c: Context, list: seq<Name>, list': seq<Name>)
    requires s.Valid() && Listing(s, c, list) && Listing(AfterDeploy(s, c, list), c, list')
    ensures var s' := AfterDeploy(s, c, list);
            var s'' := AfterDeploy(s', c, list');
            s''.bindings.Keys == s'.bindings.Keys && s''.next == s'.next
  {
    DeployConverges(s, c, list);
    var s' := AfterDeploy(s, c, list);
    assert Cleaned(s', c).bindings == s'.bindings;
    RemainingIsListing(s', c, list');
    BindAllCreatesNothing(Cleaned(s', c), c, Remaining(s', c, list'), c.Wanted());
  }

  lemma {:induction false} BindAllCreatesNothing(s: State, c: Context, list: seq<Name>, refs: seq<RoleRef>)
    requires s.Valid() && Listing(s, c, list) && AllBound(s, c, refs)
    ensures var s' := BindAll(s, c, list, refs); s'.bindings.Keys == s.bindings.Keys && s'.next == s.next
    decreases |refs|
  {
    if refs == [] {
    } else {
      var front, ref := refs[..|refs|-1], refs[|refs|-1];
      BindAllCreatesNothing(s, c, list, front);
      BindAllKeeps(s, c, list, front);
      assert ref in refs;
      BoundIsNotCreated(s, BindAll(s, c, list, front), c, list, ref);
    }
  }

  lemma BoundIsNotCreated(s: State, now: State, c: Context, list: seq<Name>, ref: RoleRef)
    requires Listing(s, c, list) && Keeps(s, now, list) && IsBound(s, c, ref)
    ensures Bind(now, c, list, ref).bindings.Keys == now.bindings.Keys && Bind(now, c, list, ref).next == now.next
  {}

  /** How many of the roles have no binding yet. */
  function Missing(s: State, list: seq<Name>, refs: seq<RoleRef>): nat
    requires forall n :: n in list ==> n in s.bindings
    decreases |refs|
  {
    if refs == [] then 0
    else Missing(s, list, refs[..|refs|-1]) + if Find(s.bindings, list, refs[|refs|-1]).None? then 1 else 0
  }

  /** The application's bindings of a role. */
  function For(s: State, c: Context, ref: RoleRef): set<Name> {
    set n | n in s.bindings && Mine(c, s.bindings[n]) && s.bindings[n].roleRef == ref
  }

  /**
   One binding is created for each mention of a role that had none, and it is a binding of that role;
   a role that had one gets no other.
   */
  lemma BindAllCreatesTheMissing(s: State, c: Context, list: seq<Name>, refs: seq<RoleRef>, ref: RoleRef)
    requires s.Valid() && Listing(s, c, list)
    ensures BindAll(s, c, list, refs).next == s.next + Missing(s, list, refs)
    ensures |For(BindAll(s, c, list, refs), c, ref)| ==
            |For(s, c, ref)| + if Find(s.bindings, list, ref).None? then multiset(refs)[ref] else 0
  {
    BindAllTakesNames(s, c, list, refs);
    BindAllFillsRole(s, c, list, refs, ref);
  }

  lemma {:induction false} BindAllTakesNames(s: State, c: Context, list: seq<Name>, refs: seq<RoleRef>)
    requires s.Valid() && AllMine(s, c, list)
    ensures BindAll(s, c, list, refs).next == s.next + Missing(s, list, refs)
    decreases |refs|
  {
    if refs == [] {
    } else {
      var front, ref := refs[..|refs|-1], refs[|refs|-1];
      BindAllTakesNames(s, c, list, front);
      BindAllKeeps(s, c, list, front);
      FindKeeps(s, BindAll(s, c, list, front), list, ref);
    }
  }

  lemma {:induction false} BindAllFillsRole(s: State, c: Context, list: seq<Name>, refs: seq<RoleRef>, ref: RoleRef)
    requires s.Valid() && AllMine(s, c, list)
    ensures |For(BindAll(s, c, list, refs), c, ref)| ==
            |For(s, c, ref)| + if Find(s.bindings, list, ref).None? then multiset(refs)[ref] else 0
    decreases |refs|
  {
    if refs == [] {
    } else {
      var front, last := refs[..|refs|-1], refs[|refs|-1];
      BindAllFillsRole(s, c, list, front, ref);
      LastFillsRole(s, c, list, front, last, ref);
      assert multiset(refs)[ref] == multiset(front)[ref] + if last == ref then 1 else 0 by {
        assert refs == front + [last];
      }
    }
  }

  lemma LastFillsRole(s: State, c: Context, list: seq<Name>, front: seq<RoleRef>, last: RoleRef, ref: RoleRef)
    requires s.Valid() && AllMine(s, c, list)
    ensures |For(Bind(BindAll(s, c, list, front), c, list, last), c, ref)| ==
            |For(BindAll(s, c, list, front), c, ref)| + if Find(s.bindings, list, last).None? && last == ref then 1 else 0
  {
    BindAllKeeps(s, c, list, front);
    BindAllAdds(s, c, list, front);
    BindFillsRole(s, BindAll(s, c, list, front), c, list, front, last, ref);
  }

  lemma BindFillsRole(s: State, now: State, c: Context, list: seq<Name>, refs: seq<RoleRef>, last: RoleRef, ref: RoleRef)
    requires AllMine(s, c, list) && Keeps(s, now, list) && Adds(s, now, c, list, refs)
    ensures |For(Bind(now, c, list, last), c, ref)| ==
            |For(now, c, ref)| + if Find(s.bindings, list, last).None? && last == ref then 1 else 0
  {
    FindKeeps(s, now, list, last);
    BindWritesTarget(now, c, list, last);
    var next, t := Bind(now, c, list, last), Target(now, c, list, last);
    assert t in now.bindings <==> Find(now.bindings, list, last).Some?;
    assert Mine(c, next.bindings[t]) by { DeployedIsMine(c, last); }
    ForGrows(now, next, c, t, last, ref);
  }

  /** The states agree on all bindings but one, which is the application's and for this role. */
  ghost predicate AgreeBut(now: State, next: State, c: Context, t: Name, last: RoleRef) {
    && next.bindings.Keys == now.bindings.Keys + {t}
    && (forall n :: n in now.bindings && n != t ==> next.bindings[n] == now.bindings[n])
    && Mine(c, next.bindings[t]) && next.bindings[t].roleRef == last
    && (t in now.bindings ==> Mine(c, now.bindings[t]) && now.bindings[t].roleRef == last)
  }

  lemma ForGrows(now: State, next: State, c: Context, t: Name, last: RoleRef, ref: RoleRef)
    requires AgreeBut(now, next, c, t, last)
    ensures |For(next, c, ref)| == |For(now, c, ref)| + if t !in now.bindings && last == ref then 1 else 0
  {
    var f, f' := For(now, c, ref), For(next, c, ref);
    forall n ensures n in f' <==> n in f || (last == ref && n == t) {
      ForAt(now, next, c, t, last, ref, n);
    }
    ForAt(now, next, c, t, last, ref, t);
    if last == ref {
      assert f' == f + {t};
    } else {
      assert f' == f;
    }
  }

  lemma ForAt(now: State, next: State, c: Context, t: Name, last: RoleRef, ref: RoleRef, n: Name)
    requires AgreeBut(now, next, c, t, last)
    ensures n in For(next, c, ref) <==> n in For(now, c, ref) || (last == ref && n == t)
    ensures last == ref ==> (t in For(now, c, ref) <==> t in now.bindings)
  {
    assert n in next.bindings <==> n in now.bindings || n == t;
  }


  /**
   After a deployment, a configured role that had no binding has as many as it is mentioned times, and
   any other one has as many as before.
   */
  lemma BindingsAreCounted(s: State, c: Context, list: seq<Name>, ref: RoleRef)
    requires s.Valid() && Listing(s, c, list) && ref in c.Wanted()
    ensures |For(AfterDeploy(s, c, list), c, ref)| ==
            if For(s, c, ref) == {} then multiset(c.Wanted())[ref] else |For(s, c, ref)|
  {
    RemainingIsListing(s, c, list);
    var cleaned, rest := Cleaned(s, c), Remaining(s, c, list);
    forall n | n in For(s, c, ref) ensures n in For(cleaned, c, ref) && n in rest {
      WantedIsShouldBind(c, s.bindings[n]);
    }
    assert For(cleaned, c, ref) == For(s, c, ref);
    assert Find(cleaned.bindings, rest, ref).None? <==> For(s, c, ref) == {};
    BindAllCreatesTheMissing(cleaned, c, rest, c.Wanted(), ref);
  }

  /** No role without a binding is mentioned twice. */
  predicate UnboundOnce(s: State, c: Context) {
    forall ref :: ref in c.Wanted() && For(s, c, ref) == {} ==> multiset(c.Wanted())[ref] == 1
  }

  /** Every role without a binding gets exactly one if and only if none of them is mentioned twice. */
  lemma EachRoleIsBoundOnce(s: State, c: Context, list: seq<Name>)
    requires s.Valid() && Listing(s, c, list)
    ensures (forall ref :: ref in c.Wanted() && For(s, c, ref) == {} ==> |For(AfterDeploy(s, c, list), c, ref)| == 1)
            <==> UnboundOnce(s, c)
  {
    forall ref | ref in c.Wanted() && For(s, c, ref) == {}
      ensures |For(AfterDeploy(s, c, list), c, ref)| == multiset(c.Wanted())[ref]
    {
      BindingsAreCounted(s, c, list, ref);
    }
  }

  /** A role listed twice gets two bindings in an empty namespace. */
  lemma RepeatedRoleIsBoundTwice(c: Context, r: string)
    requires c.roles == [r, r] && c.clusterRoles == []
    ensures exists m, n :: m != n && {m, n} <= For(AfterDeploy(State(map[], 0), c, []), c, RoleRef(ROLE, r))
  {
    var s, ref := State(map[], 0), RoleRef(ROLE, r);
    assert c.Wanted() == [ref, ref];
    BindingsAreCounted(s, c, [], ref);
    var both := For(AfterDeploy(s, c, []), c, ref);
    assert both != {};
    var m :| m in both;
    assert |both - {m}| == 1;
    var n :| n in both - {m};
    assert {m, n} <= both;
  }

  lemma {:induction false} FindKeeps(s: State, now: State, list: seq<Name>, ref: RoleRef)
    requires forall n :: n in list ==> n in s.bindings && n in now.bindings && now.bindings[n].roleRef == s.bindings[n].roleRef
    ensures Find(now.bindings, list, ref) == Find(s.bindings, list, ref)
    decreases |list|
  {
    if list == [] {
    } else {
      FindKeeps(s, now, list[1..], ref);
    }
  }
}
