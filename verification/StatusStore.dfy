/**
 Statuses as separate objects on the API server: saving one in the face of other writers, and
 throwing old ones away.
 */
module StatusStore {
  import opened Values
  import StatusNames

  type Strings = map<string, string>

  datatype Object = Object(labels: Strings, annotations: Strings, result: string, owners: seq<string>, version: nat)

  /** Every write takes the next version, so that no two states of an object share one. */
  datatype Store = Store(objects: map<string, Object>, counter: nat)
  {
    predicate Valid() {
      forall n :: n in objects ==> objects[n].version <= counter
    }

    function Lookup(name: string): Option<Object> {
      if name in objects then Some(objects[name]) else None
    }

    function Written(name: string, o: Object): Store {
      Store(objects[name := o.(version := counter + 1)], counter + 1)
    }

    function Deleted(name: string): Store {
      Store(objects - {name}, counter + 1)
    }
  }

  /** What other clients do to the server. */
  datatype OtherWrite = Upsert(name: string, to: Object) | Remove(name: string)

  function Replay(s: Store, ws: seq<OtherWrite>): Store
    decreases |ws|
  {
    if ws == [] then s
    else
      var s' := Replay(s, ws[..|ws|-1]);
      match ws[|ws|-1]
      case Upsert(n, o) => s'.Written(n, o)
      case Remove(n) => s'.Deleted(n)
  }

  /** An object whose version is not new has not been touched. */
  lemma {:induction false} OldVersionsAreUntouched(s: Store, ws: seq<OtherWrite>)
    requires s.Valid()
    ensures Replay(s, ws).Valid() && s.counter <= Replay(s, ws).counter
    ensures forall n :: n in Replay(s, ws).objects && Replay(s, ws).objects[n].version <= s.counter ==>
              s.Lookup(n) == Replay(s, ws).Lookup(n)
    decreases |ws|
  {
    if ws == [] {
    } else {
      OldVersionsAreUntouched(s, ws[..|ws|-1]);
    }
  }

  // ---- Saving ----

  const LAST_UPDATED := "fiaas/last_updated"
  const DEPLOYMENT_ID := "fiaas/deployment_id"

  datatype Subject = Subject(uid: Option<string>, app: string, deploymentId: string, labels: Strings, annotations: Strings)

  function OwnLabels(s: Subject): Strings {
    s.labels + map["app" := s.app, DEPLOYMENT_ID := s.deploymentId]
  }

  function OwnAnnotations(s: Subject, stamp: string): Strings {
    s.annotations + map[LAST_UPDATED := stamp]
  }

  function Owners(s: Subject, present: seq<string>): seq<string> {
    match s.uid
    case Some(uid) => if uid != "" then [uid] else present
    case None => present
  }

  /** The object that a save leaves behind, given the one that it replaces. */
  function Merged(replaced: Option<Object>, s: Subject, result: string, stamp: string): Object {
    match replaced
    case Some(o) =>
      Object(o.labels + OwnLabels(s), o.annotations + OwnAnnotations(s, stamp), result, Owners(s, o.owners), o.version)
    case None =>
      Object(OwnLabels(s), OwnAnnotations(s, stamp), result, Owners(s, []), 0)
  }

  /** No key of the replaced object gets lost, and only the saver's own keys change. */
  lemma SaveKeepsEveryKey(o: Object, s: Subject, result: string, stamp: string)
    ensures var saved := Merged(Some(o), s, result, stamp);
      && o.labels.Keys <= saved.labels.Keys && o.annotations.Keys <= saved.annotations.Keys
      && (forall k :: k in o.labels && k !in OwnLabels(s) ==> saved.labels[k] == o.labels[k])
      && (forall k :: k in o.annotations && k !in OwnAnnotations(s, stamp) ==> saved.annotations[k] == o.annotations[k])
      && "app" in saved.labels && saved.labels["app"] == s.app
      && DEPLOYMENT_ID in saved.labels && saved.labels[DEPLOYMENT_ID] == s.deploymentId
      && LAST_UPDATED in saved.annotations && saved.annotations[LAST_UPDATED] == stamp
      && saved.result == result
  {}

  /** The keys that a save fixes, over the subject's own ones, over those that there were. */
  predicate Layered(saved: Strings, fixed: Strings, own: Strings, before: Strings) {
    && saved.Keys == before.Keys + own.Keys + fixed.Keys
    && forall k :: k in saved ==>
         saved[k] == if k in fixed then fixed[k] else if k in own then own[k] else before[k]
  }

  /**
   What a save leaves, whether or not the status is new: the saver's application, deployment id, time and
   result, the subject's other labels and annotations, what else there was, and the owner if one is known.
   */
  lemma SavedIsComplete(replaced: Option<Object>, s: Subject, result: string, stamp: string)
    ensures var saved := Merged(replaced, s, result, stamp);
            var before := if replaced.Some? then replaced.value else Object(map[], map[], "", [], 0);
      && Layered(saved.labels, map["app" := s.app, "fiaas/deployment_id" := s.deploymentId], s.labels, before.labels)
      && Layered(saved.annotations, map["fiaas/last_updated" := stamp], s.annotations, before.annotations)
      && saved.result == result
      && saved.owners == (match s.uid case Some(uid) => if uid != "" then [uid] else before.owners case None => before.owners)
  {}

  class Server {
    var store: Store

    constructor ()
      ensures store == Store(map[], 0)
    {
      store := Store(map[], 0);
    }

    /** Accepted only on top of the version that was read. */
    method Put(name: string, o: Object) returns (accepted: bool)
      modifies this
      ensures accepted <==> name in old(store).objects && old(store).objects[name].version == o.version
      ensures store == if accepted then old(store).Written(name, o) else old(store)
    {
      accepted := name in store.objects && store.objects[name].version == o.version;
      if accepted { store := store.Written(name, o); }
    }

    /** Accepted only where nothing has the name. */
    method Post(name: string, o: Object) returns (accepted: bool)
      modifies this
      ensures accepted <==> name !in old(store).objects
      ensures store == if accepted then old(store).Written(name, o) else old(store)
    {
      accepted := name !in store.objects;
      if accepted { store := store.Written(name, o); }
    }

    method Elsewhere(ws: seq<OtherWrite>)
      requires store.Valid()
      modifies this
      ensures store == Replay(old(store), ws) && store.Valid()
    {
      OldVersionsAreUntouched(store, ws);
      store := Replay(store, ws);
    }

    method Delete(name: string)
      modifies this
      ensures store == if name in old(store).objects then old(store).Deleted(name) else old(store)
    {
      if name in store.objects { store := store.Deleted(name); }
    }
  }

  /** The counters of the retry wrapper. */
  class Counters {
    var retries: nat
    var failures: nat

    constructor ()
      ensures retries == 0 && failures == 0
    {
      retries, failures := 0, 0;
    }
  }

  /** What goes on around one attempt: before it reads, and between its read and its write. */
  datatype Around = Around(pause: seq<OtherWrite>, meanwhile: seq<OtherWrite>, stamp: string)

  /** What an attempt finds on the server when it reads, and when it writes. */
  datatype Moment = Moment(read: Store, write: Store)

  /** The server's course if no attempt gets through. */
  function Timeline(s: Store, around: seq<Around>): (t: seq<Moment>)
    ensures |t| == |around|
    decreases |around|
  {
    if around == [] then []
    else
      var n := |around| - 1;
      var t := Timeline(s, around[..n]);
      var read := Replay(if n == 0 then s else t[n-1].write, around[n].pause);
      t + [Moment(read, Replay(read, around[n].meanwhile))]
  }

  lemma {:induction false} TimelineAt(s: Store, around: seq<Around>, i: nat)
    requires i < |around|
    ensures var t := Timeline(s, around);
      && t[i].read == Replay(if i == 0 then s else t[i-1].write, around[i].pause)
      && t[i].write == Replay(t[i].read, around[i].meanwhile)
    decreases |around|
  {
    var n := |around| - 1;
    if i == n {
    } else {
      TimelineAt(s, around[..n], i);
    }
  }

  /** One run of the body: it goes through exactly if nobody touches the object meanwhile. */
  method SaveOnce(server: Server, name: string, subject: Subject, result: string, stamp: string, meanwhile: seq<OtherWrite>)
    returns (conflict: bool)
    requires server.store.Valid()
    modifies server
    ensures server.store.Valid()
    ensures var before := Replay(old(server.store), meanwhile);
      && (conflict <==> before.Lookup(name) != old(server.store).Lookup(name))
      && server.store == if conflict then before
                         else before.Written(name, Merged(before.Lookup(name), subject, result, stamp))
  {
    var read := server.store.Lookup(name);
    OldVersionsAreUntouched(server.store, meanwhile);
    server.Elsewhere(meanwhile);
    var accepted;
    match read {
      case Some(o) =>
        var status := o.(labels := o.labels + OwnLabels(subject), annotations := o.annotations + OwnAnnotations(subject, stamp),
                         result := result, owners := Owners(subject, o.owners));
        accepted := server.Put(name, status);
      case None =>
        var status := Object(OwnLabels(subject), OwnAnnotations(subject, stamp), result, Owners(subject, []), 0);
        accepted := server.Post(name, status);
    }
    conflict := !accepted;
  }

  /** Somebody touches the object between the read and the write. */
  predicate Conflicted(m: Moment, name: string) {
    m.read.Lookup(name) != m.write.Lookup(name)
  }

  /** What an attempt leaves on the server: its object merged onto the very version that it replaces, or nothing. */
  function Left(m: Moment, name: string, subject: Subject, result: string, stamp: string): Store {
    if Conflicted(m, name) then m.write
    else m.write.Written(name, Merged(m.write.Lookup(name), subject, result, stamp))
  }

  method Attempt(server: Server, ghost s: Store, around: seq<Around>, i: nat, name: string, subject: Subject, result: string)
    returns (conflict: bool)
    requires server.store.Valid() && i < |around|
    requires server.store == if i == 0 then s else Timeline(s, around)[i-1].write
    modifies server
    ensures server.store.Valid()
    ensures conflict <==> Conflicted(Timeline(s, around)[i], name)
    ensures server.store == Left(Timeline(s, around)[i], name, subject, result, around[i].stamp)
  {
    TimelineAt(s, around, i);
    server.Elsewhere(around[i].pause);
    conflict := SaveOnce(server, name, subject, result, around[i].stamp, around[i].meanwhile);
  }

  /** So many attempts have been made, all of them conflicts but a last one that got through. */
  ghost predicate Attempted(s: Store, around: seq<Around>, name: string, subject: Subject, result: string,
                            tries: nat, saved: bool, store: Store)
    requires tries <= |around|
  {
    var t := Timeline(s, around);
    && (forall i :: 0 <= i < tries ==> (Conflicted(t[i], name) <==> !(saved && i == tries - 1)))
    && store == if tries == 0 then s else Left(t[tries-1], name, subject, result, around[tries-1].stamp)
  }

  lemma AttemptAgain(s: Store, around: seq<Around>, name: string, subject: Subject, result: string, tries: nat, store: Store)
    requires tries < |around| && Attempted(s, around, name, subject, result, tries, false, store)
    ensures var t := Timeline(s, around);
      && store == (if tries == 0 then s else t[tries-1].write)
      && Attempted(s, around, name, subject, result, tries + 1, !Conflicted(t[tries], name),
                   Left(t[tries], name, subject, result, around[tries].stamp))
  {
    var t := Timeline(s, around);
    if tries == 0 {
    } else {
      assert Conflicted(t[tries-1], name);
    }
  }

  /** The body under its retry wrapper; an exhausted wrapper raises. */
  method SaveStatus(server: Server, counters: Counters, hash: string -> StatusNames.Hash, subject: Subject, result: string,
                    around: seq<Around>, maxTries: nat := 2) returns (saved: bool, tries: nat)
    requires server.store.Valid() && 1 <= maxTries <= |around|
    modifies server, counters
    ensures server.store.Valid()
    ensures 1 <= tries <= maxTries && (!saved ==> tries == maxTries)
    ensures counters.retries == old(counters.retries) + tries - 1
    ensures counters.failures == old(counters.failures) + if saved then 0 else 1
    ensures var name := StatusNames.CreateName(hash, subject.app, subject.deploymentId);
      var t := Timeline(old(server.store), around);
      && (forall i :: 0 <= i < tries ==> (Conflicted(t[i], name) <==> !(saved && i == tries - 1)))
      && server.store == Left(t[tries-1], name, subject, result, around[tries-1].stamp)
  {
    var name := StatusNames.CreateName(hash, subject.app, subject.deploymentId);
    ghost var s := server.store;
    saved, tries := false, 0;
    while !saved && tries < maxTries
      invariant server.store.Valid() && tries <= maxTries && (saved ==> tries >= 1)
      invariant counters.failures == old(counters.failures)
      invariant counters.retries == old(counters.retries) + if tries > 0 && (saved || tries == maxTries) then tries - 1 else tries
      invariant Attempted(s, around, name, subject, result, tries, saved, server.store)
      decreases maxTries - tries
    {
      AttemptAgain(s, around, name, subject, result, tries, server.store);
      var conflict := Attempt(server, s, around, tries, name, subject, result);
      tries, saved := tries + 1, !conflict;
      if conflict && tries < maxTries {
        counters.retries := counters.retries + 1;
      }
    }
    if !saved {
      counters.failures := counters.failures + 1;
    }
  }
}
