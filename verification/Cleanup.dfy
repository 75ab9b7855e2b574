/** Throwing away all but the newest statuses of an application. */
module Cleanup {
  import opened Text
  import opened StatusStore
  import Sets
  import Timestamps

  const OLD_STATUSES_TO_KEEP := 10

  /** The statuses of an application, as the label search finds them. */
  function Mine(s: Store, app: string): set<string> {
    set n | n in s.objects && "app" in s.objects[n].labels && s.objects[n].labels["app"] == app
  }

  /** A status without a time stamp sorts first. */
  function Stamp(s: Store, n: string): string {
    if n in s.objects && LAST_UPDATED in s.objects[n].annotations then s.objects[n].annotations[LAST_UPDATED] else ""
  }

  function ByStamp(s: Store): (string, string) -> bool {
    (m, n) => AtMost(Stamp(s, m), Stamp(s, n))
  }

  lemma ByStampIsPreorder(s: Store)
    ensures TotalPreorder(ByStamp(s))
  {
    var le := ByStamp(s);
    forall m, n ensures le(m, n) || le(n, m) {
      LessIsTotal(Stamp(s, m), Stamp(s, n));
    }
    forall l, m, n | le(l, m) && le(m, n) ensures le(l, n) {
      if Less(Stamp(s, l), Stamp(s, m)) && Less(Stamp(s, m), Stamp(s, n)) {
        LessIsTransitive(Stamp(s, l), Stamp(s, m), Stamp(s, n));
      }
    }
  }

  /** The search returns the statuses in no particular order. */
  method Find(s: Store, app: string) returns (names: seq<string>)
    ensures multiset(names) == multiset(Mine(s, app))
  {
    var left := Mine(s, app);
    names := [];
    while left != {}
      invariant multiset(names) + multiset(left) == multiset(Mine(s, app))
    {
      var n :| n in left;
      left, names := left - {n}, names + [n];
    }
  }

  /** Python `xs[:-n]`. */
  function AllButLast<T>(xs: seq<T>, n: nat): seq<T> {
    if |xs| <= n then [] else xs[..|xs|-n]
  }

  /** Every other status of the application carries an earlier stamp. */
  predicate Newest(s: Store, app: string, n: string) {
    n in Mine(s, app) && forall m :: m in Mine(s, app) && m != n ==> Less(Stamp(s, m), Stamp(s, n))
  }

  predicate NoLater(s: Store, m: string, n: string) {
    AtMost(Stamp(s, m), Stamp(s, n))
  }

  /** The older part of the statuses: all but the ten newest, ties broken in any way. */
  predicate Outdated(s: Store, app: string, gone: set<string>) {
    && gone <= Mine(s, app)
    && |Mine(s, app) - gone| == (if |Mine(s, app)| < OLD_STATUSES_TO_KEEP then |Mine(s, app)| else OLD_STATUSES_TO_KEEP)
    && forall m, n {:trigger NoLater(s, m, n)} :: m in gone && n in Mine(s, app) && n !in gone ==> NoLater(s, m, n)
  }

  /** Only statuses of the application are gone, and nothing else has changed. */
  predicate OnlyMineGone(s: Store, s': Store, app: string) {
    && s'.objects.Keys <= s.objects.Keys
    && (forall n :: n in s'.objects ==> s'.objects[n] == s.objects[n])
    && s.objects.Keys - s'.objects.Keys <= Mine(s, app)
  }

  /** At most ten are left, and none of them is older than any that is gone. */
  predicate KeptNewest(s: Store, s': Store, app: string) {
    && |Mine(s', app)| == (if |Mine(s, app)| < OLD_STATUSES_TO_KEEP then |Mine(s, app)| else OLD_STATUSES_TO_KEEP)
    && forall m, n {:trigger NoLater(s, m, n)} :: m in s.objects && m !in s'.objects && n in Mine(s', app) ==> NoLater(s, m, n)
  }

  /**
   Deletes what the listing showed to be outdated, by name, whatever others write in between. If they
   write nothing, at most ten statuses of the application stay, none of them older than any that goes;
   the newest stays, and so does everything else on the server.
   */
  method CleanUp(server: Server, app: string, meanwhile: seq<OtherWrite>) returns (ghost gone: set<string>)
    requires server.store.Valid()
    modifies server
    ensures Outdated(old(server.store), app, gone)
    ensures server.store.objects == Replay(old(server.store), meanwhile).objects - gone
    ensures meanwhile == [] ==> OnlyMineGone(old(server.store), server.store, app) && KeptNewest(old(server.store), server.store, app)
    ensures forall n :: Newest(old(server.store), app, n) ==> n !in gone
  {
    ghost var s := server.store;
    var outdated := ListOutdated(server.store, app);
    gone := set n | n in outdated;
    server.Elsewhere(meanwhile);
    DeleteAll(server, outdated);
    if meanwhile == [] {
      AloneKeepsNewest(s, server.store, app, gone);
    }
    forall n | Newest(s, app, n) ensures n !in gone {
      NewestIsNotOutdated(s, app, gone, n);
    }
  }

  method ListOutdated(s: Store, app: string) returns (outdated: seq<string>)
    ensures Outdated(s, app, set n | n in outdated)
  {
    var names := Find(s, app);
    var sorted := Sort(names, ByStamp(s));
    ByStampIsPreorder(s);
    SortSorts(names, ByStamp(s));
    outdated := AllButLast(sorted, OLD_STATUSES_TO_KEEP);
    assert outdated == sorted[..|outdated|];
    FrontIsOutdated(s, app, sorted, |outdated|);
  }

  method DeleteAll(server: Server, names: seq<string>)
    modifies server
    ensures server.store.objects == old(server.store).objects - (set n | n in names)
  {
    for i := 0 to |names|
      invariant server.store.objects == old(server.store).objects - (set n | n in names[..i])
    {
      server.Delete(names[i]);
      assert names[..i+1] == names[..i] + [names[i]];
    }
    assert names[..|names|] == names;
  }

  lemma FrontIsOutdated(s: Store, app: string, sorted: seq<string>, cut: nat)
    requires multiset(sorted) == multiset(Mine(s, app)) && Sorted(sorted, ByStamp(s))
    requires cut == if |sorted| <= OLD_STATUSES_TO_KEEP then 0 else |sorted| - OLD_STATUSES_TO_KEEP
    ensures Outdated(s, app, set n | n in sorted[..cut])
  {
    SplitListing(Mine(s, app), sorted, cut);
    var gone := set n | n in sorted[..cut];
    assert Mine(s, app) - gone == set n | n in sorted[cut..];
    forall m, n | m in gone && n in Mine(s, app) && n !in gone ensures NoLater(s, m, n) {
      SplitIsOrdered(s, sorted, cut, m, n);
    }
  }

  lemma OutdatedAlone(s: Store, s': Store, app: string, gone: set<string>)
    requires Outdated(s, app, gone)
    requires Mine(s', app) == Mine(s, app) - gone && s.objects.Keys - s'.objects.Keys == gone
    ensures KeptNewest(s, s', app)
  {
    forall m, n | m in s.objects && m !in s'.objects && n in Mine(s', app) ensures NoLater(s, m, n) {
      assert m in s.objects.Keys - s'.objects.Keys && n in Mine(s, app) - gone;
    }
  }

  lemma MineAfterwards(s: Store, s': Store, app: string, gone: set<string>)
    requires s'.objects == s.objects - gone && gone <= Mine(s, app)
    ensures Mine(s', app) == Mine(s, app) - gone && s.objects.Keys - s'.objects.Keys == gone
    ensures OnlyMineGone(s, s', app)
  {
    assert s'.objects.Keys == s.objects.Keys - gone;
    forall n ensures n in Mine(s', app) <==> n in Mine(s, app) && n !in gone {}
  }

  lemma AloneKeepsNewest(s: Store, s': Store, app: string, gone: set<string>)
    requires s'.objects == s.objects - gone && Outdated(s, app, gone)
    ensures OnlyMineGone(s, s', app) && KeptNewest(s, s', app)
  {
    MineAfterwards(s, s', app, gone);
    OutdatedAlone(s, s', app, gone);
  }

  /** A listing without repetitions, cut in two. */
  lemma SplitListing(all: set<string>, listing: seq<string>, cut: nat)
    requires multiset(listing) == multiset(all) && cut <= |listing|
    ensures |listing| == |all|
    ensures var gone, kept := set n | n in listing[..cut], set n | n in listing[cut..];
      gone !! kept && gone + kept == all && |kept| == |listing| - cut
  {
    var front, back := listing[..cut], listing[cut..];
    assert listing == front + back;
    assert |multiset(listing)| == |multiset(all)|;
    forall n ensures multiset(front)[n] + multiset(back)[n] == if n in all then 1 else 0 {
      assert multiset(listing)[n] == multiset(all)[n];
    }
    var gone, kept := set n | n in front, set n | n in back;
    assert forall n :: n in gone <==> n in multiset(front);
    assert forall n :: n in kept <==> n in multiset(back);
    DistinctAreCounted(back);
  }

  lemma DistinctAreCounted(names: seq<string>)
    requires forall n :: multiset(names)[n] <= 1
    ensures |set n | n in names| == |names|
  {
    var all := set n | n in names;
    assert forall n :: n in all <==> n in multiset(names);
    assert multiset(all) == multiset(names);
    assert |multiset(all)| == |all|;
  }

  lemma SplitIsOrdered(s: Store, sorted: seq<string>, cut: nat, m: string, n: string)
    requires Sorted(sorted, ByStamp(s)) && cut <= |sorted| && m in sorted[..cut] && n in sorted[cut..]
    ensures NoLater(s, m, n)
  {}

  // ---- Which statuses go ----

  /** The statuses of the application with a later stamp. */
  function Later(s: Store, app: string, n: string): set<string> {
    set m | m in Mine(s, app) && Less(Stamp(s, n), Stamp(s, m))
  }

  /** No other status of the application has the same stamp. */
  predicate Untied(s: Store, app: string, n: string) {
    forall m :: m in Mine(s, app) && m != n ==> Stamp(s, m) != Stamp(s, n)
  }

  /** A status is outdated exactly if the listing shows ten later ones. */
  lemma OutdatedExactly(s: Store, app: string, gone: set<string>, n: string)
    requires Outdated(s, app, gone) && n in Mine(s, app) && Untied(s, app, n)
    ensures n in gone <==> |Later(s, app, n)| >= 10
  {
    var kept, later := Mine(s, app) - gone, Later(s, app, n);
    if n in gone {
      forall m | m in kept ensures m in later {
        assert NoLater(s, n, m);
        NoLaterIsEarlier(s, app, n, m);
      }
    } else {
      forall m | m in later ensures m in kept - {n} {
        LaterIsNotNoLater(s, m, n);
      }
    }
    CountsDecide(Mine(s, app), gone, later, n);
  }

  lemma NoLaterIsEarlier(s: Store, app: string, n: string, m: string)
    requires n in Mine(s, app) && m in Mine(s, app) && m != n && Untied(s, app, n) && NoLater(s, n, m)
    ensures m in Later(s, app, n)
  {}

  lemma LaterIsNotNoLater(s: Store, m: string, n: string)
    requires Less(Stamp(s, n), Stamp(s, m))
    ensures !NoLater(s, m, n) && m != n
  {
    LessIsTotal(Stamp(s, n), Stamp(s, m));
  }

  lemma CountsDecide(mine: set<string>, gone: set<string>, later: set<string>, n: string)
    requires gone <= mine && n in mine
    requires |mine - gone| == if |mine| < OLD_STATUSES_TO_KEEP then |mine| else OLD_STATUSES_TO_KEEP
    requires if n in gone then mine - gone <= later else later <= mine - gone - {n}
    ensures n in gone <==> |later| >= OLD_STATUSES_TO_KEEP
  {
    var kept := mine - gone;
    if n in gone {
      Sets.SubsetSize(kept, later);
      assert |mine| == |kept| + |gone| by { assert mine == kept + gone; }
    } else {
      Sets.SubsetSize(later, kept - {n});
    }
  }


  lemma NewestIsNotOutdated(s: Store, app: string, gone: set<string>, n: string)
    requires Outdated(s, app, gone) && Newest(s, app, n)
    ensures n !in gone
  {
    forall m | m in Mine(s, app) && m != n ensures Stamp(s, m) != Stamp(s, n) && m !in Later(s, app, n) {
      LessIsTotal(Stamp(s, m), Stamp(s, n));
    }
    LessIsTotal(Stamp(s, n), Stamp(s, n));
    assert Later(s, app, n) == {};
    OutdatedExactly(s, app, gone, n);
  }

  /**
   A status that others save while the clean-up goes on survives it unless the listing, made before,
   showed an older state of it and ten later ones.
   */
  lemma SavedMeanwhileSurvives(s: Store, meanwhile: seq<OtherWrite>, s': Store, app: string, gone: set<string>, n: string)
    requires Outdated(s, app, gone) && s'.objects == Replay(s, meanwhile).objects - gone
    requires n in Replay(s, meanwhile).objects && (n in Mine(s, app) ==> Untied(s, app, n))
    ensures n in s'.objects <==> !(n in Mine(s, app) && |Later(s, app, n)| >= 10)
  {
    if n in Mine(s, app) {
      OutdatedExactly(s, app, gone, n);
    }
  }

  /** Under a clock that moves on between saves, the status saved last is the newest; others may have no stamp. */
  lemma LastSavedIsNewest(s: Store, app: string, n: string, times: map<string, Timestamps.Time>)
    requires n in Mine(s, app)
    requires forall m :: m in Mine(s, app) && (m == n || Stamp(s, m) != "") ==>
               m in times && times[m].Valid() && Stamp(s, m) == times[m].Iso()
    requires forall m :: m in Mine(s, app) && m != n && Stamp(s, m) != "" ==> times[m].Before(times[n])
    ensures Newest(s, app, n)
  {
    forall m | m in Mine(s, app) && m != n ensures Less(Stamp(s, m), Stamp(s, n)) {
      if Stamp(s, m) == "" {
        Timestamps.IsoIsNotEmpty(times[n]);
      } else {
        Timestamps.IsoKeepsOrder(times[m], times[n]);
      }
    }
  }

  // ---- What is saved is what is cleaned up ----

  /** A save that gets through leaves a status that the listing finds, with the saver's time; other statuses stay. */
  lemma SavedIsListed(m: Moment, name: string, subject: Subject, result: string, stamp: string)
    requires !Conflicted(m, name)
    ensures var s := Left(m, name, subject, result, stamp);
      && name in Mine(s, subject.app) && Stamp(s, name) == stamp
      && forall n :: n != name ==> s.Lookup(n) == m.write.Lookup(n)
  {
    SavedIsComplete(m.write.Lookup(name), subject, result, stamp);
  }

  /** Under a clock that moves on between saves, a status that has just been saved survives the clean-up that follows. */
  lemma SavedSurvivesCleanUp(m: Moment, name: string, subject: Subject, result: string,
                             times: map<string, Timestamps.Time>, gone: set<string>)
    requires name in times && times[name].Valid() && !Conflicted(m, name)
    requires forall n :: n in Mine(m.write, subject.app) && n != name && Stamp(m.write, n) != "" ==>
               n in times && times[n].Valid() && Stamp(m.write, n) == times[n].Iso() && times[n].Before(times[name])
    requires Outdated(Left(m, name, subject, result, times[name].Iso()), subject.app, gone)
    ensures name !in gone
  {
    var s := Left(m, name, subject, result, times[name].Iso());
    SavedIsListed(m, name, subject, result, times[name].Iso());
    forall n | n in Mine(s, subject.app) && n != name
      ensures n in Mine(m.write, subject.app) && Stamp(s, n) == Stamp(m.write, n)
    {
      assert s.Lookup(n) == m.write.Lookup(n);
    }
    LastSavedIsNewest(s, subject.app, name, times);
    NewestIsNotOutdated(s, subject.app, gone, name);
  }
}
