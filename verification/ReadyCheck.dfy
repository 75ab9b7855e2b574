/** The scheduled task that waits for a deployment to become ready, or gives up on it. */
module ReadyCheck {
  import opened Lifecycle
  import opened Scheduler
  import Pipeline

  /** Seconds until a check gives up. */
  function FailTime(multiplier: int, replicas: int, delay: int): int {
    if replicas == 0 then multiplier * delay else multiplier * delay * replicas
  }

  datatype Verdict = Waiting | Succeeded | GaveUp

  /** Readiness wins over the timeout. */
  function Judge(failAfter: real, ready: bool, clock: real): Verdict {
    if ready then Succeeded else if clock >= failAfter then GaveUp else Waiting
  }

  function SignalsOf<S>(v: Verdict, subject: S): seq<Signal<S>> {
    match v
    case Waiting => []
    case Succeeded => [Signal(SUCCESS, subject)]
    case GaveUp => [Signal(FAILED, subject)]
  }

  class ReadyCheck<S> {
    const subject: S
    const lifecycle: Lifecycle<S>
    const failAfter: real

    constructor (subject: S, lifecycle: Lifecycle<S>, multiplier: int, maxReplicas: int, delay: int, now: real)
      ensures this.subject == subject && this.lifecycle == lifecycle
      ensures failAfter == now + (multiplier * delay * (if maxReplicas == 0 then 1 else maxReplicas)) as real
    {
      this.subject, this.lifecycle := subject, lifecycle;
      failAfter := now + FailTime(multiplier, maxReplicas, delay) as real;
    }

    /** True asks the scheduler to run the check again. */
    method Call(ready: bool, clock: real) returns (again: bool)
      modifies lifecycle
      ensures lifecycle.sent == old(lifecycle.sent) + SignalsOf(Judge(failAfter, ready, clock), subject)
      ensures ready ==> lifecycle.sent == old(lifecycle.sent) + [Signal(SUCCESS, subject)]
      ensures !ready && clock >= failAfter ==> lifecycle.sent == old(lifecycle.sent) + [Signal(FAILED, subject)]
      ensures !ready && clock < failAfter ==> lifecycle.sent == old(lifecycle.sent)
      ensures again <==> !ready && clock < failAfter
    {
      if ready {
        lifecycle.Change(SUCCESS, subject);
        return false;
      }
      if clock >= failAfter {
        lifecycle.Change(FAILED, subject);
        return false;
      }
      return true;
    }
  }

  /** Success is signalled for a ready deployment at any time, failure for another one once it is late, and nothing before. */
  lemma SignalsAreExact<S>(failAfter: real, ready: bool, clock: real, subject: S)
    ensures var signals := SignalsOf(Judge(failAfter, ready, clock), subject);
      && (ready ==> signals == [Signal(SUCCESS, subject)])
      && (!ready && clock >= failAfter ==> signals == [Signal(FAILED, subject)])
      && (!ready && clock < failAfter ==> signals == [])
  {}

  /** A call is the step of the pipeline that waits, or the one that concludes with what the check saw. */
  lemma CallIsPipelineStep(own: Pipeline.Id -> bool, s: Pipeline.State, id: Pipeline.Id, failAfter: real, ready: bool, clock: real)
    requires s.checker == Pipeline.Checking(id)
    ensures var v := Judge(failAfter, ready, clock);
            var e := if v.Waiting? then Pipeline.Recheck else Pipeline.Conclude(ready, Pipeline.Quiet);
      && Pipeline.Enabled(s, e)
      && Pipeline.Apply(own, s, e).sent == s.sent + SignalsOf(v, id)
      && (id in Pipeline.Apply(own, s, e).checks <==> v.Waiting? || id in s.checks)
  {}

  // ---- Every check ends ----

  /** What a check sees when it runs: whether the deployment is ready, and the clock. */
  datatype Observation = Observation(ready: bool, clock: real)

  /** In these rounds the ticket belongs to a check that gives up at `failAfter` and raises no error. */
  ghost predicate RunsCheck<T>(rounds: seq<Round<T>>, seen: seq<Observation>, t: Ticket, failAfter: real) {
    && |seen| == |rounds|
    && forall i :: 0 <= i < |rounds| && rounds[i].Executes(t) ==>
         && rounds[i].read <= seen[i].clock <= rounds[i].readded
         && rounds[i].outcome == if Judge(failAfter, seen[i].ready, seen[i].clock).Waiting? then Again else Done
  }

  /** The verdicts, other than to wait, that the check reaches during the rounds. */
  ghost function Emitted<T>(rounds: seq<Round<T>>, seen: seq<Observation>, t: Ticket, failAfter: real): seq<Verdict>
    requires |seen| == |rounds|
  {
    if rounds == [] then []
    else
      (if Ends(rounds[0], seen[0], t, failAfter) then [Judge(failAfter, seen[0].ready, seen[0].clock)] else [])
      + Emitted(rounds[1..], seen[1..], t, failAfter)
  }

  ghost predicate Ends<T>(r: Round<T>, o: Observation, t: Ticket, failAfter: real) {
    r.Executes(t) && !Judge(failAfter, o.ready, o.clock).Waiting?
  }

  /** Other threads may add entries, but never under this ticket, and the queue holds at most n entries. */
  ghost predicate Bounded<T>(rounds: seq<Round<T>>, t: Ticket, n: nat) {
    forall i :: 0 <= i < |rounds| ==>
      |rounds[i].before| <= n && (t in rounds[i].after ==> t in rounds[i].before)
  }

  lemma TailRunsCheck<T>(rounds: seq<Round<T>>, seen: seq<Observation>, t: Ticket, failAfter: real, n: nat)
    requires Run(rounds) && Bounded(rounds, t, n) && RunsCheck(rounds, seen, t, failAfter) && rounds != []
    ensures Run(rounds[1..]) && Bounded(rounds[1..], t, n) && RunsCheck(rounds[1..], seen[1..], t, failAfter)
  {
    RunTail(rounds);
    forall i | 0 <= i < |rounds[1..]| && rounds[1..][i].Executes(t)
      ensures rounds[i+1].Executes(t)
    {}
  }

  /** A check that is over its time ends as soon as it runs. */
  lemma OverdueCheckEnds<T>(rounds: seq<Round<T>>, seen: seq<Observation>, t: Ticket, failAfter: real, n: nat)
      returns (j: nat)
    requires Run(rounds) && Bounded(rounds, t, n) && RunsCheck(rounds, seen, t, failAfter) && rounds != []
    requires t in rounds[0].before && rounds[0].before[t].due <= rounds[0].now + RETRY_DELAY
    requires failAfter <= rounds[0].now
    requires |rounds| >= 10 + n
    ensures j < 10 + n && Ends(rounds[j], seen[j], t, failAfter)
    ensures forall i :: 0 <= i < j ==> !Ends(rounds[i], seen[i], t, failAfter)
  {
    assert rounds[0].before.Keys != {};
    j := BoundedWaiting(rounds, t, 10, n);
    NowGrows(rounds, j);
    assert Links(rounds, j);
  }

  /** A check comes to its end within the time left, ten more seconds, and one turn of the queue. */
  lemma {:induction false} CheckComesToAnEnd<T>(rounds: seq<Round<T>>, seen: seq<Observation>, t: Ticket,
                                                failAfter: real, k: nat, n: nat) returns (j: nat)
    requires Run(rounds) && Bounded(rounds, t, n) && RunsCheck(rounds, seen, t, failAfter) && rounds != []
    requires t in rounds[0].before && rounds[0].before[t].due <= rounds[0].now + RETRY_DELAY
    requires failAfter <= rounds[0].now + k as real
    requires |rounds| >= k + 10 + n
    ensures j < k + 10 + n && Ends(rounds[j], seen[j], t, failAfter)
    ensures forall i :: 0 <= i < j ==> !Ends(rounds[i], seen[i], t, failAfter)
    decreases k
  {
    if k == 0 {
      j := OverdueCheckEnds(rounds, seen, t, failAfter, n);
    } else if Ends(rounds[0], seen[0], t, failAfter) {
      j := 0;
    } else {
      assert Links(rounds, 0) && Links(rounds, 1);
      TailRunsCheck(rounds, seen, t, failAfter, n);
      var i := CheckComesToAnEnd(rounds[1..], seen[1..], t, failAfter, k - 1, n);
      j := i + 1;
      assert rounds[j] == rounds[1..][i] && seen[j] == seen[1..][i];
      forall i | 0 <= i < j ensures !Ends(rounds[i], seen[i], t, failAfter) {
        if i > 0 { assert rounds[i] == rounds[1..][i-1] && seen[i] == seen[1..][i-1]; }
      }
    }
  }

  lemma {:induction false} NowGrows<T>(rounds: seq<Round<T>>, i: nat)
    requires Run(rounds) && i < |rounds|
    ensures rounds[0].now <= rounds[i].now
  {
    if i == 0 {
    } else {
      NowGrows(rounds, i - 1);
      assert Links(rounds, i - 1) && Links(rounds, i);
    }
  }

  /** Once the ticket has left the queue it never comes back. */
  lemma {:induction false} StaysGone<T>(rounds: seq<Round<T>>, t: Ticket, n: nat, j: nat, i: nat)
    requires Run(rounds) && Bounded(rounds, t, n) && j < i < |rounds|
    requires t !in rounds[j].after
    ensures t !in rounds[i].before && t !in rounds[i].after
    decreases i
  {
    if i == j + 1 {
      assert Links(rounds, i);
    } else {
      StaysGone(rounds, t, n, j, i - 1);
      assert Links(rounds, i);
    }
  }

  lemma {:induction false} NothingEmitted<T>(rounds: seq<Round<T>>, seen: seq<Observation>, t: Ticket, failAfter: real)
    requires |seen| == |rounds|
    requires forall i :: 0 <= i < |rounds| ==> !Ends(rounds[i], seen[i], t, failAfter)
    ensures Emitted(rounds, seen, t, failAfter) == []
    decreases |rounds|
  {
    if rounds == [] {
    } else {
      assert !Ends(rounds[0], seen[0], t, failAfter);
      assert forall i :: 0 <= i < |rounds[1..]| ==> rounds[1..][i] == rounds[i+1] && seen[1..][i] == seen[i+1];
      NothingEmitted(rounds[1..], seen[1..], t, failAfter);
    }
  }

  lemma {:induction false} OneEmitted<T>(rounds: seq<Round<T>>, seen: seq<Observation>, t: Ticket, failAfter: real, j: nat)
    requires |seen| == |rounds| && j < |rounds|
    requires forall i :: 0 <= i < |rounds| ==> (Ends(rounds[i], seen[i], t, failAfter) <==> i == j)
    ensures Emitted(rounds, seen, t, failAfter) == [Judge(failAfter, seen[j].ready, seen[j].clock)]
    decreases |rounds|
  {
    assert Ends(rounds[0], seen[0], t, failAfter) <==> 0 == j;
    assert forall i :: 0 <= i < |rounds[1..]| ==> rounds[1..][i] == rounds[i+1] && seen[1..][i] == seen[i+1];
    if j == 0 {
      NothingEmitted(rounds[1..], seen[1..], t, failAfter);
    } else {
      OneEmitted(rounds[1..], seen[1..], t, failAfter, j - 1);
    }
  }

  /** The first end of a check is its only one, and takes it off the queue for good. */
  lemma FirstEndIsOnlyEnd<T>(rounds: seq<Round<T>>, seen: seq<Observation>, t: Ticket, failAfter: real, j: nat, n: nat)
    requires Run(rounds) && Bounded(rounds, t, n) && RunsCheck(rounds, seen, t, failAfter) && j < |rounds|
    requires Ends(rounds[j], seen[j], t, failAfter)
    requires forall i :: 0 <= i < j ==> !Ends(rounds[i], seen[i], t, failAfter)
    ensures Emitted(rounds, seen, t, failAfter) == [Judge(failAfter, seen[j].ready, seen[j].clock)]
    ensures t !in rounds[|rounds|-1].after
  {
    assert t !in rounds[j].after by {
      assert Links(rounds, j) && rounds[j].Executes(t);
    }
    forall i | j < i < |rounds| ensures t !in rounds[i].before && t !in rounds[i].after {
      StaysGone(rounds, t, n, j, i);
    }
    OneEmitted(rounds, seen, t, failAfter, j);
  }

  /** The signals that the check sends during the rounds. */
  ghost function Sent<T, S>(rounds: seq<Round<T>>, seen: seq<Observation>, t: Ticket, failAfter: real, subject: S): seq<Signal<S>>
    requires |seen| == |rounds|
  {
    if rounds == [] then []
    else
      (if rounds[0].Executes(t) then SignalsOf(Judge(failAfter, seen[0].ready, seen[0].clock), subject) else [])
      + Sent(rounds[1..], seen[1..], t, failAfter, subject)
  }

  lemma {:induction false} VerdictsAreSent<T, S>(rounds: seq<Round<T>>, seen: seq<Observation>, t: Ticket, failAfter: real, subject: S)
    requires |seen| == |rounds| && |Emitted(rounds, seen, t, failAfter)| <= 1
    ensures var verdicts := Emitted(rounds, seen, t, failAfter);
            Sent(rounds, seen, t, failAfter, subject) == if verdicts == [] then [] else SignalsOf(verdicts[0], subject)
    decreases |rounds|
  {
    if rounds == [] {
    } else {
      var later := Emitted(rounds[1..], seen[1..], t, failAfter);
      if Ends(rounds[0], seen[0], t, failAfter) {
        assert Emitted(rounds, seen, t, failAfter) == [Judge(failAfter, seen[0].ready, seen[0].clock)] + later;
        assert later == [];
      } else {
        assert Emitted(rounds, seen, t, failAfter) == later;
        assert rounds[0].Executes(t) ==> SignalsOf(Judge(failAfter, seen[0].ready, seen[0].clock), subject) == [];
      }
      VerdictsAreSent(rounds[1..], seen[1..], t, failAfter, subject);
    }
  }

  /**
   Every ready check ends. A check that gives up within `limit` seconds of the first round reports
   exactly one of success and failure within limit + 10 + n iterations, where the queue never holds
   more than n entries, and is then gone from the queue for good.
   */
  lemma EveryCheckEnds<T>(rounds: seq<Round<T>>, seen: seq<Observation>, t: Ticket, failAfter: real, limit: nat, n: nat)
      returns (j: nat)
    requires Run(rounds) && Bounded(rounds, t, n) && RunsCheck(rounds, seen, t, failAfter) && rounds != []
    requires t in rounds[0].before && rounds[0].before[t].due <= rounds[0].now + RETRY_DELAY
    requires failAfter <= rounds[0].now + limit as real
    requires |rounds| >= limit + 10 + n
    ensures j < limit + 10 + n && Ends(rounds[j], seen[j], t, failAfter)
    ensures Emitted(rounds, seen, t, failAfter) == [Judge(failAfter, seen[j].ready, seen[j].clock)]
    ensures t !in rounds[|rounds|-1].after
  {
    j := CheckComesToAnEnd(rounds, seen, t, failAfter, limit, n);
    FirstEndIsOnlyEnd(rounds, seen, t, failAfter, j, n);
  }

  /** It signals exactly once: success if it then sees the deployment ready, failure if it is late, having waited until then. */
  lemma OneSignalIsSent<T, S>(rounds: seq<Round<T>>, seen: seq<Observation>, t: Ticket, failAfter: real, limit: nat, n: nat, subject: S)
      returns (j: nat)
    requires Run(rounds) && Bounded(rounds, t, n) && RunsCheck(rounds, seen, t, failAfter) && rounds != []
    requires t in rounds[0].before && rounds[0].before[t].due <= rounds[0].now + RETRY_DELAY
    requires failAfter <= rounds[0].now + limit as real
    requires |rounds| >= limit + 10 + n
    ensures j < limit + 10 + n && rounds[j].Executes(t)
    ensures Sent(rounds, seen, t, failAfter, subject) == [Signal(if seen[j].ready then SUCCESS else FAILED, subject)]
    ensures !seen[j].ready ==> seen[j].clock >= failAfter
    ensures forall i :: 0 <= i < j && rounds[i].Executes(t) ==> !seen[i].ready && seen[i].clock < failAfter
  {
    j := CheckComesToAnEnd(rounds, seen, t, failAfter, limit, n);
    FirstEndIsOnlyEnd(rounds, seen, t, failAfter, j, n);
    VerdictsAreSent(rounds, seen, t, failAfter, subject);
    forall i | 0 <= i < j && rounds[i].Executes(t) ensures !seen[i].ready && seen[i].clock < failAfter {
      assert !Ends(rounds[i], seen[i], t, failAfter);
    }
  }

  /** For a check created no later than the first round, that limit is its fail time. */
  lemma NewCheckEnds<T>(rounds: seq<Round<T>>, seen: seq<Observation>, t: Ticket, created: real, failAfter: real,
                        multiplier: nat, replicas: nat, delay: nat, limit: nat, n: nat) returns (j: nat)
    requires limit == FailTime(multiplier, replicas, delay) && failAfter == created + limit as real
    requires Run(rounds) && Bounded(rounds, t, n) && RunsCheck(rounds, seen, t, failAfter) && rounds != []
    requires created <= rounds[0].now
    requires t in rounds[0].before && rounds[0].before[t].due <= rounds[0].now + RETRY_DELAY
    requires |rounds| >= limit + 10 + n
    ensures limit == multiplier * delay * (if replicas == 0 then 1 else replicas)
    ensures j < limit + 10 + n && Ends(rounds[j], seen[j], t, failAfter)
    ensures Emitted(rounds, seen, t, failAfter) == [Judge(failAfter, seen[j].ready, seen[j].clock)]
  {
    j := EveryCheckEnds(rounds, seen, t, failAfter, limit, n);
  }
}
