/**
 The scheduler thread: an endless loop that takes the task with the smallest due time off a priority
 queue, runs it if it is due, and otherwise puts it back one second from now.

 A ticket is this model's name for a queue entry; it is kept when the entry is put back. Ties between
 due times are broken arbitrarily.
 */
module Scheduler {
  import Sets

  type Ticket = nat

  datatype Entry<T> = Entry(due: real, task: T)

  type Queue<T> = map<Ticket, Entry<T>>

  /** `Again` is a true result, `Done` a false one, `ApiError` a caught exception, `Fatal` any other one. */
  datatype Outcome = Again | Done | ApiError | Fatal

  const RETRY_DELAY := 10.0
  const DEFAULT_DELAY := 1.0
  const PAUSE := 1.0

  predicate IsEarliest<T>(q: Queue<T>, t: Ticket) {
    t in q && forall x :: x in q ==> q[t].due <= q[x].due
  }

  /** What one iteration makes of the queue: `read` is the clock at the due test, `readded` at the `add`. */
  function Requeue<T>(q: Queue<T>, t: Ticket, read: real, readded: real, outcome: Outcome): Queue<T>
    requires t in q
  {
    if read < q[t].due then q[t := q[t].(due := readded + DEFAULT_DELAY)]
    else if outcome.Again? then q[t := q[t].(due := readded + RETRY_DELAY)]
    else q - {t}
  }

  class Scheduler<T> {
    var tasks: Queue<T>
    var next: Ticket

    predicate Valid()
      reads this
    {
      forall t :: t in tasks ==> t < next
    }

    constructor ()
      ensures Valid() && tasks == map[]
    {
      tasks, next := map[], 0;
    }

    method Add(task: T, now: real, delay: real := DEFAULT_DELAY) returns (ticket: Ticket)
      requires Valid()
      modifies this
      ensures Valid() && ticket !in old(tasks) && tasks == old(tasks)[ticket := Entry(now + delay, task)]
    {
      ticket := next;
      tasks, next := tasks[ticket := Entry(now + delay, task)], next + 1;
    }

    /** One pass of the loop; the queue's `get` blocks until there is something to take. */
    method Iterate(read: real, readded: real, outcome: Outcome) returns (ticket: Ticket)
      requires Valid() && tasks != map[]
      modifies this
      ensures Valid() && IsEarliest(old(tasks), ticket)
      ensures tasks == Requeue(old(tasks), ticket, read, readded, outcome)
    {
      EarliestExists(tasks);
      ticket :| IsEarliest(tasks, ticket);
      var Entry(due, task) := tasks[ticket];
      tasks := tasks - {ticket};
      if read >= due {
        if outcome.Again? {
          tasks := tasks[ticket := Entry(readded + RETRY_DELAY, task)];
        }
      } else {
        tasks := tasks[ticket := Entry(readded + DEFAULT_DELAY, task)];
      }
    }
  }

  lemma {:induction false} EarliestExists<T>(q: Queue<T>)
    requires q != map[]
    ensures exists t :: IsEarliest(q, t)
    decreases |q|
  {
    var t :| t in q;
    var rest := q - {t};
    assert forall x :: x in q ==> x == t || (x in rest && rest[x] == q[x]);
    if rest == map[] {
      assert IsEarliest(q, t);
    } else {
      EarliestExists(rest);
      var e :| IsEarliest(rest, e);
      assert e in q && rest[e] == q[e];
      assert IsEarliest(q, if q[t].due <= q[e].due then t else e);
    }
  }

  // ---- Runs ----

  /**
   One iteration together with whatever other threads add before the next one takes from the queue.
   `now` is a time before the queue is read, `after` the queue that the next iteration finds.
   */
  datatype Round<T> = Round(before: Queue<T>, now: real, ticket: Ticket, read: real, readded: real,
                            outcome: Outcome, after: Queue<T>)
  {
    predicate Executes(t: Ticket) {
      ticket == t && t in before && before[t].due <= read
    }

    predicate Postpones() {
      ticket in before && read < before[ticket].due
    }
  }

  /** Entries added from outside are keyed at least a second after this iteration's start. */
  ghost predicate Step<T>(r: Round<T>) {
    && IsEarliest(r.before, r.ticket)
    && r.now <= r.read <= r.readded
    && var kept := Requeue(r.before, r.ticket, r.read, r.readded, r.outcome);
       && (forall x :: x in r.before ==> (x in r.after <==> x in kept))
       && (forall x :: x in kept ==> r.after[x] == kept[x])
       && (forall x :: x in r.after && x !in r.before ==> r.after[x].due >= r.now + DEFAULT_DELAY)
  }

  /** The loop sleeps for a second between iterations, and only a fatal exception ends it. */
  ghost predicate Follows<T>(r: Round<T>, next: Round<T>) {
    next.before == r.after && next.now >= r.readded + PAUSE && !(r.outcome.Fatal? && !r.Postpones())
  }

  ghost predicate Links<T>(rounds: seq<Round<T>>, i: nat)
    requires i < |rounds|
  {
    Step(rounds[i]) && (i > 0 ==> Follows(rounds[i-1], rounds[i]))
  }

  ghost predicate Run<T>(rounds: seq<Round<T>>) {
    forall i :: 0 <= i < |rounds| ==> Links(rounds, i)
  }

  ghost predicate NoOutsideAdds<T>(rounds: seq<Round<T>>) {
    forall i :: 0 <= i < |rounds| ==> rounds[i].after.Keys <= rounds[i].before.Keys
  }

  lemma RunTail<T>(rounds: seq<Round<T>>)
    requires Run(rounds) && rounds != []
    ensures Run(rounds[1..])
  {
    forall i | 0 <= i < |rounds[1..]| ensures Links(rounds[1..], i) {
      assert Links(rounds, i + 1);
    }
  }

  /** The other entries that an entry may still have to wait for. */
  ghost function Ahead<T>(q: Queue<T>, t: Ticket): set<Ticket>
    requires t in q
  {
    set x | x in q && x != t && q[x].due <= q[t].due
  }

  /** Once due, an entry can no longer be overtaken: it runs after at most the entries now ahead of it. */
  lemma {:induction false} DueEntryRuns<T>(rounds: seq<Round<T>>, t: Ticket) returns (j: nat)
    requires Run(rounds) && rounds != []
    requires t in rounds[0].before && rounds[0].before[t].due <= rounds[0].now
    requires |rounds| > |Ahead(rounds[0].before, t)|
    ensures j <= |Ahead(rounds[0].before, t)| && rounds[j].Executes(t)
    ensures forall i :: 0 <= i < j ==> !rounds[i].Executes(t)
    decreases |Ahead(rounds[0].before, t)|
  {
    var r := rounds[0];
    assert Links(rounds, 0);
    if r.ticket == t {
      return 0;
    }
    assert r.ticket in Ahead(r.before, t);
    var smaller := Ahead(r.before, t) - {r.ticket};
    assert |smaller| < |Ahead(r.before, t)|;
    assert Ahead(r.after, t) <= smaller;
    Sets.SubsetSize(Ahead(r.after, t), smaller);
    assert Links(rounds, 1);
    RunTail(rounds);
    var i := DueEntryRuns(rounds[1..], t);
    j := i + 1;
    forall i | 0 <= i < j ensures !rounds[i].Executes(t) {
      if i > 0 { assert rounds[i] == rounds[1..][i-1]; }
    }
  }


  lemma DueEntryRunsWithin<T>(rounds: seq<Round<T>>, t: Ticket, n: nat) returns (j: nat)
    requires Run(rounds) && rounds != []
    requires t in rounds[0].before && rounds[0].before[t].due <= rounds[0].now
    requires |rounds[0].before| <= n <= |rounds|
    ensures j < n && rounds[j].Executes(t)
    ensures forall i :: 0 <= i < j ==> !rounds[i].Executes(t)
  {
    var others := rounds[0].before.Keys - {t};
    Sets.SubsetSize(Ahead(rounds[0].before, t), others);
    assert |others| < |rounds[0].before.Keys| == |rounds[0].before|;
    j := DueEntryRuns(rounds, t);
  }

  /**
   Bounded waiting. An entry due in k seconds runs within k + n iterations, where n bounds the length
   of the queue during the first k of them, whatever the other tasks do.
   */
  lemma {:induction false} BoundedWaiting<T>(rounds: seq<Round<T>>, t: Ticket, k: nat, n: nat) returns (j: nat)
    requires Run(rounds) && |rounds| >= k + n && n > 0
    requires t in rounds[0].before && rounds[0].before[t].due <= rounds[0].now + k as real
    requires forall i :: 0 <= i <= k && i < |rounds| ==> |rounds[i].before| <= n
    ensures j < k + n && rounds[j].Executes(t)
    ensures forall i :: 0 <= i < j ==> !rounds[i].Executes(t)
    decreases k
  {
    var r := rounds[0];
    assert Links(rounds, 0);
    if r.before[t].due <= r.now {
      j := DueEntryRunsWithin(rounds, t, n);
    } else if r.Executes(t) {
      j := 0;
    } else {
      var tail := rounds[1..];
      WaitsOneRoundLess(rounds, t, k);
      var i := BoundedWaiting(tail, t, k - 1, n);
      j := i + 1;
      assert rounds[j] == tail[i];
      forall i | 0 <= i < j ensures !rounds[i].Executes(t) {
        if i > 0 { assert rounds[i] == tail[i-1]; }
      }
    }
  }

  lemma WaitsOneRoundLess<T>(rounds: seq<Round<T>>, t: Ticket, k: nat)
    requires Run(rounds) && |rounds| > 1
    requires t in rounds[0].before && rounds[0].now < rounds[0].before[t].due <= rounds[0].now + k as real
    requires !rounds[0].Executes(t)
    ensures k > 0 && Run(rounds[1..])
    ensures t in rounds[1].before && rounds[1].before[t].due <= rounds[1].now + (k - 1) as real
  {
    assert k > 0;
    assert Links(rounds, 0) && Links(rounds, 1);
    RunTail(rounds);
  }

  /** Without outside adds the queue never grows, so its first length serves as the bound. */
  lemma {:induction false} QueueNeverGrows<T>(rounds: seq<Round<T>>, i: nat)
    requires Run(rounds) && NoOutsideAdds(rounds) && i < |rounds|
    ensures |rounds[i].before| <= |rounds[0].before|
  {
    if i == 0 {
    } else {
      QueueNeverGrows(rounds, i - 1);
      assert Links(rounds, i);
      Sets.SubsetSize(rounds[i].before.Keys, rounds[i-1].before.Keys);
      assert |rounds[i].before| == |rounds[i].before.Keys| && |rounds[i-1].before| == |rounds[i-1].before.Keys|;
    }
  }

  lemma BoundedWaitingAlone<T>(rounds: seq<Round<T>>, t: Ticket, k: nat) returns (j: nat)
    requires Run(rounds) && NoOutsideAdds(rounds) && rounds != []
    requires t in rounds[0].before && rounds[0].before[t].due <= rounds[0].now + k as real
    requires |rounds| >= k + |rounds[0].before|
    ensures j < k + |rounds[0].before| && rounds[j].Executes(t)
    ensures forall i :: 0 <= i < j ==> !rounds[i].Executes(t)
  {
    forall i | 0 <= i < |rounds| ensures |rounds[i].before| <= |rounds[0].before| {
      QueueNeverGrows(rounds, i);
    }
    assert rounds[0].before.Keys != {};
    j := BoundedWaiting(rounds, t, k, |rounds[0].before|);
  }

  /** Of two consecutive iterations at least one runs a task. */
  lemma NeverPostponesTwice<T>(rounds: seq<Round<T>>, i: nat)
    requires Run(rounds) && i + 1 < |rounds|
    ensures !(rounds[i].Postpones() && rounds[i+1].Postpones())
  {
    var r, r' := rounds[i], rounds[i+1];
    assert Links(rounds, i) && Links(rounds, i + 1);
    if r.Postpones() {
      assert r'.before[r.ticket].due == r.readded + DEFAULT_DELAY;
    }
  }

  /** The round takes the entry off the queue before its time, and puts it back for an earlier time than d. */
  predicate Hastens<T>(r: Round<T>, t: Ticket, d: real) {
    r.ticket == t && r.Postpones() && r.readded + DEFAULT_DELAY < d
  }

  /** An entry that has not run keeps its due time, or has been put back and is due. */
  lemma {:induction false} KeepsDueOrIsDue<T>(rounds: seq<Round<T>>, t: Ticket, j: nat)
    requires Run(rounds) && j < |rounds| && t in rounds[0].before
    requires forall i :: 0 <= i < j ==> !rounds[i].Executes(t)
    ensures t in rounds[j].before
    ensures rounds[j].before[t].due == rounds[0].before[t].due || rounds[j].before[t].due <= rounds[j].now
    decreases j
  {
    if j == 0 {
    } else {
      KeepsDueOrIsDue(rounds, t, j - 1);
      assert Links(rounds, j - 1) && Links(rounds, j);
    }
  }

  /**
   An entry that has not run is due before its original time exactly if some iteration took it off the
   queue and put it back for an earlier time.
   */
  lemma {:induction false} DelayIsKeptUnlessHastened<T>(rounds: seq<Round<T>>, t: Ticket, j: nat)
    requires Run(rounds) && j < |rounds| && t in rounds[0].before
    requires forall i :: 0 <= i < j ==> !rounds[i].Executes(t)
    ensures t in rounds[j].before
    ensures rounds[j].before[t].due < rounds[0].before[t].due <==>
              exists i :: 0 <= i < j && Hastens(rounds[i], t, rounds[0].before[t].due)
    decreases j
  {
    if j == 0 {
    } else {
      var d := rounds[0].before[t].due;
      DelayIsKeptUnlessHastened(rounds, t, j - 1);
      KeepsDueOrIsDue(rounds, t, j - 1);
      assert Links(rounds, j - 1) && Links(rounds, j);
      if rounds[j].before[t].due < d && !(rounds[j-1].before[t].due < d) {
        assert Hastens(rounds[j-1], t, d);
      }
    }
  }

  /** So a task runs no earlier than it was meant to, unless it was put back for an earlier time. */
  lemma FirstRunIsNotEarly<T>(rounds: seq<Round<T>>, t: Ticket, j: nat)
    requires Run(rounds) && j < |rounds| && t in rounds[0].before
    requires rounds[j].Executes(t) && forall i :: 0 <= i < j ==> !rounds[i].Executes(t)
    requires forall i :: 0 <= i < j ==> !Hastens(rounds[i], t, rounds[0].before[t].due)
    ensures rounds[j].read >= rounds[0].before[t].due
  {
    DelayIsKeptUnlessHastened(rounds, t, j);
  }

  /**
   What a round does to the entry that it takes: a postponed task comes back in a second, a task that
   asks for it ten seconds after it ran, and any other one does not come back. No other entry changes.
   */
  lemma RoundIsExact<T>(r: Round<T>)
    requires Step(r)
    ensures r.Postpones() || r.Executes(r.ticket)
    ensures r.ticket in r.after <==> r.Postpones() || r.outcome == Again
    ensures r.ticket in r.after ==> r.after[r.ticket].task == r.before[r.ticket].task
    ensures r.Postpones() ==> r.after[r.ticket].due == r.readded + 1.0
    ensures !r.Postpones() && r.outcome == Again ==> r.after[r.ticket].due == r.readded + 10.0
    ensures forall x :: x in r.before && x != r.ticket ==> x in r.after && r.after[x] == r.before[x]
  {}

  /** A task that asks to be run again waits its ten seconds, unless it is put back for an earlier time. */
  lemma RetryWaitsTenSeconds<T>(rounds: seq<Round<T>>, t: Ticket, j: nat)
    requires Run(rounds) && 0 < j < |rounds|
    requires rounds[0].Executes(t) && rounds[0].outcome == Again
    requires rounds[j].Executes(t) && forall i :: 0 < i < j ==> !rounds[i].Executes(t)
    requires forall i :: 0 < i < j ==> !Hastens(rounds[i], t, rounds[0].readded + 10.0)
    ensures rounds[j].read >= rounds[0].readded + 10.0
  {
    var tail := rounds[1..];
    RunTail(rounds);
    assert Links(rounds, 0) && Links(rounds, 1);
    RoundIsExact(rounds[0]);
    assert tail[0].before[t].due == rounds[0].readded + 10.0;
    forall i | 0 <= i < j - 1 ensures !tail[i].Executes(t) && !Hastens(tail[i], t, rounds[0].readded + 10.0) {
      assert tail[i] == rounds[i+1];
    }
    assert tail[j-1] == rounds[j];
    FirstRunIsNotEarly(tail, t, j - 1);
  }

  /** A task that is finished, or raises a client error, is not run again. */
  lemma {:induction false} DroppedTaskIsGone<T>(rounds: seq<Round<T>>, t: Ticket, i: nat)
    requires Run(rounds) && NoOutsideAdds(rounds) && 0 < i < |rounds|
    requires rounds[0].Executes(t) && (rounds[0].outcome == Done || rounds[0].outcome == ApiError)
    ensures t !in rounds[i].before
    decreases i
  {
    if i == 1 {
      assert Links(rounds, 0) && Links(rounds, 1);
      RoundIsExact(rounds[0]);
    } else {
      DroppedTaskIsGone(rounds, t, i - 1);
      assert Links(rounds, i);
    }
  }

  /** A postponed entry comes up a second later, however late it was meant to be: its due time is forgotten. */
  lemma RetryDelayIsForgotten()
    ensures
      var q := map[0 := Entry(RETRY_DELAY, "check")];
      exists rounds: seq<Round<string>> ::
        && Run(rounds) && |rounds| == 2 && rounds[0].before == q && rounds[0].now == 0.0
        && rounds[1].Executes(0) && rounds[1].read == 1.0
  {
    var q := map[0 := Entry(RETRY_DELAY, "check")];
    var q' := map[0 := Entry(1.0, "check")];
    var first := Round(q, 0.0, 0, 0.0, 0.0, Done, q');
    var second := Round(q', 1.0, 0, 1.0, 1.0, Done, map[]);
    assert Requeue(q, 0, 0.0, 0.0, Done) == q';
    var rounds := [first, second];
    assert Links(rounds, 0) && Links(rounds, 1);
  }

  /** An iteration of the class, followed by outside adds, is a step of the run model. */
  lemma IterateIsStep<T>(r: Round<T>)
    requires IsEarliest(r.before, r.ticket) && r.now <= r.read <= r.readded
    requires r.after == Requeue(r.before, r.ticket, r.read, r.readded, r.outcome)
    ensures Step(r) && r.after.Keys <= r.before.Keys
  {}
}
