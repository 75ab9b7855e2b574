/**
 The deploy pipeline as a state machine: the watcher, the deployer and the scheduler are threads that
 share a deploy queue and the scheduler's queue, and take atomic steps in any order.

 Every call to a signal's receivers may raise. `Api` stands for the client exceptions that the
 deployer and the scheduler catch, `Other` for anything else.
 */
module Pipeline {
  import opened Lifecycle

  type Id = nat

  datatype Raise = Quiet | Api | Other

  datatype Watcher = WatcherIdle | Parsing(id: Id)
  datatype Duty = NoDuty | ToStart | ToDeploy | ToSucceed | ToFail
  datatype Deployer = DeployerIdle | Holding(held: Id, duty: Duty) | DeployerDead
  datatype Checker = CheckerIdle | Checking(id: Id) | CheckerDead

  /**
   `next` counts the subjects created so far, `over` holds those that no thread will touch again, and
   `bounced` records those whose SUCCESS signal raised while the deployer was sending it.
   */
  datatype State = State(next: Id, sent: seq<Signal<Id>>, watcher: Watcher, deployQueue: seq<Id>,
                         deployer: Deployer, checks: set<Id>, checker: Checker, over: set<Id>, bounced: set<Id>)

  const INIT := State(0, [], WatcherIdle, [], DeployerIdle, {}, CheckerIdle, {}, {})

  datatype Event =
    | Initiate(raise: Raise)       // the watcher creates a subject
    | Enqueue                      // its configuration parsed
    | RejectConfig(raise: Raise)   // its configuration is invalid
    | CrashParse                   // parsing raised something else
    | Take                         // the deployer gets the next event
    | Start(raise: Raise)
    | Deploy(fails: bool)
    | Succeed(raise: Raise)        // the daemon's own deployment is not checked
    | Fail(raise: Raise)
    | Pick(id: Id)                 // the scheduler takes a due check
    | Recheck                      // it has to wait
    | Conclude(ready: bool, raise: Raise)
    | CrashCheck(raise: Raise)     // looking at the deployment raised

  predicate Enabled(s: State, e: Event) {
    match e
    case Initiate(_) => s.watcher.WatcherIdle?
    case Enqueue => s.watcher.Parsing?
    case RejectConfig(_) => s.watcher.Parsing?
    case CrashParse => s.watcher.Parsing?
    case Take => s.deployer.DeployerIdle? && s.deployQueue != []
    case Start(_) => s.deployer.Holding? && s.deployer.duty == ToStart
    case Deploy(_) => s.deployer.Holding? && s.deployer.duty == ToDeploy
    case Succeed(_) => s.deployer.Holding? && s.deployer.duty == ToSucceed
    case Fail(_) => s.deployer.Holding? && s.deployer.duty == ToFail
    case Pick(id) => s.checker.CheckerIdle? && id in s.checks
    case Recheck => s.checker.Checking?
    case Conclude(_, _) => s.checker.Checking?
    case CrashCheck(raise) => s.checker.Checking? && !raise.Quiet?
  }

  function Send(s: State, status: Status, id: Id): State {
    s.(sent := s.sent + [Signal(status, id)])
  }

  function End(s: State, id: Id): State {
    s.(over := s.over + {id})
  }

  /** `own(id)` says that the subject is a deployment of the daemon itself. */
  function Apply(own: Id -> bool, s: State, e: Event): State
    requires Enabled(s, e)
  {
    match e
    case Initiate(raise) =>
      var s' := Send(s, INITIATED, s.next).(next := s.next + 1);
      if raise.Quiet? then s'.(watcher := Parsing(s.next)) else End(s', s.next)
    case Enqueue =>
      s.(watcher := WatcherIdle, deployQueue := s.deployQueue + [s.watcher.id])
    case RejectConfig(_) =>
      End(Send(s, FAILED, s.watcher.id), s.watcher.id).(watcher := WatcherIdle)
    case CrashParse =>
      End(s, s.watcher.id).(watcher := WatcherIdle)
    case Take =>
      s.(deployer := Holding(s.deployQueue[0], ToStart), deployQueue := s.deployQueue[1..])
    case Start(raise) =>
      var id := s.deployer.held;
      Send(s, STARTED, id).(deployer := if raise.Quiet? then Holding(id, ToDeploy) else Holding(id, ToFail))
    case Deploy(fails) =>
      var id := s.deployer.held;
      if fails then s.(deployer := Holding(id, ToFail))
      else if own(id) then s.(deployer := Holding(id, ToSucceed))
      else s.(deployer := DeployerIdle, checks := s.checks + {id})
    case Succeed(raise) =>
      var id := s.deployer.held;
      var s' := Send(s, SUCCESS, id);
      if raise.Quiet? then End(s', id).(deployer := DeployerIdle)
      else s'.(deployer := Holding(id, ToFail), bounced := s.bounced + {id})
    case Fail(raise) =>
      var id := s.deployer.held;
      End(Send(s, FAILED, id), id).(deployer := if raise.Other? then DeployerDead else DeployerIdle)
    case Pick(id) =>
      s.(checker := Checking(id), checks := s.checks - {id})
    case Recheck =>
      s.(checker := CheckerIdle, checks := s.checks + {s.checker.id})
    case Conclude(ready, raise) =>
      var id := s.checker.id;
      End(Send(s, if ready then SUCCESS else FAILED, id), id).(checker := if raise.Other? then CheckerDead else CheckerIdle)
    case CrashCheck(raise) =>
      End(s, s.checker.id).(checker := if raise.Other? then CheckerDead else CheckerIdle)
  }

  /** The machine allows these events in this order, starting from s. */
  ghost predicate Possible(own: Id -> bool, s: State, events: seq<Event>)
    decreases |events|
  {
    events == [] || (Enabled(s, events[0]) && Possible(own, Apply(own, s, events[0]), events[1..]))
  }

  ghost function Exec(own: Id -> bool, s: State, events: seq<Event>): State
    requires Possible(own, s, events)
    decreases |events|
  {
    if events == [] then s else Exec(own, Apply(own, s, events[0]), events[1..])
  }

  // ---- Where a subject is, and what has been signalled about it ----

  function If(b: bool): nat { if b then 1 else 0 }

  function DutyOf(d: Deployer, id: Id): Duty {
    if d.Holding? && d.held == id then d.duty else NoDuty
  }

  /** Everything the state says about one subject. */
  datatype Spot = Spot(known: bool, parsing: bool, queued: nat, duty: Duty, waiting: bool, checking: bool,
                       over: bool, bounced: bool, history: seq<Status>)
  {
    /** The number of places in the pipeline that hold the subject. */
    function Places(): nat {
      If(parsing) + queued + If(duty != NoDuty) + If(waiting) + If(checking) + If(over)
    }

    predicate HistoryFits(own: bool) {
      if !known then history == [] && !bounced
      else if bounced then own && (if over then history == BOUNCED else duty == ToFail && history == SUCCEEDED)
      else if over then Settled(history)
      else if parsing || queued > 0 || duty == ToStart then history == CREATED
      else history == BEGUN
    }

    predicate Fits(own: bool) {
      Places() == If(known) && HistoryFits(own) && (duty == ToSucceed ==> own)
    }
  }

  function SpotOf(s: State, id: Id): Spot {
    Spot(id < s.next, s.watcher == Parsing(id), multiset(s.deployQueue)[id], DutyOf(s.deployer, id), id in s.checks,
         s.checker == Checking(id), id in s.over, id in s.bounced, History(s.sent, id))
  }

  function History(sent: seq<Signal<Id>>, id: Id): seq<Status> {
    if sent == [] then []
    else
      var last := sent[|sent|-1];
      History(sent[..|sent|-1], id) + if last.subject == id then [last.status] else []
  }

  const CREATED := [INITIATED]
  const REJECTED := CREATED + [FAILED]
  const BEGUN := CREATED + [STARTED]
  const SUCCEEDED := BEGUN + [SUCCESS]
  const BROKEN := BEGUN + [FAILED]
  const BOUNCED := SUCCEEDED + [FAILED]

  predicate Settled(h: seq<Status>) {
    h == CREATED || h == REJECTED || h == BEGUN || h == SUCCEEDED || h == BROKEN
  }

  ghost predicate Inv(own: Id -> bool, s: State) {
    forall id: Id :: SpotOf(s, id).Fits(own(id))
  }

  lemma SendHistory(s: State, status: Status, id: Id)
    ensures History(Send(s, status, id).sent, id) == History(s.sent, id) + [status]
    ensures forall other :: other != id ==> History(Send(s, status, id).sent, other) == History(s.sent, other)
  {}

  /** The one subject that an event is about. */
  function Actor(s: State, e: Event): Id
    requires Enabled(s, e)
  {
    match e
    case Initiate(_) => s.next
    case Enqueue => s.watcher.id
    case RejectConfig(_) => s.watcher.id
    case CrashParse => s.watcher.id
    case Take => s.deployQueue[0]
    case Start(_) => s.deployer.held
    case Deploy(_) => s.deployer.held
    case Succeed(_) => s.deployer.held
    case Fail(_) => s.deployer.held
    case Pick(id) => id
    case Recheck => s.checker.id
    case Conclude(_, _) => s.checker.id
    case CrashCheck(_) => s.checker.id
  }

  /** What an event does to the subject it is about. */
  function Move(own: bool, e: Event, p: Spot): Spot {
    match e
    case Initiate(raise) => p.(known := true, history := p.history + [INITIATED], parsing := raise.Quiet?, over := !raise.Quiet?)
    case Enqueue => p.(parsing := false, queued := p.queued + 1)
    case RejectConfig(_) => p.(parsing := false, history := p.history + [FAILED], over := true)
    case CrashParse => p.(parsing := false, over := true)
    case Take => p.(queued := if p.queued > 0 then p.queued - 1 else 0, duty := ToStart)
    case Start(raise) => p.(history := p.history + [STARTED], duty := if raise.Quiet? then ToDeploy else ToFail)
    case Deploy(fails) =>
      if fails then p.(duty := ToFail) else if own then p.(duty := ToSucceed) else p.(duty := NoDuty, waiting := true)
    case Succeed(raise) =>
      if raise.Quiet? then p.(history := p.history + [SUCCESS], duty := NoDuty, over := true)
      else p.(history := p.history + [SUCCESS], duty := ToFail, bounced := true)
    case Fail(_) => p.(history := p.history + [FAILED], duty := NoDuty, over := true)
    case Pick(_) => p.(waiting := false, checking := true)
    case Recheck => p.(waiting := true, checking := false)
    case Conclude(ready, _) =>
      p.(history := p.history + [if ready then SUCCESS else FAILED], checking := false, over := true)
    case CrashCheck(_) => p.(checking := false, over := true)
  }

  lemma InvHolds(own: Id -> bool, s: State, e: Event)
    requires Inv(own, s) && Enabled(s, e)
    ensures Inv(own, Apply(own, s, e))
  {
    var actor := Actor(s, e);
    forall id: Id ensures SpotOf(Apply(own, s, e), id).Fits(own(id)) {
      assert SpotOf(s, id).Fits(own(id));
      if id == actor {
        ActorMoves(own, s, e);
        ActorIsReady(own, s, e);
        MoveKeepsFit(own(actor), e, SpotOf(s, actor));
      } else {
        OthersStay(own, s, e, id);
      }
    }
  }

  lemma QueueCounts(own: Id -> bool, s: State, e: Event, id: Id)
    requires Enabled(s, e)
    ensures var before, after := multiset(s.deployQueue)[id], multiset(Apply(own, s, e).deployQueue)[id];
            && (e.Enqueue? ==> after == before + If(id == s.watcher.id))
            && (e.Take? ==> before == after + If(id == s.deployQueue[0]))
            && (!e.Enqueue? && !e.Take? ==> after == before)
  {
    match e {
      case Enqueue =>
        assert multiset(s.deployQueue + [s.watcher.id]) == multiset(s.deployQueue) + multiset{s.watcher.id};
      case Take =>
        assert s.deployQueue == [s.deployQueue[0]] + s.deployQueue[1..];
        assert multiset(s.deployQueue) == multiset{s.deployQueue[0]} + multiset(s.deployQueue[1..]);
      case _ =>
    }
  }

  /** The status that an event signals, if any. */
  function SentBy(e: Event): seq<Status> {
    match e
    case Initiate(_) => [INITIATED]
    case RejectConfig(_) => [FAILED]
    case Start(_) => [STARTED]
    case Succeed(_) => [SUCCESS]
    case Fail(_) => [FAILED]
    case Conclude(ready, _) => [if ready then SUCCESS else FAILED]
    case _ => []
  }

  lemma HistoryMoves(own: Id -> bool, s: State, e: Event, id: Id)
    requires Enabled(s, e)
    ensures History(Apply(own, s, e).sent, id) == History(s.sent, id) + if id == Actor(s, e) then SentBy(e) else []
  {
    var actor := Actor(s, e);
    if SentBy(e) != [] {
      SendHistory(s, SentBy(e)[0], actor);
      assert Apply(own, s, e).sent == Send(s, SentBy(e)[0], actor).sent;
    }
  }

  lemma WatcherOthersStay(own: Id -> bool, s: State, e: Event, id: Id)
    requires Enabled(s, e) && id != Actor(s, e) && (e.Initiate? || e.Enqueue? || e.RejectConfig? || e.CrashParse?)
    ensures SpotOf(Apply(own, s, e), id) == SpotOf(s, id)
  {}

  lemma WatcherActorMoves(own: Id -> bool, s: State, e: Event)
    requires Enabled(s, e) && (e.Initiate? || e.Enqueue? || e.RejectConfig? || e.CrashParse?)
    requires SpotOf(s, Actor(s, e)).Fits(own(Actor(s, e)))
    ensures SpotOf(Apply(own, s, e), Actor(s, e)) == Move(own(Actor(s, e)), e, SpotOf(s, Actor(s, e)))
  {}

  lemma TakeOthersStay(own: Id -> bool, s: State, e: Event, id: Id)
    requires Enabled(s, e) && id != Actor(s, e) && e.Take?
    ensures SpotOf(Apply(own, s, e), id) == SpotOf(s, id)
  {
    QueueCounts(own, s, e, id);
    assert Apply(own, s, e).sent == s.sent;
  }

  lemma TakeActorMoves(own: Id -> bool, s: State, e: Event)
    requires Enabled(s, e) && e.Take?
    requires SpotOf(s, Actor(s, e)).Fits(own(Actor(s, e)))
    ensures SpotOf(Apply(own, s, e), Actor(s, e)) == Move(own(Actor(s, e)), e, SpotOf(s, Actor(s, e)))
  {
    QueueCounts(own, s, e, Actor(s, e));
    assert Apply(own, s, e).sent == s.sent;
  }

  lemma DeployOthersStay(own: Id -> bool, s: State, e: Event, id: Id)
    requires Enabled(s, e) && id != Actor(s, e) && e.Deploy?
    ensures SpotOf(Apply(own, s, e), id) == SpotOf(s, id)
  {}

  lemma DeployActorMoves(own: Id -> bool, s: State, e: Event)
    requires Enabled(s, e) && e.Deploy?
    requires SpotOf(s, Actor(s, e)).Fits(own(Actor(s, e)))
    ensures SpotOf(Apply(own, s, e), Actor(s, e)) == Move(own(Actor(s, e)), e, SpotOf(s, Actor(s, e)))
  {}

  lemma ReportOthersStay(own: Id -> bool, s: State, e: Event, id: Id)
    requires Enabled(s, e) && id != Actor(s, e) && (e.Start? || e.Succeed? || e.Fail?)
    ensures SpotOf(Apply(own, s, e), id) == SpotOf(s, id)
  {}

  lemma ReportActorMoves(own: Id -> bool, s: State, e: Event)
    requires Enabled(s, e) && (e.Start? || e.Succeed? || e.Fail?)
    requires SpotOf(s, Actor(s, e)).Fits(own(Actor(s, e)))
    ensures SpotOf(Apply(own, s, e), Actor(s, e)) == Move(own(Actor(s, e)), e, SpotOf(s, Actor(s, e)))
  {
    var s' := Apply(own, s, e);
    assert s'.deployQueue == s.deployQueue;
    HistoryMoves(own, s, e, Actor(s, e));
  }

  lemma CheckerOthersStay(own: Id -> bool, s: State, e: Event, id: Id)
    requires Enabled(s, e) && id != Actor(s, e) && (e.Pick? || e.Recheck? || e.Conclude? || e.CrashCheck?)
    ensures SpotOf(Apply(own, s, e), id) == SpotOf(s, id)
  {}

  lemma CheckerActorMoves(own: Id -> bool, s: State, e: Event)
    requires Enabled(s, e) && (e.Pick? || e.Recheck? || e.Conclude? || e.CrashCheck?)
    requires SpotOf(s, Actor(s, e)).Fits(own(Actor(s, e)))
    ensures SpotOf(Apply(own, s, e), Actor(s, e)) == Move(own(Actor(s, e)), e, SpotOf(s, Actor(s, e)))
  {}

  lemma OthersStay(own: Id -> bool, s: State, e: Event, id: Id)
    requires Enabled(s, e) && id != Actor(s, e)
    ensures SpotOf(Apply(own, s, e), id) == SpotOf(s, id)
  {
    if e.Initiate? || e.Enqueue? || e.RejectConfig? || e.CrashParse? {
      WatcherOthersStay(own, s, e, id);
    } else if e.Take? {
      TakeOthersStay(own, s, e, id);
    } else if e.Deploy? {
      DeployOthersStay(own, s, e, id);
    } else if e.Start? || e.Succeed? || e.Fail? {
      ReportOthersStay(own, s, e, id);
    } else {
      CheckerOthersStay(own, s, e, id);
    }
  }

  lemma ActorMoves(own: Id -> bool, s: State, e: Event)
    requires Enabled(s, e) && SpotOf(s, Actor(s, e)).Fits(own(Actor(s, e)))
    ensures SpotOf(Apply(own, s, e), Actor(s, e)) == Move(own(Actor(s, e)), e, SpotOf(s, Actor(s, e)))
  {
    if e.Initiate? || e.Enqueue? || e.RejectConfig? || e.CrashParse? {
      WatcherActorMoves(own, s, e);
    } else if e.Take? {
      TakeActorMoves(own, s, e);
    } else if e.Deploy? {
      DeployActorMoves(own, s, e);
    } else if e.Start? || e.Succeed? || e.Fail? {
      ReportActorMoves(own, s, e);
    } else {
      CheckerActorMoves(own, s, e);
    }
  }

  /** The subject is where the event needs it to be. */
  predicate Ready(own: bool, e: Event, p: Spot) {
    match e
    case Initiate(_) => !p.known
    case Enqueue => p.parsing
    case RejectConfig(_) => p.parsing
    case CrashParse => p.parsing
    case Take => p.queued > 0
    case Start(_) => p.duty == ToStart
    case Deploy(_) => p.duty == ToDeploy
    case Succeed(_) => p.duty == ToSucceed
    case Fail(_) => p.duty == ToFail
    case Pick(_) => p.waiting
    case _ => p.checking
  }

  lemma MoveKeepsFit(own: bool, e: Event, p: Spot)
    requires p.Fits(own) && Ready(own, e, p)
    ensures Move(own, e, p).Fits(own)
  {}

  // ---- Every interleaving ----

  lemma {:induction false} InvAlways(own: Id -> bool, s: State, events: seq<Event>)
    requires Inv(own, s) && Possible(own, s, events)
    ensures Inv(own, Exec(own, s, events))
    decreases |events|
  {
    if events == [] {
    } else {
      InvHolds(own, s, events[0]);
      InvAlways(own, Apply(own, s, events[0]), events[1..]);
    }
  }

  lemma InitInv(own: Id -> bool)
    ensures Inv(own, INIT)
  {}

  /** At every point of every run, a subject that exists is in exactly one place, and no other is anywhere. */
  lemma EachSubjectIsInOnePlace(own: Id -> bool, events: seq<Event>, id: Id)
    requires Possible(own, INIT, events)
    ensures SpotOf(Exec(own, INIT, events), id).Places() == If(id < Exec(own, INIT, events).next)
  {
    InitInv(own);
    InvAlways(own, INIT, events);
    assert SpotOf(Exec(own, INIT, events), id).Fits(own(id));
  }

  /** A prefix of one of the two orders in which a deployment is meant to be reported. */
  predicate WellReported(h: seq<Status>) {
    h <= [INITIATED, STARTED, SUCCESS] || h <= [INITIATED, STARTED, FAILED] || h <= [INITIATED, FAILED]
  }

  /** In the run, receivers raise while the deployer reports the subject as a success. */
  ghost predicate SuccessRaises(own: Id -> bool, s: State, events: seq<Event>, id: Id)
    requires Possible(own, s, events)
    decreases |events|
  {
    events != [] &&
    (|| (events[0].Succeed? && !events[0].raise.Quiet? && Actor(s, events[0]) == id)
     || SuccessRaises(own, Apply(own, s, events[0]), events[1..], id))
  }

  /** In the run, the deployer reports the subject as a failure. */
  ghost predicate FailureReported(own: Id -> bool, s: State, events: seq<Event>, id: Id)
    requires Possible(own, s, events)
    decreases |events|
  {
    events != [] &&
    (|| (events[0].Fail? && Actor(s, events[0]) == id)
     || FailureReported(own, Apply(own, s, events[0]), events[1..], id))
  }

  lemma {:induction false} BouncedExactly(own: Id -> bool, s: State, events: seq<Event>, id: Id)
    requires Possible(own, s, events)
    ensures id in Exec(own, s, events).bounced <==> id in s.bounced || SuccessRaises(own, s, events, id)
    decreases |events|
  {
    if events == [] {
    } else {
      BouncedExactly(own, Apply(own, s, events[0]), events[1..], id);
    }
  }

  lemma ActorIsReady(own: Id -> bool, s: State, e: Event)
    requires Enabled(s, e)
    ensures Ready(own(Actor(s, e)), e, SpotOf(s, Actor(s, e)))
  {
    assert e.Take? ==> Actor(s, e) in multiset(s.deployQueue);
  }

  /** A subject that is over is not touched again. */
  lemma OverIsFinal(own: Id -> bool, s: State, e: Event, id: Id)
    requires Inv(own, s) && Enabled(s, e) && id in s.over
    ensures Actor(s, e) != id && id in Apply(own, s, e).over && (id in Apply(own, s, e).bounced <==> id in s.bounced)
  {
    assert SpotOf(s, id).Fits(own(id));
    ActorIsReady(own, s, e);
    OthersStay(own, s, e, id);
  }

  lemma {:induction false} OverStaysUnbounced(own: Id -> bool, s: State, events: seq<Event>, id: Id)
    requires Inv(own, s) && Possible(own, s, events) && id in s.over && id !in s.bounced
    ensures id !in Exec(own, s, events).bounced
    decreases |events|
  {
    if events == [] {
    } else {
      InvHolds(own, s, events[0]);
      OverIsFinal(own, s, events[0], id);
      OverStaysUnbounced(own, Apply(own, s, events[0]), events[1..], id);
    }
  }

  /** A subject whose success bounced can only be ended by the report of its failure. */
  lemma BouncedEndsByFailure(own: Id -> bool, s: State, e: Event, id: Id)
    requires Inv(own, s) && Enabled(s, e) && id !in s.over && id in Apply(own, s, e).bounced
    ensures id in Apply(own, s, e).over <==> e.Fail? && Actor(s, e) == id
  {
    assert SpotOf(s, id).Fits(own(id));
    if Actor(s, e) == id {
      ActorIsReady(own, s, e);
      ActorMoves(own, s, e);
      BouncedMove(own(id), e, SpotOf(s, id));
      assert SpotOf(Apply(own, s, e), id).bounced;
    } else {
      OthersStay(own, s, e, id);
      assert SpotOf(Apply(own, s, e), id).over == SpotOf(s, id).over;
    }
  }

  lemma BouncedMove(own: bool, e: Event, p: Spot)
    requires p.Fits(own) && Ready(own, e, p) && !p.over && Move(own, e, p).bounced
    ensures Move(own, e, p).over <==> e.Fail?
  {}

  lemma {:induction false} BouncedIsOverExactly(own: Id -> bool, s: State, events: seq<Event>, id: Id)
    requires Inv(own, s) && Possible(own, s, events) && id in Exec(own, s, events).bounced
    ensures id in Exec(own, s, events).over <==> id in s.over || FailureReported(own, s, events, id)
    decreases |events|
  {
    if events == [] {
    } else {
      var s' := Apply(own, s, events[0]);
      InvHolds(own, s, events[0]);
      BouncedIsOverExactly(own, s', events[1..], id);
      if id in s.over {
        OverIsFinal(own, s, events[0], id);
      } else if id in s'.bounced {
        BouncedEndsByFailure(own, s, events[0], id);
      } else if id in s'.over {
        OverStaysUnbounced(own, s', events[1..], id);
      }
    }
  }

  /**
   In every run, whatever the receivers raise, a subject is reported in a proper order, except that a
   deployment of the daemon itself whose SUCCESS receivers raise is afterwards reported as failed.
   */
  lemma SignalsAreWellReported(own: Id -> bool, events: seq<Event>, id: Id)
    requires Possible(own, INIT, events)
    ensures var s := Exec(own, INIT, events);
            var h := History(s.sent, id);
            && (WellReported(h) <==> !(SuccessRaises(own, INIT, events, id) && FailureReported(own, INIT, events, id)))
            && (WellReported(h) <==> !(id in s.bounced && id in s.over))
            && (!WellReported(h) ==> own(id) && h == [INITIATED, STARTED, SUCCESS, FAILED])
  {
    EndedHistory(own, events, id);
    BouncedExactly(own, INIT, events, id);
    if id in Exec(own, INIT, events).bounced {
      InitInv(own);
      BouncedIsOverExactly(own, INIT, events, id);
    }
  }

  lemma EndedHistory(own: Id -> bool, events: seq<Event>, id: Id)
    requires Possible(own, INIT, events)
    ensures var s := Exec(own, INIT, events);
            var h := History(s.sent, id);
            && (WellReported(h) <==> !(id in s.bounced && id in s.over))
            && (!WellReported(h) ==> own(id) && h == [INITIATED, STARTED, SUCCESS, FAILED])
  {
    InitInv(own);
    InvAlways(own, INIT, events);
    var s := Exec(own, INIT, events);
    assert SpotOf(s, id).Fits(own(id));
    if id in s.bounced && id in s.over {
      var h := [INITIATED, STARTED, SUCCESS, FAILED];
      assert |h| == 4;
    }
  }

  /** No receiver raises while the deployer is reporting the daemon's own success. */
  predicate QuietSuccess(events: seq<Event>) {
    forall i :: 0 <= i < |events| && events[i].Succeed? ==> events[i].raise.Quiet?
  }

  lemma {:induction false} QuietSuccessNeverBounces(own: Id -> bool, s: State, events: seq<Event>)
    requires Possible(own, s, events) && QuietSuccess(events) && s.bounced == {}
    ensures Exec(own, s, events).bounced == {}
    decreases |events|
  {
    if events == [] {
    } else {
      assert forall i :: 0 <= i < |events[1..]| ==> events[1..][i] == events[i+1];
      QuietSuccessNeverBounces(own, Apply(own, s, events[0]), events[1..]);
    }
  }

  /** So without such an exception every subject is properly reported, in every interleaving. */
  lemma QuietRunsAreWellReported(own: Id -> bool, events: seq<Event>, id: Id)
    requires Possible(own, INIT, events) && QuietSuccess(events)
    ensures WellReported(History(Exec(own, INIT, events).sent, id))
  {
    QuietSuccessNeverBounces(own, INIT, events);
    SignalsAreWellReported(own, events, id);
  }

  // ---- What each signal stands for ----

  /** The event is a reason to signal the status. */
  predicate Merits(e: Event, status: Status) {
    match status
    case INITIATED => e.Initiate?
    case STARTED => e.Start?
    case SUCCESS => e.Succeed? || (e.Conclude? && e.ready)
    case FAILED => e.RejectConfig? || e.Fail? || (e.Conclude? && !e.ready)
  }

  ghost predicate Earns(own: Id -> bool, s: State, events: seq<Event>, id: Id, status: Status)
    requires Possible(own, s, events)
    decreases |events|
  {
    events != [] &&
    (|| (Merits(events[0], status) && Actor(s, events[0]) == id)
     || Earns(own, Apply(own, s, events[0]), events[1..], id, status))
  }

  lemma MeritedIsSent(e: Event, status: Status)
    ensures status in SentBy(e) <==> Merits(e, status)
  {}

  lemma MeritedIsInHistory(own: Id -> bool, s: State, e: Event, id: Id, status: Status)
    requires Enabled(s, e)
    ensures status in History(Apply(own, s, e).sent, id) <==>
              status in History(s.sent, id) || (Merits(e, status) && Actor(s, e) == id)
  {
    HistoryMoves(own, s, e, id);
    MeritedIsSent(e, status);
    var before, more := History(s.sent, id), if id == Actor(s, e) then SentBy(e) else [];
    assert status in before + more <==> status in before || status in more;
  }

  /**
   A subject is signalled as a success exactly if a check found it ready or it is the daemon's own and
   was deployed, as failed exactly if its configuration was rejected, its deployment failed, or its check
   gave up; and likewise for the other signals.
   */
  lemma {:induction false} SignalsAreEarned(own: Id -> bool, s: State, events: seq<Event>, id: Id, status: Status)
    requires Possible(own, s, events)
    ensures status in History(Exec(own, s, events).sent, id) <==>
              status in History(s.sent, id) || Earns(own, s, events, id, status)
    decreases |events|
  {
    if events == [] {
    } else {
      MeritedIsInHistory(own, s, events[0], id, status);
      SignalsAreEarned(own, Apply(own, s, events[0]), events[1..], id, status);
    }
  }

  // ---- The order of the deployments ----

  /** The subjects reported as started, in order. */
  function Starts(sent: seq<Signal<Id>>): seq<Id> {
    if sent == [] then []
    else Starts(sent[..|sent|-1]) + if sent[|sent|-1].status == STARTED then [sent[|sent|-1].subject] else []
  }

  /** The subjects in the order in which they go through the deployer, those being parsed last. */
  function Line(s: State): seq<Id> {
    LineOf(Starts(s.sent), ToBeStarted(s), s.deployQueue, BeingParsed(s))
  }

  function LineOf(started: seq<Id>, held: seq<Id>, queue: seq<Id>, parsed: seq<Id>): seq<Id> {
    started + held + queue + parsed
  }

  function ToBeStarted(s: State): seq<Id> {
    if s.deployer.Holding? && s.deployer.duty == ToStart then [s.deployer.held] else []
  }

  function BeingParsed(s: State): seq<Id> {
    if s.watcher.Parsing? then [s.watcher.id] else []
  }

  predicate Increasing(ids: seq<Id>, next: Id) {
    && (forall i, j :: 0 <= i < j < |ids| ==> ids[i] < ids[j])
    && (forall i :: 0 <= i < |ids| ==> ids[i] < next)
  }

  lemma StartsGrow(s: State, status: Status, id: Id)
    ensures Starts(Send(s, status, id).sent) == Starts(s.sent) + if status == STARTED then [id] else []
  {
    assert Send(s, status, id).sent[..|s.sent|] == s.sent;
  }

  lemma StartsMove(own: Id -> bool, s: State, e: Event)
    requires Enabled(s, e)
    ensures e.Start? ==> Starts(Apply(own, s, e).sent) == Starts(s.sent) + [s.deployer.held]
    ensures !e.Start? ==> Starts(Apply(own, s, e).sent) == Starts(s.sent)
  {
    var s' := Apply(own, s, e);
    if SentBy(e) == [] {
      assert s'.sent == s.sent;
    } else {
      StartsGrow(s, SentBy(e)[0], Actor(s, e));
      assert s'.sent == Send(s, SentBy(e)[0], Actor(s, e)).sent;
    }
  }

  /** What a step makes of the line: it adds the newest subject at the end, drops the last one, or changes nothing. */
  function NextLine(s: State, e: Event): seq<Id>
    requires Enabled(s, e)
  {
    if e.Initiate? && e.raise.Quiet? then Line(s) + [s.next]
    else if (e.RejectConfig? || e.CrashParse?) && Line(s) != [] then Line(s)[..|Line(s)|-1]
    else Line(s)
  }

  /** The parts of the line after a step, except for what is reported as started. */
  lemma PartsMove(own: Id -> bool, s: State, e: Event)
    requires Enabled(s, e)
    ensures var s' := Apply(own, s, e);
      && ToBeStarted(s') == (if e.Take? then [s.deployQueue[0]] else if e.Start? then [] else ToBeStarted(s))
      && s'.deployQueue == (if e.Enqueue? then s.deployQueue + [s.watcher.id] else if e.Take? then s.deployQueue[1..] else s.deployQueue)
      && BeingParsed(s') == (if e.Initiate? && e.raise.Quiet? then [s.next]
                             else if e.Enqueue? || e.RejectConfig? || e.CrashParse? then [] else BeingParsed(s))
  {}

  lemma PartsBefore(s: State, e: Event)
    requires Enabled(s, e)
    ensures e.Initiate? ==> BeingParsed(s) == []
    ensures e.Enqueue? || e.RejectConfig? || e.CrashParse? ==> BeingParsed(s) == [s.watcher.id]
    ensures e.Take? ==> ToBeStarted(s) == [] && s.deployQueue != []
    ensures e.Start? ==> ToBeStarted(s) == [s.deployer.held]
  {}

  lemma StartedStaysInLine(started: seq<Id>, queue: seq<Id>, parsed: seq<Id>, id: Id)
    ensures LineOf(started + [id], [], queue, parsed) == LineOf(started, [id], queue, parsed)
  {}

  lemma TakenStaysInLine(started: seq<Id>, queue: seq<Id>, parsed: seq<Id>)
    requires queue != []
    ensures LineOf(started, [queue[0]], queue[1..], parsed) == LineOf(started, [], queue, parsed)
  {
    assert [queue[0]] + queue[1..] == queue;
  }

  lemma QueuedStaysInLine(started: seq<Id>, held: seq<Id>, queue: seq<Id>, id: Id)
    ensures LineOf(started, held, queue + [id], []) == LineOf(started, held, queue, [id])
  {}

  lemma ParsedIsLast(started: seq<Id>, held: seq<Id>, queue: seq<Id>, id: Id)
    ensures var line := LineOf(started, held, queue, []);
      LineOf(started, held, queue, [id]) == line + [id] && (line + [id])[..|line|] == line
  {}

  lemma StartLineMoves(own: Id -> bool, s: State, e: Event)
    requires Enabled(s, e) && e.Start?
    ensures Line(Apply(own, s, e)) == Line(s)
  {
    StartsMove(own, s, e);
    PartsMove(own, s, e);
    PartsBefore(s, e);
    StartedStaysInLine(Starts(s.sent), s.deployQueue, BeingParsed(s), s.deployer.held);
  }

  lemma TakeLineMoves(own: Id -> bool, s: State)
    requires Enabled(s, Take)
    ensures Line(Apply(own, s, Take)) == Line(s)
  {
    PartsMove(own, s, Take);
    PartsBefore(s, Take);
    assert Apply(own, s, Take).sent == s.sent;
    TakenStaysInLine(Starts(s.sent), s.deployQueue, BeingParsed(s));
  }

  lemma EnqueueLineMoves(own: Id -> bool, s: State)
    requires Enabled(s, Enqueue)
    ensures Line(Apply(own, s, Enqueue)) == Line(s)
  {
    PartsMove(own, s, Enqueue);
    PartsBefore(s, Enqueue);
    assert Apply(own, s, Enqueue).sent == s.sent;
    QueuedStaysInLine(Starts(s.sent), ToBeStarted(s), s.deployQueue, s.watcher.id);
  }

  lemma ParserLineMoves(own: Id -> bool, s: State, e: Event)
    requires Enabled(s, e) && (e.Initiate? || e.RejectConfig? || e.CrashParse?)
    requires Starts(Apply(own, s, e).sent) == Starts(s.sent)
    ensures Line(Apply(own, s, e)) == NextLine(s, e)
  {
    PartsMove(own, s, e);
    PartsBefore(s, e);
    ParsedIsLast(Starts(s.sent), ToBeStarted(s), s.deployQueue, if e.Initiate? then s.next else s.watcher.id);
  }

  lemma LineMoves(own: Id -> bool, s: State, e: Event)
    requires Enabled(s, e)
    ensures Line(Apply(own, s, e)) == NextLine(s, e)
  {
    if e.Start? {
      StartLineMoves(own, s, e);
    } else if e.Take? {
      TakeLineMoves(own, s);
    } else if e.Enqueue? {
      EnqueueLineMoves(own, s);
    } else {
      StartsMove(own, s, e);
      if e.Initiate? || e.RejectConfig? || e.CrashParse? {
        ParserLineMoves(own, s, e);
      } else {
        PartsMove(own, s, e);
      }
    }
  }

  lemma NextMoves(own: Id -> bool, s: State, e: Event)
    requires Enabled(s, e)
    ensures Apply(own, s, e).next == s.next + If(e.Initiate?)
  {}

  lemma IncreasingStays(line: seq<Id>, next: Id)
    requires Increasing(line, next)
    ensures Increasing(line + [next], next + 1) && Increasing(line, next + 1)
    ensures line != [] ==> Increasing(line[..|line|-1], next)
  {}

  lemma LineStaysIncreasing(own: Id -> bool, s: State, e: Event)
    requires Enabled(s, e) && Increasing(Line(s), s.next)
    ensures Increasing(Line(Apply(own, s, e)), Apply(own, s, e).next)
  {
    LineMoves(own, s, e);
    NextMoves(own, s, e);
    IncreasingStays(Line(s), s.next);
  }

  lemma {:induction false} LineAlwaysIncreases(own: Id -> bool, s: State, events: seq<Event>)
    requires Increasing(Line(s), s.next) && Possible(own, s, events)
    ensures Increasing(Line(Exec(own, s, events)), Exec(own, s, events).next)
    decreases |events|
  {
    if events == [] {
    } else {
      LineStaysIncreasing(own, s, events[0]);
      LineAlwaysIncreases(own, Apply(own, s, events[0]), events[1..]);
    }
  }

  /** Deployments start in the order in which they were initiated, in every interleaving. */
  lemma StartedInOrder(own: Id -> bool, events: seq<Event>, i: nat, j: nat)
    requires Possible(own, INIT, events)
    requires i < j < |Starts(Exec(own, INIT, events).sent)|
    ensures Starts(Exec(own, INIT, events).sent)[i] < Starts(Exec(own, INIT, events).sent)[j]
  {
    assert Line(INIT) == [];
    LineAlwaysIncreases(own, INIT, events);
    var s := Exec(own, INIT, events);
    assert Line(s)[i] == Starts(s.sent)[i] && Line(s)[j] == Starts(s.sent)[j];
  }

  /** The daemon's own deployment is never left to a check. */
  lemma {:induction false} OwnIsNotChecked(own: Id -> bool, s: State, events: seq<Event>, id: Id)
    requires Possible(own, s, events) && own(id) && id !in s.checks && s.checker != Checking(id)
    ensures id !in Exec(own, s, events).checks && Exec(own, s, events).checker != Checking(id)
    decreases |events|
  {
    if events == [] {
    } else {
      OwnIsNotChecked(own, Apply(own, s, events[0]), events[1..], id);
    }
  }

  /** A run can be continued with any event that its last state allows. */
  lemma {:induction false} Continue(own: Id -> bool, s: State, events: seq<Event>, e: Event)
    requires Possible(own, s, events) && Enabled(Exec(own, s, events), e)
    ensures Possible(own, s, events + [e])
    ensures Exec(own, s, events + [e]) == Apply(own, Exec(own, s, events), e)
    decreases |events|
  {
    if events == [] {
      assert (events + [e])[1..] == [];
    } else {
      Continue(own, Apply(own, s, events[0]), events[1..], e);
      assert (events + [e])[1..] == events[1..] + [e];
    }
  }

  /** The exception is real: a run reports the daemon's own deployment as a success and then as a failure. */
  lemma OwnSuccessCanBounce(own: Id -> bool)
    requires own(0)
    ensures exists events :: Possible(own, INIT, events) &&
              History(Exec(own, INIT, events).sent, 0) == [INITIATED, STARTED, SUCCESS, FAILED]
  {
    var events: seq<Event> := [];
    var steps := [Initiate(Quiet), Enqueue, Take, Start(Quiet), Deploy(false), Succeed(Api), Fail(Quiet)];
    var s := INIT;
    for i := 0 to |steps|
      invariant Possible(own, INIT, events) && s == Exec(own, INIT, events)
      invariant s.next == If(i > 0) && s.bounced == if i > 5 then {0} else {}
      invariant s.deployQueue == if i == 2 then [0] else []
      invariant s.watcher == if i == 1 then Parsing(0) else WatcherIdle
      invariant s.deployer == if i < 3 || i == 7 then DeployerIdle else [Holding(0, ToStart), Holding(0, ToDeploy), Holding(0, ToSucceed), Holding(0, ToFail)][i-3]
      invariant i == 7 ==> 0 in s.over
    {
      Continue(own, INIT, events, steps[i]);
      events, s := events + [steps[i]], Apply(own, s, steps[i]);
    }
    InitInv(own);
    InvAlways(own, INIT, events);
    assert SpotOf(s, 0).Fits(own(0));
  }
}
