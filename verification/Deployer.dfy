/** The deployer thread's handling of one queued deployment. */
module Deployer {
  import opened Lifecycle
  import opened Scheduler
  import opened Pipeline

  /** What goes wrong on the way: in the receivers of each signal, and in the adapter or while building the check. */
  datatype Faults = Faults(start: Raise, deploy: bool, success: Raise, failed: Raise)

  class Deployer {
    const lifecycle: Lifecycle<Id>
    const scheduler: Scheduler<Id>

    constructor (lifecycle: Lifecycle<Id>, scheduler: Scheduler<Id>)
      ensures this.lifecycle == lifecycle && this.scheduler == scheduler
    {
      this.lifecycle, this.scheduler := lifecycle, scheduler;
    }

    /** Returns whether the thread survives. */
    method Update(subject: Id, own: bool, f: Faults, now: real) returns (alive: bool)
      requires scheduler.Valid()
      modifies lifecycle, scheduler
      ensures scheduler.Valid()
      ensures lifecycle.sent == old(lifecycle.sent) + Reported(own, f, subject)
      ensures alive <==> !(Fails(own, f) && f.failed.Other?)
      ensures if Checked(own, f) then
                exists t: Ticket :: t !in old(scheduler.tasks) &&
                  scheduler.tasks == old(scheduler.tasks)[t := Entry(now + DEFAULT_DELAY, subject)]
              else scheduler.tasks == old(scheduler.tasks)
    {
      alive := true;
      var failed := false;
      lifecycle.Change(STARTED, subject);
      if !f.start.Quiet? || f.deploy {
        failed := true;
      } else if !own {
        var t := scheduler.Add(subject, now);
      } else {
        lifecycle.Change(SUCCESS, subject);
        failed := !f.success.Quiet?;
      }
      if failed {
        lifecycle.Change(FAILED, subject);
        alive := !f.failed.Other?;
      }
    }
  }

  /** The deployment went through, and readiness is left to a check. */
  predicate Checked(own: bool, f: Faults) {
    f.start.Quiet? && !f.deploy && !own
  }

  predicate Fails(own: bool, f: Faults) {
    !f.start.Quiet? || f.deploy || (own && !f.success.Quiet?)
  }

  /** The signals that one update sends. */
  function Reported(own: bool, f: Faults, id: Id): seq<Signal<Id>> {
    ReportedFirst(own, f, id) + if Fails(own, f) then [Signal(FAILED, id)] else []
  }

  function ReportedFirst(own: bool, f: Faults, id: Id): seq<Signal<Id>> {
    [Signal(STARTED, id)] + if f.start.Quiet? && !f.deploy && own then [Signal(SUCCESS, id)] else []
  }

  /**
   An update reports the start first, success exactly for an own deployment that went through, and
   failure, last, exactly if anything raised.
   */
  lemma ReportedIsExact(own: bool, f: Faults, id: Id)
    ensures var signals := Reported(own, f, id);
      && signals[0] == Signal(STARTED, id)
      && (Signal(SUCCESS, id) in signals <==> own && f.start.Quiet? && !f.deploy)
      && (Signal(FAILED, id) in signals <==> !f.start.Quiet? || f.deploy || (own && !f.success.Quiet?))
      && (Signal(FAILED, id) in signals ==> signals[|signals|-1] == Signal(FAILED, id))
      && (forall i :: 0 < i < |signals| ==> signals[i].subject == id && signals[i].status in {SUCCESS, FAILED})
      && (Checked(own, f) <==> signals == [Signal(STARTED, id)])
  {
    if Fails(own, f) {
      assert Reported(own, f, id)[|Reported(own, f, id)|-1] == Signal(FAILED, id);
    }
    if own && f.start.Quiet? && !f.deploy {
      assert Reported(own, f, id)[1] == Signal(SUCCESS, id);
    }
  }

  function UntilFailure(own: bool, f: Faults): seq<Event> {
    if !f.start.Quiet? then [Start(f.start)]
    else if f.deploy || !own then [Start(f.start), Deploy(f.deploy)]
    else [Start(f.start), Deploy(false), Succeed(f.success)]
  }

  /** The steps of the pipeline that one update takes. */
  function UpdateEvents(own: bool, f: Faults): seq<Event> {
    UntilFailure(own, f) + if Fails(own, f) then [Fail(f.failed)] else []
  }

  /** One update is one way for the pipeline to go on from the point where the deployer holds the subject. */
  lemma UpdateIsPipelineRun(own: Id -> bool, s: State, id: Id, f: Faults)
    requires s.deployer == Holding(id, ToStart)
    ensures Possible(own, s, UpdateEvents(own(id), f))
    ensures var s' := Exec(own, s, UpdateEvents(own(id), f));
            && s'.sent == s.sent + Reported(own(id), f, id)
            && s'.checks == s.checks + (if Checked(own(id), f) then {id} else {})
            && s'.over == s.over + (if Checked(own(id), f) then {} else {id})
            && s'.deployer == (if Fail(Other) in UpdateEvents(own(id), f) then DeployerDead else DeployerIdle)
            && s' == s.(sent := s'.sent, checks := s'.checks, over := s'.over, deployer := s'.deployer, bounced := s'.bounced)
  {
    var before := UntilFailure(own(id), f);
    UntilFailureIsPipelineRun(own, s, id, f);
    if Fails(own(id), f) {
      Continue(own, s, before, Fail(f.failed));
    } else {
      assert before + [] == before;
    }
  }

  lemma UntilFailureIsPipelineRun(own: Id -> bool, s: State, id: Id, f: Faults)
    requires s.deployer == Holding(id, ToStart)
    ensures Possible(own, s, UntilFailure(own(id), f))
    ensures var s' := Exec(own, s, UntilFailure(own(id), f));
            && s'.sent == s.sent + ReportedFirst(own(id), f, id)
            && s'.checks == s.checks + (if Checked(own(id), f) then {id} else {})
            && s'.over == s.over + (if Checked(own(id), f) || Fails(own(id), f) then {} else {id})
            && s'.deployer == (if Fails(own(id), f) then Holding(id, ToFail) else DeployerIdle)
            && s' == s.(sent := s'.sent, checks := s'.checks, over := s'.over, deployer := s'.deployer, bounced := s'.bounced)
  {
    Continue(own, s, [], Start(f.start));
    assert [] + [Start(f.start)] == [Start(f.start)];
    if f.start.Quiet? {
      RunOf2(own, s, Start(f.start), Deploy(f.deploy));
      if !f.deploy && own(id) {
        RunOf3(own, s, Start(f.start), Deploy(false), Succeed(f.success));
      }
    }
  }

  lemma RunOf2(own: Id -> bool, s: State, e1: Event, e2: Event)
    requires Enabled(s, e1) && Enabled(Apply(own, s, e1), e2)
    ensures Possible(own, s, [e1, e2]) && Exec(own, s, [e1, e2]) == Apply(own, Apply(own, s, e1), e2)
  {
    Continue(own, s, [], e1);
    Continue(own, s, [e1], e2);
    assert [] + [e1] == [e1] && [e1] + [e2] == [e1, e2];
  }

  lemma RunOf3(own: Id -> bool, s: State, e1: Event, e2: Event, e3: Event)
    requires Enabled(s, e1) && Enabled(Apply(own, s, e1), e2) && Enabled(Apply(own, Apply(own, s, e1), e2), e3)
    ensures Possible(own, s, [e1, e2, e3])
    ensures Exec(own, s, [e1, e2, e3]) == Apply(own, Apply(own, Apply(own, s, e1), e2), e3)
  {
    RunOf2(own, s, e1, e2);
    Continue(own, s, [e1, e2], e3);
    assert [e1, e2] + [e3] == [e1, e2, e3];
  }
}
