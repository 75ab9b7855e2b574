/**
 The status kept inside the Application object: how it is written, and how the watcher recognises the
 events that writing it causes.

 The API server bumps the generation for a change of the spec only, and rejects a status write whose
 resource version is not the current one.
 */
module AppStatus {
  import opened Values

  datatype Inline = Inline(observedGeneration: int, deploymentId: Option<string>, result: string)

  /** The Application object; `labelled` is its `fiaas/deployment_id` label. */
  datatype App = App(generation: nat, labelled: Option<string>, deleting: bool, status: Inline, version: nat)

  datatype Author = User | Daemon | Relist

  /** A watch event carries the object as it was when the change was made. */
  datatype Notice = Notice(content: App, author: Author)

  // ---- The watcher's decision ----

  predicate SkipStatusEvent(app: App) {
    app.status.observedGeneration == app.generation && app.labelled == app.status.deploymentId
  }

  datatype Decision = MissingLabel | StatusUpdate | BeingDeleted | AlreadyDeployed | Deploys

  /** `deployed` says that a stored status of this deployment copies SUCCESS. */
  function Decide(app: App, deployed: bool): Decision {
    if app.labelled.None? then MissingLabel
    else if SkipStatusEvent(app) then StatusUpdate
    else if app.deleting then BeingDeleted
    else if deployed then AlreadyDeployed
    else Deploys
  }

  // ---- The API server, and everyone who writes to it ----

  datatype Edit =
    | EditSpec(labelled: Option<string>)      // and possibly the label with it
    | EditMetadata(labelled: Option<string>)
    | Delete                               // marks the object for deletion

  function Edited(app: App, e: Edit): App {
    match e
    case EditSpec(labelled) => app.(generation := app.generation + 1, labelled := labelled, version := app.version + 1)
    case EditMetadata(labelled) => app.(labelled := labelled, version := app.version + 1)
    case Delete => app.(deleting := true, version := app.version + 1)
  }

  function EditedBy(app: App, edits: seq<Edit>): App
    decreases |edits|
  {
    if edits == [] then app else Edited(EditedBy(app, edits[..|edits|-1]), edits[|edits|-1])
  }

  function Saved(app: App, copy: App, result: string): App {
    app.(status := Inline(copy.generation, copy.labelled, result), version := app.version + 1)
  }

  /** `copies` holds the copies on which status writes of any number of threads are under way. */
  datatype State = State(app: App, copies: map<nat, App>, notices: seq<Notice>)

  datatype Step =
    | UserEdits(edit: Edit)
    | Read(writer: nat, deploymentId: string)
    | Write(writer: nat, result: string)
    | Reconnect                            // the watch starts over with the object as it is

  predicate Enabled(s: State, step: Step) {
    step.Write? ==> step.writer in s.copies
  }

  function Notify(s: State, app: App, author: Author): State {
    s.(app := app, notices := s.notices + [Notice(app, author)])
  }

  /** A writer whose deployment is not the labelled one does not write; a stale copy is a conflict. */
  function Apply(s: State, step: Step): State
    requires Enabled(s, step)
  {
    match step
    case UserEdits(edit) => Notify(s, Edited(s.app, edit), User)
    case Read(w, id) =>
      if s.app.labelled == Some(id) then s.(copies := s.copies[w := s.app]) else s.(copies := s.copies - {w})
    case Write(w, result) =>
      var copy := s.copies[w];
      var s' := s.(copies := s.copies - {w});
      if copy.version == s.app.version then Notify(s', Saved(s.app, copy, result), Daemon) else s'
    case Reconnect => s.(notices := s.notices + [Notice(s.app, Relist)])
  }

  ghost predicate Possible(s: State, steps: seq<Step>)
    decreases |steps|
  {
    steps == [] || (Enabled(s, steps[0]) && Possible(Apply(s, steps[0]), steps[1..]))
  }

  ghost function Exec(s: State, steps: seq<Step>): State
    requires Possible(s, steps)
    decreases |steps|
  {
    if steps == [] then s else Exec(Apply(s, steps[0]), steps[1..])
  }

  /** A copy with the current version is the current object: every write takes a new version. */
  ghost predicate CopiesAreVersioned(s: State) {
    forall w :: w in s.copies ==>
      s.copies[w].version <= s.app.version && (s.copies[w].version == s.app.version ==> s.copies[w] == s.app)
  }

  ghost predicate Inv(s: State) {
    && CopiesAreVersioned(s)
    && s.app.status.observedGeneration <= s.app.generation
    && (forall w :: w in s.copies ==> s.copies[w].labelled.Some?)
    && forall i :: 0 <= i < |s.notices| && s.notices[i].author.Daemon? ==>
         s.notices[i].content.labelled.Some? && SkipStatusEvent(s.notices[i].content)
  }

  ghost predicate Initial(s: State) {
    s.copies == map[] && s.notices == [] && s.app.status.observedGeneration <= s.app.generation
  }

  lemma InvHolds(s: State, step: Step)
    requires Inv(s) && Enabled(s, step)
    ensures Inv(Apply(s, step))
  {}

  lemma {:induction false} InvAlways(s: State, steps: seq<Step>)
    requires Inv(s) && Possible(s, steps)
    ensures Inv(Exec(s, steps))
    decreases |steps|
  {
    if steps == [] {
    } else {
      InvHolds(s, steps[0]);
      InvAlways(Apply(s, steps[0]), steps[1..]);
    }
  }

  /** An accepted write records the result for the object as it is now, and changes nothing else of it; a rejected one changes nothing. */
  lemma WriteIsExact(s: State, w: nat, result: string)
    requires Inv(s) && w in s.copies
    ensures var s' := Apply(s, Write(w, result));
      if s.copies[w].version == s.app.version then
        && s'.app.status == Inline(s.app.generation, s.app.labelled, result) && s'.app.version == s.app.version + 1
        && s'.app.generation == s.app.generation && s'.app.labelled == s.app.labelled && s'.app.deleting == s.app.deleting
        && s'.notices == s.notices + [Notice(s'.app, Daemon)]
      else s'.app == s.app && s'.notices == s.notices
  {
    assert s.copies[w].version == s.app.version ==> s.copies[w] == s.app;
  }

  /** An event leads to a deployment exactly if it has a label, no fresh status, no deletion mark and no stored success. */
  lemma DeploysExactly(app: App, deployed: bool)
    ensures Decide(app, deployed) == Deploys <==>
              && app.labelled.Some? && !app.deleting && !deployed
              && (app.status.observedGeneration != app.generation || app.status.deploymentId != app.labelled)
    ensures Decide(app, deployed) == MissingLabel <==> app.labelled == None
  {}

  /** In every interleaving with user edits, each event caused by a status write is recognised and skipped. */
  lemma OwnWritesAreSkipped(s: State, steps: seq<Step>, i: nat, deployed: bool)
    requires Initial(s) && Possible(s, steps)
    requires i < |Exec(s, steps).notices| && Exec(s, steps).notices[i].author.Daemon?
    ensures Decide(Exec(s, steps).notices[i].content, deployed) == StatusUpdate
  {
    InvAlways(s, steps);
  }

  /** The event of a change of the spec is never mistaken for one of a status write. */
  lemma SpecEditsAreNoticed(s: State, steps: seq<Step>, id: string, deployed: bool)
    requires Initial(s) && Possible(s, steps)
    ensures var app := Edited(Exec(s, steps).app, EditSpec(Some(id)));
            Decide(app, deployed) == if app.deleting then BeingDeleted else if deployed then AlreadyDeployed else Deploys
  {
    InvAlways(s, steps);
  }

  predicate OnlyTheDaemon(steps: seq<Step>) {
    forall i :: 0 <= i < |steps| ==> !steps[i].UserEdits?
  }

  /**
   Once the object carries the status of its own generation and label, it stays so, and every event
   is skipped, reconnections included, until a user edits it.
   */
  lemma {:induction false} QuietUntilEdited(s: State, steps: seq<Step>)
    requires CopiesAreVersioned(s) && Possible(s, steps) && OnlyTheDaemon(steps)
    requires SkipStatusEvent(s.app)
    requires forall w :: w in s.copies ==> s.copies[w].labelled.Some?
    ensures SkipStatusEvent(Exec(s, steps).app)
    ensures s.notices <= Exec(s, steps).notices
    ensures forall i :: |s.notices| <= i < |Exec(s, steps).notices| ==> SkipStatusEvent(Exec(s, steps).notices[i].content)
    decreases |steps|
  {
    if steps == [] {
    } else {
      var s' := Apply(s, steps[0]);
      assert forall i :: 0 <= i < |steps[1..]| ==> steps[1..][i] == steps[i+1];
      QuietUntilEdited(s', steps[1..]);
      assert s.notices <= s'.notices;
    }
  }

  /**
   Some writer reads the object while its deployment is the labelled one, and writes before it reads
   again. The writers pending have read already.
   */
  predicate SaveCompletes(pending: set<nat>, steps: seq<Step>, id: string)
    decreases |steps|
  {
    if steps == [] then false
    else
      match steps[0]
      case Read(w, d) => SaveCompletes(if d == id then pending + {w} else pending - {w}, steps[1..], id)
      case Write(w, _) => w in pending || SaveCompletes(pending, steps[1..], id)
      case _ => SaveCompletes(pending, steps[1..], id)
  }

  /** The writers whose copy is the object as it is. */
  function Current(s: State): set<nat> {
    set w | w in s.copies && s.copies[w].version == s.app.version
  }

  /** An object that is not skipped comes to be skipped exactly if a save that reads it completes. */
  lemma {:induction false} SkippedOnceSaved(s: State, steps: seq<Step>, id: string)
    requires Inv(s) && Possible(s, steps) && OnlyTheDaemon(steps)
    requires s.app.labelled == Some(id) && !SkipStatusEvent(s.app)
    ensures SkipStatusEvent(Exec(s, steps).app) <==> SaveCompletes(Current(s), steps, id)
    decreases |steps|
  {
    if steps == [] {
    } else {
      var s' := Apply(s, steps[0]);
      InvHolds(s, steps[0]);
      assert forall i :: 0 <= i < |steps[1..]| ==> steps[1..][i] == steps[i+1];
      if steps[0].Write? && steps[0].writer in Current(s) {
        assert SkipStatusEvent(s'.app);
        QuietUntilEdited(s', steps[1..]);
      } else {
        CurrentMoves(s, steps[0], id);
        SkippedOnceSaved(s', steps[1..], id);
      }
    }
  }

  lemma CurrentMoves(s: State, step: Step, id: string)
    requires Enabled(s, step) && !step.UserEdits? && s.app.labelled == Some(id)
    requires step.Write? ==> step.writer !in Current(s)
    ensures Apply(s, step).app == s.app
    ensures Current(Apply(s, step)) ==
            if step.Read? then (if step.deploymentId == id then Current(s) + {step.writer} else Current(s) - {step.writer})
            else Current(s)
  {}

  /**
   An edited object is taken for its own status, by an event other than that of the edit, exactly if a
   save for the same label reads and writes it after the edit: what is saved is the generation of the
   object that was read, whichever deployment it is the status of.
   */
  lemma EditIsHiddenExactly(s: State, steps: seq<Step>, id: string, deployed: bool)
    requires Inv(s) && OnlyTheDaemon(steps)
    requires Possible(Apply(s, UserEdits(EditSpec(Some(id)))), steps)
    ensures var app := Exec(Apply(s, UserEdits(EditSpec(Some(id)))), steps).app;
            Decide(app, deployed) == StatusUpdate <==> SaveCompletes({}, steps, id)
  {
    var edit := UserEdits(EditSpec(Some(id)));
    var s' := Apply(s, edit);
    InvHolds(s, edit);
    assert Current(s') == {};
    SkippedOnceSaved(s', steps, id);
    LabelStays(s', steps);
  }

  lemma {:induction false} LabelStays(s: State, steps: seq<Step>)
    requires Possible(s, steps) && OnlyTheDaemon(steps)
    ensures Exec(s, steps).app.labelled == s.app.labelled
    decreases |steps|
  {
    if steps == [] {
    } else {
      assert forall i :: 0 <= i < |steps[1..]| ==> steps[1..][i] == steps[i+1];
      LabelStays(Apply(s, steps[0]), steps[1..]);
    }
  }

  /** So a watch that starts over after such a save never shows the edit. */
  lemma EditCanBeHidden(s: State)
    requires Initial(s) && s.app.labelled == Some("x")
    ensures var steps := [UserEdits(EditSpec(Some("x"))), Read(0, "x"), Write(0, "SUCCESS"), Reconnect];
            && Possible(s, steps)
            && var end := Exec(s, steps);
               && end.app.generation == s.app.generation + 1
               && end.notices != [] && end.notices[|end.notices|-1] == Notice(end.app, Relist)
               && Decide(end.app, false) == StatusUpdate
  {
    var edit, saving := UserEdits(EditSpec(Some("x"))), [Read(0, "x"), Write(0, "SUCCESS"), Reconnect];
    var s1 := Apply(s, edit);
    var s2 := Apply(s1, saving[0]);
    var s3 := Apply(s2, saving[1]);
    assert saving[1..] == [Write(0, "SUCCESS"), Reconnect] && saving[1..][1..] == [Reconnect] && [Reconnect][1..] == [];
    assert Possible(s3, [Reconnect]) && Possible(s2, saving[1..]) && Possible(s1, saving);
    assert ([edit] + saving)[1..] == saving;
    assert [edit] + saving == [edit, Read(0, "x"), Write(0, "SUCCESS"), Reconnect];
    var end := Apply(s3, Reconnect);
    assert Exec(s3, [Reconnect]) == end;
    assert Exec(s2, saving[1..]) == end;
    assert Exec(s1, saving) == end;
  }

  // ---- Saving the status, one attempt ----

  datatype SaveOutcome = SavedStatus | OtherDeployment | NoLabel | Conflict

  class Server {
    var app: App
    var notices: seq<Notice>

    constructor (app: App)
      ensures this.app == app && notices == []
    {
      this.app, notices := app, [];
    }

    method Change(edit: Edit)
      modifies this
      ensures app == Edited(old(app), edit) && notices == old(notices) + [Notice(app, User)]
    {
      app := Edited(app, edit);
      notices := notices + [Notice(app, User)];
    }

    method PutStatus(copy: App, status: Inline) returns (accepted: bool)
      modifies this
      ensures accepted <==> copy.version == old(app).version
      ensures app == if accepted then old(app).(status := status, version := old(app).version + 1) else old(app)
      ensures notices == old(notices) + if accepted then [Notice(app, Daemon)] else []
    {
      accepted := copy.version == app.version;
      if accepted {
        app := app.(status := status, version := app.version + 1);
        notices := notices + [Notice(app, Daemon)];
      }
    }

    /** Reads the object, lets users make some edits, and then writes the status for what was read. */
    method SaveStatusInline(result: string, deploymentId: string, meanwhile: seq<Edit>) returns (outcome: SaveOutcome)
      modifies this
      ensures outcome ==
        if old(app).labelled.None? then NoLabel
        else if old(app).labelled != Some(deploymentId) then OtherDeployment
        else if meanwhile != [] then Conflict
        else SavedStatus
      ensures outcome.SavedStatus? ==>
        && app.status == Inline(old(app).generation, Some(deploymentId), result) && app.version == old(app).version + 1
        && app.generation == old(app).generation && app.labelled == old(app).labelled && app.deleting == old(app).deleting
        && SkipStatusEvent(app)
      ensures !outcome.SavedStatus? ==> app == EditedBy(old(app), meanwhile)
      ensures forall i :: |old(notices)| <= i < |notices| && notices[i].author.Daemon? ==> SkipStatusEvent(notices[i].content)
      ensures old(notices) <= notices
    {
      var copy := app;
      var i := 0;
      while i < |meanwhile|
        invariant 0 <= i <= |meanwhile|
        invariant app == EditedBy(copy, meanwhile[..i]) && app.version == copy.version + i
        invariant old(notices) <= notices
        invariant forall j :: |old(notices)| <= j < |notices| ==> notices[j].author.User?
      {
        Change(meanwhile[i]);
        i := i + 1;
        assert meanwhile[..i][..i-1] == meanwhile[..i-1];
      }
      assert meanwhile[..i] == meanwhile;
      match copy.labelled {
        case None => outcome := NoLabel;
        case Some(id) =>
          if id != deploymentId {
            outcome := OtherDeployment;
          } else {
            var accepted := PutStatus(copy, Inline(copy.generation, Some(deploymentId), result));
            outcome := if accepted then SavedStatus else Conflict;
          }
      }
    }
  }
}
