/** The records that tell a launch that the one before it did not end cleanly, and what becomes of them:
    src-tauri/src/watchdog.rs and src-tauri/src/usage.rs:127-180, in the order in which
    src-tauri/src/lib.rs:149-151 runs them. */
module LaunchRecords {
  import opened Wrappers

  datatype HangStage = AppExit | Restart | UpdateApply | DeviceOpen | Unknown

  /** How long a stage may run, in milliseconds. */
  function LimitFor(stage: HangStage): nat {
    match stage
    case AppExit => 5000
    case Restart => 8000
    case UpdateApply => 20000
    case DeviceOpen => 3000
    case Unknown => 10000
  }

  const U32_MAX: nat := 0xFFFF_FFFF

  /** A launch, by its number and the version of the app. */
  datatype Marker = Marker(launch: nat, version: string)

  datatype Incident = Incident(stage: HangStage, stalledMs: Option<nat>, of: Marker)

  /** The files: the marker of the launch under way, the hang the last launch recorded, and the incident
      the user has not been asked about. */
  datatype Files = Files(running: Option<Marker>, hang: Option<Incident>, pending: Option<Incident>)

  datatype ActiveStage = ActiveStage(stage: HangStage, recorded: bool)

  /** A running app: what it has loaded to ask about, and what its watchdog watches. */
  datatype Launch = Launch(me: Marker, toAsk: Option<Incident>, stage: Option<ActiveStage>)

  /** What is on disk, what was queued to be reported, and the app, if it runs. */
  datatype State = State(files: Files, queued: seq<Incident>, app: Option<Launch>)

  const FRESH := State(Files(None, None, None), [], None)

  /** The incident of a launch that was ended while no stage was seen to hang. */
  function KillOf(m: Marker): Incident {
    Incident(Unknown, None, m)
  }

  /** previous_incident: a hang names itself, else a marker left behind means a kill. Either is taken. */
  function PreviousIncident(f: Files): (Files, Option<Incident>) {
    if f.hang.Some? then (f.(hang := None), f.hang)
    else if f.running.Some? then (f.(running := None), Some(KillOf(f.running.value)))
    else (f, None)
  }

  /** apply_previous_incident: what was found now, or else what an earlier launch could not ask about, is
      queued while reporting is on, and else kept to be asked about, on disk as well. */
  function ApplyPreviousIncident(f: Files, found: Option<Incident>, reporting: bool)
    : (Files, Option<Incident>, seq<Incident>)
  {
    var incident := if found.Some? then found else f.pending;
    if incident.None? then (f, None, [])
    else if reporting then (f.(pending := None), None, [incident.value])
    else (f.(pending := incident), incident, [])
  }

  datatype Action =
    /** The app starts: it looks for an incident, keeps or queues it, and marks itself as running. */
    | Start(me: Marker, reporting: bool)
    | EnterStage(stage: HangStage)
    | LeaveStage
    /** The watchdog looks, the stage under way having run so long. */
    | Check(elapsedMs: nat)
    | HandOver
    | HandoverFailed
    /** The user answers the question about the incident. */
    | Answer
    | CleanExit
    /** The process ends any other way; after a handover the updater ends it so. */
    | End

  predicate Enabled(s: State, a: Action) {
    if a.Start? then s.app.None? else s.app.Some?
  }

  /** What the watchdog writes when it looks, if it does. */
  function Recorded(l: Launch, elapsedMs: nat): Option<Incident> {
    if l.stage.Some? && !l.stage.value.recorded && elapsedMs >= LimitFor(l.stage.value.stage)
    then Some(Incident(l.stage.value.stage, Some(if elapsedMs < U32_MAX then elapsedMs else U32_MAX), l.me))
    else None
  }

  function Begin(s: State, me: Marker, reporting: bool): State {
    var (f1, found) := PreviousIncident(s.files);
    var (f2, toAsk, queue) := ApplyPreviousIncident(f1, found, reporting);
    State(f2.(running := Some(me)), s.queued + queue, Some(Launch(me, toAsk, None)))
  }

  function Next(s: State, a: Action): State
    requires Enabled(s, a)
  {
    match a
    case Start(me, reporting) => Begin(s, me, reporting)
    case EnterStage(stage) => s.(app := Some(s.app.value.(stage := Some(ActiveStage(stage, false)))))
    case LeaveStage => s.(app := Some(s.app.value.(stage := None)))
    case Check(elapsedMs) =>
      if Recorded(s.app.value, elapsedMs).Some? then
        s.(files := s.files.(hang := Recorded(s.app.value, elapsedMs)),
           app := Some(s.app.value.(stage := Some(s.app.value.stage.value.(recorded := true)))))
      else s
    case HandOver => s.(files := s.files.(running := None))
    case HandoverFailed => s.(files := s.files.(running := Some(s.app.value.me)))
    case Answer =>
      if s.app.value.toAsk.Some? then
        s.(files := s.files.(pending := None), app := Some(s.app.value.(toAsk := None)))
      else s
    case CleanExit => s.(files := s.files.(running := None), app := None)
    case End => s.(app := None)
  }

  ghost predicate IsRun(states: seq<State>, actions: seq<Action>) {
    && |states| == |actions| + 1
    && states[0] == FRESH
    && (forall i :: 0 <= i < |actions| ==>
          Enabled(states[i], actions[i]) && states[i + 1] == Next(states[i], actions[i]))
  }

  // ----- incidents are kept -----

  /** The incident the next launch will find, or the running one has to ask about. */
  predicate Owed(s: State, x: Incident) {
    match s.app
    case None =>
      PreviousIncident(s.files).1 == Some(x) || (PreviousIncident(s.files).1 == None && s.files.pending == Some(x))
    case Some(l) => l.toAsk == Some(x) && s.files.pending == Some(x) && s.files.hang == None
  }

  /** The action begins no incident and settles none: the app goes on with reporting off, or ends cleanly
      or by a handover. */
  predicate Uneventful(s: State, a: Action) {
    match a
    case Start(_, reporting) => !reporting
    case Check(elapsedMs) => s.app.Some? && Recorded(s.app.value, elapsedMs) == None
    case Answer => false
    case End => s.files.running == None
    case _ => true
  }

  lemma OwedStaysOwed(s: State, a: Action, x: Incident)
    requires Enabled(s, a) && Owed(s, x) && Uneventful(s, a)
    ensures Owed(Next(s, a), x)
  {
  }

  /** An incident is pending in every launch from the one that finds it on, through any number of clean
      restarts and updates, until it is answered or a newer one takes its place. */
  lemma {:induction false} IncidentIsKept(states: seq<State>, actions: seq<Action>, i: nat, j: nat, x: Incident)
    requires IsRun(states, actions) && i <= j <= |actions|
    requires Owed(states[i], x)
    requires forall k :: i <= k < j ==> Uneventful(states[k], actions[k])
    ensures Owed(states[j], x)
    ensures states[j].app.Some? ==> states[j].app.value.toAsk == Some(x)
  {
    if i < j {
      IncidentIsKept(states, actions, i, j - 1, x);
      assert states[j] == Next(states[j - 1], actions[j - 1]);
      OwedStaysOwed(states[j - 1], actions[j - 1], x);
    }
  }

  /** Markers are the running app's own, and so are the hangs it records. */
  predicate Own(s: State) {
    s.app.Some? ==>
      && (s.files.running.Some? ==> s.files.running.value == s.app.value.me)
      && (s.files.hang.Some? ==> s.files.hang.value.of == s.app.value.me)
      && s.app.value.toAsk == s.files.pending
  }

  lemma {:induction false} RecordsAreOwn(states: seq<State>, actions: seq<Action>, n: nat)
    requires IsRun(states, actions) && n <= |actions|
    ensures Own(states[n])
  {
    if n > 0 {
      RecordsAreOwn(states, actions, n - 1);
      assert states[n] == Next(states[n - 1], actions[n - 1]);
    }
  }

  /** A launch that does not end cleanly is owed for, by the hang it recorded or as a kill; and so is a
      hang recorded by a launch that then ends well. */
  lemma UncleanEndIsOwed(states: seq<State>, actions: seq<Action>, n: nat)
    requires IsRun(states, actions) && n < |actions| && (actions[n].End? || actions[n].CleanExit?)
    requires states[n].files.hang.Some? || (actions[n].End? && states[n].files.running.Some?)
    ensures var me := states[n].app.value.me;
      var x := if states[n].files.hang.Some? then states[n].files.hang.value else KillOf(me);
      Owed(states[n + 1], x) && x.of == me
  {
    RecordsAreOwn(states, actions, n);
  }

  /** With reporting on what is owed is queued at the next start, once, and nothing is left to find. */
  lemma ReportingSettles(s: State, me: Marker, x: Incident)
    requires s.app == None && Owed(s, x)
    ensures var t := Next(s, Start(me, true));
      && t.queued == s.queued + [x] && t.app.value.toAsk == None
      && t.files.pending == None && t.files.hang == None
  {
  }

  // ----- and there is none without a cause -----

  /** Action `i` of the run is what made the incident: the watchdog recorded it, or the app it is of was
      ended with its marker in place. */
  ghost predicate Causes(states: seq<State>, actions: seq<Action>, i: nat, x: Incident)
    requires i < |actions| < |states|
  {
    && states[i].app.Some? && states[i].app.value.me == x.of
    && match actions[i]
       case Check(elapsedMs) => Recorded(states[i].app.value, elapsedMs) == Some(x)
       case End => states[i].files.running == Some(x.of) && x == KillOf(x.of)
       case _ => false
  }

  ghost predicate Caused(states: seq<State>, actions: seq<Action>, n: nat, x: Incident)
    requires n <= |actions| < |states|
  {
    exists i :: 0 <= i < n && Causes(states, actions, i, x)
  }

  ghost predicate AllCaused(states: seq<State>, actions: seq<Action>, n: nat)
    requires n <= |actions| < |states|
  {
    var s := states[n];
    && (s.files.hang.Some? ==> Caused(states, actions, n, s.files.hang.value))
    && (s.files.pending.Some? ==> Caused(states, actions, n, s.files.pending.value))
    && (s.app.Some? && s.app.value.toAsk.Some? ==> Caused(states, actions, n, s.app.value.toAsk.value))
    && (s.app.None? && s.files.running.Some? ==> Caused(states, actions, n, KillOf(s.files.running.value)))
    && (forall x :: x in s.queued ==> Caused(states, actions, n, x))
  }

  /** Every incident a user is asked about, or that is reported, has a cause: a launch that only ever ends
      cleanly or by a completed handover, with no stage past its limit, is never reported as one that did
      not. */
  lemma {:induction false} NoIncidentWithoutCause(states: seq<State>, actions: seq<Action>, n: nat)
    requires IsRun(states, actions) && n <= |actions|
    ensures AllCaused(states, actions, n)
  {
    if n > 0 {
      var p := n - 1;
      NoIncidentWithoutCause(states, actions, p);
      RecordsAreOwn(states, actions, p);
      var s, a := states[p], actions[p];
      assert states[n] == Next(s, a);
      assert forall x :: Caused(states, actions, p, x) ==> Caused(states, actions, n, x);
      if a.Check? && Recorded(s.app.value, a.elapsedMs).Some? {
        assert Causes(states, actions, p, Recorded(s.app.value, a.elapsedMs).value);
      } else if a.End? && s.files.running.Some? {
        assert Causes(states, actions, p, KillOf(s.files.running.value));
      }
    }
  }

  /** Runs of only clean exits and completed handovers, with no stage past its limit, never have anything
      to ask about. */
  lemma GoodRunsAskNothing(states: seq<State>, actions: seq<Action>, n: nat)
    requires IsRun(states, actions) && n <= |actions|
    requires forall i :: 0 <= i < n ==>
      && (actions[i].End? ==> states[i].files.running == None)
      && (actions[i].Check? ==> Recorded(states[i].app.value, actions[i].elapsedMs) == None)
    ensures states[n].files.pending == None && states[n].files.hang == None && states[n].queued == []
    ensures states[n].app.Some? ==> states[n].app.value.toAsk == None
  {
    assert states[n].queued != [] ==> states[n].queued[0] in states[n].queued;
    NoIncidentWithoutCause(states, actions, n);
    assert forall x :: !Caused(states, actions, n, x);
  }
}
