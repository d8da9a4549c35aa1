/** What holds of switching devices in every interleaving of the session's calls with the threads that
    open the devices. */
module DeviceRuns {
  import opened Wrappers
  import opened DeviceSwitching

  datatype Action =
    | DoSwitch(device: Device, spawned: bool)
    | DoPoll
    | DoPark(device: Device)
    | DoFinish(open: OpenId, outcome: Outcome)
    | DoDie(open: OpenId)

  predicate Enabled(s: State, a: Action) {
    (a.DoFinish? || a.DoDie?) ==> IsRunning(s, a.open)
  }

  function Next(s: State, a: Action): State
    requires Enabled(s, a)
  {
    match a
    case DoSwitch(device, spawned) => Switch(s, device, spawned)
    case DoPoll => Poll(s).0
    case DoPark(device) => Park(s, device)
    case DoFinish(open, outcome) => Finish(s, open, outcome)
    case DoDie(open) => Die(s, open)
  }

  ghost predicate IsRun(states: seq<State>, actions: seq<Action>) {
    && |states| == |actions| + 1
    && states[0] == New(states[0].device)
    && (forall i :: 0 <= i < |actions| ==>
          Enabled(states[i], actions[i]) && states[i + 1] == Next(states[i], actions[i]))
  }

  /** What the call at `i` reports, if it is a poll and reports anything. */
  function Reported(states: seq<State>, actions: seq<Action>, i: nat): Option<Report>
    requires i < |actions| < |states|
  {
    if actions[i].DoPoll? then Poll(states[i]).1 else None
  }

  /** The switch at `k` began the open `id` of `device`. */
  predicate Begins(states: seq<State>, actions: seq<Action>, k: nat, id: OpenId, device: Device)
    requires k < |actions| < |states|
  {
    actions[k] == DoSwitch(device, true) && states[k].nextOpen == id
  }

  /** From `k` on, until `i`, no device was asked for and nothing reported. */
  ghost predicate Undisturbed(states: seq<State>, actions: seq<Action>, k: nat, i: nat)
    requires i <= |actions| < |states|
  {
    forall m :: k <= m < i ==> !actions[m].DoSwitch? && !actions[m].DoPark? && Reported(states, actions, m) == None
  }

  // ----- owners -----

  datatype Owner = TheSlot | TheOpen(id: OpenId)

  /** `e` is in the slot's hands or in those of an open that is not through with it. */
  predicate Owns(s: State, o: Owner, e: EngineId) {
    match o
    case TheSlot => s.engine == Some(e)
    case TheOpen(id) => id in s.openers && (s.openers[id].phase.Running? || s.openers[id].phase.Sent?) &&
                        s.openers[id].engine == e
  }

  /** If anything has the engine `e`, it is the open `id`. */
  ghost predicate OnlyOwner(s: State, id: OpenId, e: EngineId) {
    forall o :: Owns(s, o, e) ==> o == TheOpen(id)
  }

  ghost predicate OwnedOnce(s: State) {
    && (forall o, e: EngineId :: Owns(s, o, e) ==> e < s.nextEngine)
    && (forall o1, o2, e: EngineId :: Owns(s, o1, e) && Owns(s, o2, e) ==> o1 == o2)
  }

  /** Where an owner after the step has its engine from, unless it is new. */
  function OwnerBefore(s: State, a: Action, o: Owner): Owner {
    match a
    case DoSwitch(_, spawned) => if spawned && o == TheOpen(s.nextOpen) then TheSlot else o
    case DoPoll => if o.TheSlot? && s.opening.Some? then TheOpen(s.opening.value) else o
    case _ => o
  }

  /** Who owns an engine made in the step. */
  function NewOwner(s: State, a: Action): Owner {
    if a.DoSwitch? && a.spawned then TheOpen(s.nextOpen) else TheSlot
  }

  lemma OwnershipMoves(s: State, a: Action, o: Owner, e: EngineId)
    requires Shape(s) && OwnedOnce(s) && Enabled(s, a) && Owns(Next(s, a), o, e)
    ensures e < Next(s, a).nextEngine
    ensures if e < s.nextEngine then Owns(s, OwnerBefore(s, a, o), e) else o == NewOwner(s, a)
  {
    match a
    case DoSwitch(device, spawned) =>
      assert o.TheOpen? && o.id != s.nextOpen ==> Owns(s, o, e);
      assert s.engine.Some? ==> Owns(s, TheSlot, s.engine.value);
    case DoPoll =>
      assert o.TheOpen? ==> Owns(s, o, e);
      if s.opening.Some? && s.openers[s.opening.value].phase.Sent? {
        assert Owns(s, TheOpen(s.opening.value), s.openers[s.opening.value].engine);
      } else if s.opening.None? || s.openers[s.opening.value].phase.Running? {
        assert Owns(s, o, e);
      }
    case _ =>
      assert Owns(s, o, e);
  }

  lemma OwnedOnceKept(s: State, a: Action)
    requires Shape(s) && OwnedOnce(s) && Enabled(s, a)
    ensures OwnedOnce(Next(s, a))
  {
    var t := Next(s, a);
    forall o, e: EngineId | Owns(t, o, e) ensures e < t.nextEngine {
      OwnershipMoves(s, a, o, e);
    }
    forall o1, o2, e: EngineId | Owns(t, o1, e) && Owns(t, o2, e) ensures o1 == o2 {
      OwnershipMoves(s, a, o1, e);
      OwnershipMoves(s, a, o2, e);
    }
  }

  // ----- the invariant -----

  /** The slot holds an engine, or waits for one, or is parked; and what no one waits for has nothing
      to hand back. */
  predicate Shape(s: State) {
    && !(s.engine.Some? && s.opening.Some?)
    && (s.opening.Some? ==> s.opening.value in s.openers && !s.openers[s.opening.value].phase.Gone?)
    && (forall id :: id in s.openers ==> id < s.nextOpen)
    && (forall id :: id in s.openers && s.opening != Some(id) ==>
          s.openers[id].phase.Running? || s.openers[id].phase.Gone?)
  }

  lemma ShapeKept(s: State, a: Action)
    requires Shape(s) && Enabled(s, a)
    ensures Shape(Next(s, a))
  {
  }

  /** The last action of the session itself was to park. */
  ghost predicate ParkedAt(actions: seq<Action>, i: nat)
    requires i <= |actions|
  {
    exists k :: 0 <= k < i && actions[k].DoPark? && forall m :: k < m < i ==> !actions[m].DoSwitch?
  }

  ghost predicate OpensWell(states: seq<State>, actions: seq<Action>, i: nat, id: OpenId)
    requires i <= |actions| < |states|
  {
    exists k :: 0 <= k < i && id in states[i].openers &&
      Begins(states, actions, k, id, states[i].openers[id].device) &&
      states[i].device == states[i].openers[id].device && Undisturbed(states, actions, k + 1, i)
  }

  ghost predicate Sound(states: seq<State>, actions: seq<Action>, i: nat)
    requires i <= |actions| < |states|
  {
    && Shape(states[i]) && OwnedOnce(states[i])
    && (states[i].opening.Some? ==> OpensWell(states, actions, i, states[i].opening.value))
  }

  lemma {:induction false} RunsAreSound(states: seq<State>, actions: seq<Action>, i: nat)
    requires IsRun(states, actions) && i <= |actions|
    ensures Sound(states, actions, i)
  {
    if i > 0 {
      var p := i - 1;
      RunsAreSound(states, actions, p);
      var s, a, t := states[p], actions[p], states[i];
      assert t == Next(s, a);
      ShapeKept(s, a);
      OwnedOnceKept(s, a);
      hide OwnedOnce, Shape;
      if t.opening.Some? {
        var id := t.opening.value;
        if a.DoSwitch? {
          assert Begins(states, actions, p, id, t.openers[id].device);
        } else {
          assert s.opening == t.opening;
          var k :| 0 <= k < p && Begins(states, actions, k, id, s.openers[id].device) &&
                   Undisturbed(states, actions, k + 1, p);
          assert Begins(states, actions, k, id, t.openers[id].device);
        }
      }
    }
  }

  // ----- what follows -----

  /** A poll reports only the last switch, under the device that was asked for, and before anything else
      was: an open that was given up on is never reported. */
  lemma OnlyTheLastSwitchIsReported(states: seq<State>, actions: seq<Action>, i: nat) returns (k: nat)
    requires IsRun(states, actions) && i < |actions| && Reported(states, actions, i).Some?
    ensures var report := Reported(states, actions, i).value;
      && k < i && Begins(states, actions, k, report.open, report.device)
      && Undisturbed(states, actions, k + 1, i)
      && states[i].device == report.device
  {
    RunsAreSound(states, actions, i);
    var id := states[i].opening.value;
    k :| 0 <= k < i && Begins(states, actions, k, id, states[i].openers[id].device) &&
         Undisturbed(states, actions, k + 1, i);
  }

  /** The open has come to this phase by what its own thread did before `i`. */
  ghost predicate PhaseIsEarned(states: seq<State>, actions: seq<Action>, i: nat, id: OpenId)
    requires i <= |actions| < |states|
  {
    id in states[i].openers ==>
      match states[i].openers[id].phase
      case Sent(outcome) => exists k :: 0 <= k < i && actions[k] == DoFinish(id, outcome)
      case Died => exists k :: 0 <= k < i && actions[k] == DoDie(id)
      case _ => true
  }

  lemma PhaseMoves(s: State, a: Action, id: OpenId)
    requires Enabled(s, a) && id in Next(s, a).openers
    ensures var phase := Next(s, a).openers[id].phase;
      && (phase.Sent? ==> a == DoFinish(id, phase.outcome) || (id in s.openers && s.openers[id].phase == phase))
      && (phase.Died? ==> a == DoDie(id) || (id in s.openers && s.openers[id].phase == phase))
  {
  }

  lemma {:induction false} PhasesAreEarned(states: seq<State>, actions: seq<Action>, i: nat, id: OpenId)
    requires IsRun(states, actions) && i <= |actions|
    ensures PhaseIsEarned(states, actions, i, id)
  {
    if i > 0 {
      PhasesAreEarned(states, actions, i - 1, id);
      assert states[i] == Next(states[i - 1], actions[i - 1]);
      if id in states[i].openers {
        PhaseMoves(states[i - 1], actions[i - 1], id);
      }
      hide Next;
    }
  }

  /** What is reported of an open is what its own thread sent, or that the thread stopped, if it died. */
  lemma ReportIsTheThreads(states: seq<State>, actions: seq<Action>, i: nat)
    requires IsRun(states, actions) && i < |actions| && Reported(states, actions, i).Some?
    ensures var report := Reported(states, actions, i).value;
      || (exists k :: 0 <= k < i && actions[k] == DoFinish(report.open, report.outcome))
      || (report.outcome == STOPPED && exists k :: 0 <= k < i && actions[k] == DoDie(report.open))
  {
    RunsAreSound(states, actions, i);
    PhasesAreEarned(states, actions, i, Reported(states, actions, i).value.open);
  }

  /** Each switch is reported at most once. */
  lemma ReportedOnce(states: seq<State>, actions: seq<Action>, i: nat, j: nat)
    requires IsRun(states, actions) && i < j < |actions|
    requires Reported(states, actions, i).Some? && Reported(states, actions, j).Some?
    ensures Reported(states, actions, i).value.open < Reported(states, actions, j).value.open
  {
    var k := OnlyTheLastSwitchIsReported(states, actions, i);
    var m := OnlyTheLastSwitchIsReported(states, actions, j);
    assert i <= m;
    OpensAreNumbered(states, actions, k, m);
  }

  lemma {:induction false} OpensAreNumbered(states: seq<State>, actions: seq<Action>, k: nat, m: nat)
    requires IsRun(states, actions) && k <= m < |actions|
    ensures states[k].nextOpen <= states[m].nextOpen
    ensures k < m && actions[k].DoSwitch? && actions[k].spawned ==> states[k].nextOpen < states[m].nextOpen
  {
    if k < m {
      OpensAreNumbered(states, actions, k, m - 1);
      assert states[m] == Next(states[m - 1], actions[m - 1]);
    }
  }

  /** At any time the slot holds an engine, waits for an open, or is parked, and only one of them; no
      engine has two owners. */
  lemma AlwaysOneOfThree(states: seq<State>, actions: seq<Action>, i: nat)
    requires IsRun(states, actions) && i <= |actions|
    ensures var s := states[i];
      && !(s.engine.Some? && s.opening.Some?)
      && (s.engine.None? && s.opening.None? <==> ParkedAt(actions, i))
    ensures OwnedOnce(states[i])
  {
    RunsAreSound(states, actions, i);
    ParkedMeansEmpty(states, actions, i);
  }

  lemma {:induction false} ParkedMeansEmpty(states: seq<State>, actions: seq<Action>, i: nat)
    requires IsRun(states, actions) && i <= |actions|
    ensures states[i].engine.None? && states[i].opening.None? <==> ParkedAt(actions, i)
  {
    if i > 0 {
      var p := i - 1;
      ParkedMeansEmpty(states, actions, p);
      RunsAreSound(states, actions, p);
      assert states[i] == Next(states[p], actions[p]);
      if ParkedAt(actions, p) && !actions[p].DoSwitch? {
        var k :| 0 <= k < p && actions[k].DoPark? && forall m :: k < m < p ==> !actions[m].DoSwitch?;
        assert ParkedAt(actions, i);
      }
      if ParkedAt(actions, i) && !actions[p].DoPark? {
        var k :| 0 <= k < i && actions[k].DoPark? && forall m :: k < m < i ==> !actions[m].DoSwitch?;
        assert ParkedAt(actions, p);
      }
    }
  }

  /** `device` is the one last asked for, by a switch that could not start as by one that could. */
  lemma {:induction false} DeviceIsLastAskedFor(states: seq<State>, actions: seq<Action>, i: nat, k: nat)
    requires IsRun(states, actions) && k < i <= |actions|
    requires actions[k].DoSwitch? || actions[k].DoPark?
    requires forall m :: k < m < i ==> !actions[m].DoSwitch? && !actions[m].DoPark?
    ensures states[i].device == actions[k].device
  {
    assert states[i] == Next(states[i - 1], actions[i - 1]);
    if k < i - 1 {
      DeviceIsLastAskedFor(states, actions, i - 1, k);
    }
  }

  /** An open that was given up on leaves nothing: once another device was asked for, its engine is
      never the slot's again. */
  lemma AbandonedIsNotAdopted(states: seq<State>, actions: seq<Action>, k: nat, j: nat, i: nat,
                            id: OpenId, device: Device)
    requires IsRun(states, actions) && k < j < i <= |actions|
    requires Begins(states, actions, k, id, device) && Undisturbed(states, actions, k + 1, j)
    requires actions[j].DoSwitch? || actions[j].DoPark?
    ensures states[i].opening != Some(id)
    ensures id in states[k + 1].openers && states[i].engine != Some(states[k + 1].openers[id].engine)
  {
    assert states[k + 1] == Next(states[k], actions[k]);
    StillOpening(states, actions, k, j, id, device);
    RunsAreSound(states, actions, j);
    assert states[j + 1] == Next(states[j], actions[j]);
    var e := states[k + 1].openers[id].engine;
    assert e < states[j].nextEngine;
    var after := states[j + 1];
    forall o | Owns(after, o, e) ensures o == TheOpen(id) {
      OwnershipMoves(states[j], actions[j], o, e);
    }
    GivenUp(states, actions, j + 1, i, id, e);
  }

  // until it is given up on the open is waited for, and no one else has its engine
  lemma {:induction false} StillOpening(states: seq<State>, actions: seq<Action>, k: nat, j: nat,
                                        id: OpenId, device: Device)
    requires IsRun(states, actions) && k < j <= |actions|
    requires Begins(states, actions, k, id, device) && Undisturbed(states, actions, k + 1, j)
    ensures states[j].opening == Some(id) && id in states[j].openers && id in states[k + 1].openers
    ensures states[j].openers[id].engine == states[k + 1].openers[id].engine < states[j].nextEngine
    ensures OnlyOwner(states[j], id, states[k + 1].openers[id].engine)
  {
    hide Shape, OwnedOnce, OpensWell;
    var s := states[j - 1];
    RunsAreSound(states, actions, j - 1);
    RunsAreSound(states, actions, k + 1);
    assert states[j] == Next(s, actions[j - 1]);
    if k + 1 < j {
      StillOpening(states, actions, k, j - 1, id, device);
      assert Reported(states, actions, j - 1) == None;
      StepKeepsEngine(s, actions[j - 1], id, states[k + 1].openers[id].engine);
    } else {
      FirstOwner(s, actions[k], states[j]);
    }
  }

  lemma FirstOwner(s: State, a: Action, t: State)
    requires a.DoSwitch? && a.spawned && t == Next(s, a) && OwnedOnce(t)
    ensures s.nextOpen in t.openers && t.opening == Some(s.nextOpen)
    ensures t.openers[s.nextOpen].engine < t.nextEngine
    ensures OnlyOwner(t, s.nextOpen, t.openers[s.nextOpen].engine)
  {
    assert Owns(t, TheOpen(s.nextOpen), t.openers[s.nextOpen].engine);
  }

  lemma StepKeepsEngine(s: State, a: Action, id: OpenId, e: EngineId)
    requires Shape(s) && OwnedOnce(s) && Enabled(s, a) && s.opening == Some(id) && s.openers[id].engine == e
    requires !a.DoSwitch? && !a.DoPark? && (a.DoPoll? ==> Poll(s).1 == None)
    requires e < s.nextEngine && OnlyOwner(s, id, e)
    ensures var t := Next(s, a);
      && t.opening == Some(id) && id in t.openers && t.openers[id].engine == e && e < t.nextEngine
      && OnlyOwner(t, id, e)
  {
    forall o | Owns(Next(s, a), o, e) ensures o == TheOpen(id) {
      OwnershipMoves(s, a, o, e);
      assert Owns(s, o, e) || Owns(s, OwnerBefore(s, a, o), e);
    }
  }

  // the engine of an open that was given up on is the open's, or no one's
  lemma {:induction false} GivenUp(states: seq<State>, actions: seq<Action>, j: nat, i: nat, id: OpenId, e: EngineId)
    requires IsRun(states, actions) && j <= i <= |actions|
    requires states[j].opening != Some(id) && id < states[j].nextOpen && e < states[j].nextEngine
    requires OnlyOwner(states[j], id, e)
    ensures states[i].opening != Some(id) && id < states[i].nextOpen && e < states[i].nextEngine
    ensures OnlyOwner(states[i], id, e)
    ensures states[i].engine != Some(e)
  {
    if j < i {
      GivenUp(states, actions, j, i - 1, id, e);
      RunsAreSound(states, actions, i - 1);
      assert states[i] == Next(states[i - 1], actions[i - 1]);
      var now := states[i];
      forall o | Owns(now, o, e) ensures o == TheOpen(id) {
        OwnershipMoves(states[i - 1], actions[i - 1], o, e);
      }
    }
    assert Owns(states[i], TheSlot, e) <==> states[i].engine == Some(e);
  }

  /** What was waited for is reported by the next poll, as soon as its thread is through. */
  lemma FinishedIsReported(states: seq<State>, actions: seq<Action>, i: nat)
    requires IsRun(states, actions) && i < |actions| && actions[i].DoPoll?
    requires states[i].opening.Some? && !IsRunning(states[i], states[i].opening.value)
    ensures Reported(states, actions, i).Some?
  {
    RunsAreSound(states, actions, i);
  }

  // ----- which engine it is -----

  lemma {:induction false} EnginesAreNumbered(states: seq<State>, actions: seq<Action>, k: nat, m: nat)
    requires IsRun(states, actions) && k <= m <= |actions|
    ensures states[k].nextEngine <= states[m].nextEngine
  {
    if k < m {
      EnginesAreNumbered(states, actions, k, m - 1);
      assert states[m] == Next(states[m - 1], actions[m - 1]);
    }
  }

  /** No one has had the engine up to `i`. */
  ghost predicate NeverOwned(states: seq<State>, i: nat, e: EngineId)
    requires i < |states|
  {
    forall m, o :: 0 <= m <= i ==> !Owns(states[m], o, e)
  }

  lemma NextIsNeverOwned(states: seq<State>, actions: seq<Action>, i: nat, e: EngineId)
    requires IsRun(states, actions) && i <= |actions| && states[i].nextEngine <= e
    ensures NeverOwned(states, i, e)
  {
    forall m, o | 0 <= m <= i ensures !Owns(states[m], o, e) {
      RunsAreSound(states, actions, m);
      EnginesAreNumbered(states, actions, m, i);
    }
  }

  /** A thread that is through stays so, as it was through with its open. */
  lemma {:induction false} ThroughForGood(states: seq<State>, actions: seq<Action>, j: nat, i: nat, id: OpenId)
    requires IsRun(states, actions) && j < i <= |actions|
    requires (actions[j].DoFinish? || actions[j].DoDie?) && actions[j].open == id
    ensures id in states[i].openers
    ensures var phase := states[i].openers[id].phase;
      phase.Gone? || phase == (if actions[j].DoFinish? then Sent(actions[j].outcome) else Died)
  {
    var s := states[i - 1];
    RunsAreSound(states, actions, i - 1);
    assert states[i] == Next(s, actions[i - 1]);
    if j < i - 1 {
      ThroughForGood(states, actions, j, i - 1, id);
    }
  }

  /** With a report the slot has its engine back: the very one the switch gave the open, if its thread had
      finished, success or not; and one that no one ever had, if the thread had died with its own. */
  lemma ReportBringsTheEngine(states: seq<State>, actions: seq<Action>, i: nat, j: nat, k: nat)
    requires IsRun(states, actions) && j < i < |actions| && Reported(states, actions, i).Some?
    requires var report := Reported(states, actions, i).value;
      && k < i && Begins(states, actions, k, report.open, report.device) && Undisturbed(states, actions, k + 1, i)
      && (actions[j].DoFinish? || actions[j].DoDie?) && actions[j].open == report.open
    ensures var report := Reported(states, actions, i).value;
      && report.open in states[k + 1].openers && states[i + 1].engine.Some?
      && (actions[j].DoFinish? ==>
            && states[i + 1].engine == Some(states[k + 1].openers[report.open].engine)
            && report.outcome == actions[j].outcome)
      && (actions[j].DoDie? ==>
            NeverOwned(states, i, states[i + 1].engine.value) && report.outcome == STOPPED)
  {
    var report := Reported(states, actions, i).value;
    StillOpening(states, actions, k, i, report.open, report.device);
    ThroughForGood(states, actions, j, i, report.open);
    RunsAreSound(states, actions, i);
    assert states[i + 1] == Next(states[i], actions[i]);
    if actions[j].DoDie? {
      NextIsNeverOwned(states, actions, i, states[i].nextEngine);
    }
  }

  /** Such a thread there was for every report. */
  lemma ReportHasAThread(states: seq<State>, actions: seq<Action>, i: nat) returns (j: nat)
    requires IsRun(states, actions) && i < |actions| && Reported(states, actions, i).Some?
    ensures j < i && (actions[j].DoFinish? || actions[j].DoDie?)
    ensures actions[j].open == Reported(states, actions, i).value.open
  {
    var id := Reported(states, actions, i).value.open;
    RunsAreSound(states, actions, i);
    PhasesAreEarned(states, actions, i, id);
    match states[i].openers[id].phase
    case Sent(outcome) => j :| 0 <= j < i && actions[j] == DoFinish(id, outcome);
    case Died => j :| 0 <= j < i && actions[j] == DoDie(id);
  }

  /** A switch gives the open the engine the slot holds, if it holds one, and else one that no one ever had;
      if its thread cannot start, the slot gets one that no one ever had, and the one it held is no one's. */
  lemma SwitchHandsOver(states: seq<State>, actions: seq<Action>, i: nat)
    requires IsRun(states, actions) && i < |actions| && actions[i].DoSwitch?
    ensures var (s, t) := (states[i], states[i + 1]);
      if actions[i].spawned then
        && s.nextOpen in t.openers && t.opening == Some(s.nextOpen) && t.engine.None?
        && (s.engine.Some? ==> t.openers[s.nextOpen].engine == s.engine.value)
        && (s.engine.None? ==> NeverOwned(states, i, t.openers[s.nextOpen].engine))
      else
        && t.engine.Some? && NeverOwned(states, i, t.engine.value)
        && (s.engine.Some? ==> forall o :: !Owns(t, o, s.engine.value))
  {
    var s := states[i];
    RunsAreSound(states, actions, i);
    assert states[i + 1] == Next(s, actions[i]);
    NextIsNeverOwned(states, actions, i, s.nextEngine);
    NextIsNeverOwned(states, actions, i, s.nextEngine + 1);
    if s.engine.Some? && !actions[i].spawned {
      var after, e := states[i + 1], s.engine.value;
      assert Owns(s, TheSlot, e);
      forall o ensures !Owns(after, o, e) {
        if Owns(after, o, e) {
          OwnershipMoves(s, actions[i], o, e);
        }
      }
    }
  }
}
