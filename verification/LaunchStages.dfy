/** What the records say of a launch, told by what happened in it: which stage hung, and whether it was
    handed over to the updater. */
module LaunchStages {
  import opened Wrappers
  import opened LaunchRecords

  // ----- the marker -----

  /** Among the first `n` actions the launch under way was handed over to the updater, and not in vain. */
  ghost predicate HandedOver(actions: seq<Action>, n: nat)
    requires n <= |actions|
  {
    exists j :: 0 <= j < n && actions[j].HandOver? && forall k :: j < k < n ==> !actions[k].HandoverFailed? && !actions[k].Start?
  }

  /** While an app runs its marker is in place, except once it was handed over. */
  lemma {:induction false} MarkerIsInPlace(states: seq<State>, actions: seq<Action>, n: nat)
    requires IsRun(states, actions) && n <= |actions| && states[n].app.Some?
    ensures states[n].files.running == if HandedOver(actions, n) then None else Some(states[n].app.value.me)
  {
    var p := n - 1;
    assert states[n] == Next(states[p], actions[p]);
    if !actions[p].Start? {
      MarkerIsInPlace(states, actions, p);
      if HandedOver(actions, p) && !actions[p].HandoverFailed? {
        var j :| 0 <= j < p && actions[j].HandOver? && forall k :: j < k < p ==> !actions[k].HandoverFailed? && !actions[k].Start?;
        assert HandedOver(actions, n);
      }
    }
  }

  /** A launch that ends by the updater, or by a clean exit, leaves nothing to be taken for a kill; one that
      ends any other way leaves its marker, and with no hang recorded it is found as killed. */
  lemma WhatAnEndLeaves(states: seq<State>, actions: seq<Action>, n: nat)
    requires IsRun(states, actions) && n < |actions| && (actions[n].End? || actions[n].CleanExit?)
    ensures var (me, left) := (states[n].app.value.me, states[n + 1].files);
      && states[n + 1].app == None
      && (actions[n].CleanExit? || HandedOver(actions, n) ==> left.running == None)
      && (actions[n].End? && !HandedOver(actions, n) ==>
            && left.running == Some(me)
            && (left.hang == None ==> PreviousIncident(left).1 == Some(Incident(Unknown, None, me))))
  {
    MarkerIsInPlace(states, actions, n);
    assert states[n + 1] == Next(states[n], actions[n]);
  }

  // ----- the stages -----

  predicate ChangesStage(a: Action) {
    a.EnterStage? || a.LeaveStage? || a.Start? || a.End? || a.CleanExit?
  }

  /** The stage entered by action `i` is under way before action `n`. */
  predicate InStage(actions: seq<Action>, i: nat, n: nat)
    requires n <= |actions|
  {
    i < n && actions[i].EnterStage? && forall k :: i < k < n ==> !ChangesStage(actions[k])
  }

  /** A look after action `i` and before `n` found the stage past its limit. */
  ghost predicate SeenOverrun(actions: seq<Action>, i: nat, n: nat, stage: HangStage)
    requires n <= |actions|
  {
    exists k :: i < k < n && actions[k].Check? && actions[k].elapsedMs >= LimitFor(stage)
  }

  lemma {:induction false} StageIsWatched(states: seq<State>, actions: seq<Action>, i: nat, n: nat)
    requires IsRun(states, actions) && n <= |actions| && InStage(actions, i, n)
    ensures states[n].app.Some?
    ensures states[n].app.value.stage == Some(ActiveStage(actions[i].stage, SeenOverrun(actions, i, n, actions[i].stage)))
  {
    var p := n - 1;
    assert states[n] == Next(states[p], actions[p]);
    if i < p {
      StageIsWatched(states, actions, i, p);
      if SeenOverrun(actions, i, p, actions[i].stage) {
        var k :| i < k < p && actions[k].Check? && actions[k].elapsedMs >= LimitFor(actions[i].stage);
        assert SeenOverrun(actions, i, n, actions[i].stage);
      }
    }
  }

  /** A stage past its limit is recorded as it is first seen, by its name, with the time it took as far as
      32 bits go, and not again. */
  lemma OverrunIsRecorded(states: seq<State>, actions: seq<Action>, i: nat, n: nat)
    requires IsRun(states, actions) && n < |actions| && InStage(actions, i, n) && actions[n].Check?
    ensures states[n].app.Some?
    ensures var (stage, elapsed, me) := (actions[i].stage, actions[n].elapsedMs, states[n].app.value.me);
      states[n + 1].files.hang ==
        if elapsed >= LimitFor(stage) && !SeenOverrun(actions, i, n, stage)
        then Some(Incident(stage, Some(if elapsed < 0x1_0000_0000 then elapsed else 0xFFFF_FFFF), me))
        else states[n].files.hang
  {
    StageIsWatched(states, actions, i, n);
    assert states[n + 1] == Next(states[n], actions[n]);
  }

  /** The launch is in no stage before action `n`: whatever it entered it left. */
  ghost predicate InNoStage(actions: seq<Action>, n: nat)
    requires n <= |actions|
  {
    forall i :: 0 <= i < n ==> !InStage(actions, i, n)
  }

  lemma {:induction false} NoStageIsWatched(states: seq<State>, actions: seq<Action>, n: nat)
    requires IsRun(states, actions) && n <= |actions| && InNoStage(actions, n) && states[n].app.Some?
    ensures states[n].app.value.stage == None
  {
    var p := n - 1;
    assert states[n] == Next(states[p], actions[p]);
    assert !InStage(actions, p, n);
    if !ChangesStage(actions[p]) {
      forall i | 0 <= i < p ensures !InStage(actions, i, p) {
        assert !InStage(actions, i, n);
      }
      NoStageIsWatched(states, actions, p);
    }
  }

  /** And outside a stage nothing is. */
  lemma NothingIsRecordedOutside(states: seq<State>, actions: seq<Action>, n: nat)
    requires IsRun(states, actions) && n < |actions| && InNoStage(actions, n) && actions[n].Check?
    ensures states[n + 1] == states[n]
  {
    NoStageIsWatched(states, actions, n);
    assert states[n + 1] == Next(states[n], actions[n]);
  }

  lemma {:induction false} HangStays(states: seq<State>, actions: seq<Action>, n: nat, m: nat)
    requires IsRun(states, actions) && n <= m <= |actions| && states[n].files.hang.Some?
    requires forall k :: n <= k < m ==> !actions[k].Start?
    ensures states[m].files.hang.Some?
  {
    if n < m {
      HangStays(states, actions, n, m - 1);
      assert states[m] == Next(states[m - 1], actions[m - 1]);
    }
  }

  /** A launch one of whose stages was seen past its limit is owed for a hang, however it ends. */
  lemma OverrunIsOwed(states: seq<State>, actions: seq<Action>, i: nat, n: nat, m: nat)
    requires IsRun(states, actions) && n < m < |actions| && InStage(actions, i, n) && actions[n].Check?
    requires actions[n].elapsedMs >= LimitFor(actions[i].stage) && !SeenOverrun(actions, i, n, actions[i].stage)
    requires (forall k :: n < k < m ==> !actions[k].Start?) && (actions[m].End? || actions[m].CleanExit?)
    ensures states[m].app.Some? && exists x :: Owed(states[m + 1], x) && x.of == states[m].app.value.me && x.stalledMs.Some?
  {
    OverrunIsRecorded(states, actions, i, n);
    HangStays(states, actions, n + 1, m);
    HangsHaveATime(states, actions, m);
    UncleanEndIsOwed(states, actions, m);
    assert Owed(states[m + 1], states[m].files.hang.value);
  }

  lemma {:induction false} HangsHaveATime(states: seq<State>, actions: seq<Action>, n: nat)
    requires IsRun(states, actions) && n <= |actions|
    ensures states[n].files.hang.Some? ==> states[n].files.hang.value.stalledMs.Some?
  {
    if n > 0 {
      HangsHaveATime(states, actions, n - 1);
      assert states[n] == Next(states[n - 1], actions[n - 1]);
    }
  }

  // ----- answers -----

  /** There is nothing to ask about, and nothing to be found. */
  predicate Clear(s: State) {
    && s.files.pending == None && s.files.hang == None
    && (if s.app.Some? then s.app.value.toAsk == None else s.files.running == None)
  }

  lemma {:induction false} ClearStaysClear(states: seq<State>, actions: seq<Action>, n: nat, m: nat)
    requires IsRun(states, actions) && n <= m <= |actions| && Clear(states[n])
    requires forall k :: n <= k < m ==> Uneventful(states[k], actions[k]) || actions[k].Answer?
    ensures Clear(states[m]) && states[m].queued == states[n].queued
  {
    if n < m {
      ClearStaysClear(states, actions, n, m - 1);
      assert states[m] == Next(states[m - 1], actions[m - 1]);
    }
  }

  /** What was answered is not asked again, nor reported, in this launch or in any later one, over every
      stretch in which nothing new happens. */
  lemma AnsweredIsSettled(states: seq<State>, actions: seq<Action>, n: nat, m: nat)
    requires IsRun(states, actions) && n < m <= |actions| && actions[n].Answer? && states[n].files.hang == None
    requires forall k :: n < k < m ==> Uneventful(states[k], actions[k]) || actions[k].Answer?
    ensures Clear(states[m]) && states[m].queued == states[n].queued
  {
    RecordsAreOwn(states, actions, n);
    assert states[n + 1] == Next(states[n], actions[n]);
    ClearStaysClear(states, actions, n + 1, m);
  }
}
