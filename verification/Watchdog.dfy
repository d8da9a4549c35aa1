/** The objects that keep the records of a launch: the state directory's files, `Watchdog` of
    src-tauri/src/watchdog.rs and the pending hang of `UsageState`, src-tauri/src/usage.rs. */
module Watchdog {
  import opened Wrappers
  import opened LaunchRecords

  /** The files of the state directory, each there or not. */
  class StateDir {
    var running: Option<Marker>
    var hang: Option<Incident>
    var pending: Option<Incident>

    ghost function View(): Files
      reads this
    {
      Files(running, hang, pending)
    }

    method TakeHang() returns (found: Option<Incident>)
      modifies this`hang
      ensures found == old(hang) && hang == None
    {
      found := hang;
      hang := None;
    }

    method TakeRunningMarker() returns (found: Option<Marker>)
      modifies this`running
      ensures found == old(running) && running == None
    {
      found := running;
      running := None;
    }

    method PreviousIncident() returns (found: Option<Incident>)
      modifies this
      ensures (View(), found) == LaunchRecords.PreviousIncident(old(View()))
    {
      found := TakeHang();
      if found.Some? {
        return;
      }
      var marker := TakeRunningMarker();
      if marker.Some? {
        return Some(KillOf(marker.value));
      }
      return None;
    }
  }

  class UsageState {
    const dir: StateDir
    const reporting: bool
    var queued: seq<Incident>
    var pendingHang: Option<Incident>

    constructor (dir: StateDir, reporting: bool, queued: seq<Incident>)
      ensures this.dir == dir && this.reporting == reporting && this.queued == queued && pendingHang == None
    {
      this.dir, this.reporting, this.queued, pendingHang := dir, reporting, queued, None;
    }

    method ApplyPreviousIncident(found: Option<Incident>)
      requires pendingHang == None
      modifies this, dir
      ensures var (files, toAsk, queue) := LaunchRecords.ApplyPreviousIncident(old(dir.View()), found, reporting);
        dir.View() == files && pendingHang == toAsk && queued == old(queued) + queue
    {
      var incident := if found.Some? then found else dir.pending;
      if incident.None? {
        return;
      }
      if reporting {
        queued := queued + [incident.value];
        dir.pending := None;
      } else {
        dir.pending := incident;
        pendingHang := incident;
      }
    }

    method TakePendingHang() returns (taken: Option<Incident>)
      modifies this`pendingHang, dir`pending
      ensures taken == old(pendingHang) && pendingHang == None && queued == old(queued)
      ensures dir.pending == if taken.Some? then None else old(dir.pending)
    {
      taken := pendingHang;
      pendingHang := None;
      if taken.Some? {
        dir.pending := None;
      }
    }
  }

  class Watchdog {
    const dir: StateDir
    const me: Marker
    var stage: Option<ActiveStage>
    var stopped: bool

    /** install: marks this launch as running. */
    constructor (dir: StateDir, me: Marker)
      modifies dir`running
      ensures this.dir == dir && this.me == me && stage == None && !stopped
      ensures dir.running == Some(me)
    {
      this.dir, this.me, stage, stopped := dir, me, None, false;
      new;
      dir.running := Some(me);
    }

    ghost function View(usage: UsageState): State
      reads this, dir, usage
    {
      State(dir.View(), usage.queued, Some(Launch(me, usage.pendingHang, stage)))
    }

    method EnterStage(entered: HangStage)
      modifies this`stage
      ensures stage == Some(ActiveStage(entered, false))
    {
      stage := Some(ActiveStage(entered, false));
    }

    method LeaveStage()
      modifies this`stage
      ensures stage == None
    {
      stage := None;
    }

    /** One turn of the loop that checks the stage under way. */
    method Check(elapsedMs: nat, ghost usage: UsageState)
      requires usage.dir == dir
      modifies this`stage, dir`hang
      ensures !stopped ==> View(usage) == Next(old(View(usage)), LaunchRecords.Check(elapsedMs))
      ensures stopped ==> View(usage) == old(View(usage))
    {
      if stopped || stage.None? || stage.value.recorded {
        return;
      }
      var active := stage.value;
      if elapsedMs < LimitFor(active.stage) {
        return;
      }
      stage := Some(active.(recorded := true));
      var stalledMs := if elapsedMs < U32_MAX then elapsedMs else U32_MAX;
      dir.hang := Some(Incident(active.stage, Some(stalledMs), me));
    }

    method HandingOverToInstaller(ghost usage: UsageState)
      requires usage.dir == dir
      modifies dir`running
      ensures View(usage) == Next(old(View(usage)), HandOver)
    {
      dir.running := None;
    }

    method HandoverFailed(ghost usage: UsageState)
      requires usage.dir == dir
      modifies dir`running
      ensures View(usage) == Next(old(View(usage)), LaunchRecords.HandoverFailed)
    {
      dir.running := Some(me);
    }

    /** After this the process ends, with the files a clean exit leaves. */
    method MarkCleanExit(ghost usage: UsageState)
      requires usage.dir == dir
      modifies this`stopped, dir`running
      ensures stopped
      ensures State(dir.View(), usage.queued, None) == Next(old(View(usage)), CleanExit)
    {
      stopped := true;
      dir.running := None;
    }
  }

  /** What an app does about the last launch as it starts, in this order: the marker it looks for is
      overwritten by its own. */
  method StartUp(dir: StateDir, me: Marker, reporting: bool, queued: seq<Incident>)
    returns (usage: UsageState, watchdog: Watchdog)
    modifies dir
    ensures fresh(usage) && fresh(watchdog) && usage.dir == watchdog.dir == dir && !watchdog.stopped
    ensures watchdog.View(usage) == Next(State(old(dir.View()), queued, None), Start(me, reporting))
  {
    usage := new UsageState(dir, reporting, queued);
    var found := dir.PreviousIncident();
    usage.ApplyPreviousIncident(found);
    watchdog := new Watchdog(dir, me);
  }

  /** The user is asked, and answers. */
  method AnswerPrevious(usage: UsageState, ghost watchdog: Watchdog) returns (answered: Option<Incident>)
    requires usage.dir == watchdog.dir
    modifies usage, usage.dir
    ensures watchdog.View(usage) == Next(old(watchdog.View(usage)), Answer)
    ensures answered == old(usage.pendingHang)
  {
    answered := usage.TakePendingHang();
  }
}
