/** The object a session holds for each direction of its audio: DeviceSlot of
    src-tauri/src/audio_slot.rs. */
module AudioSlot {
  import opened Wrappers
  import opened DeviceSwitching

  /** The threads and the channels they answer on. */
  class Openers {
    var openers: map<OpenId, Opener>
    var nextEngine: EngineId
    var nextOpen: OpenId

    constructor ()
      ensures openers == map[] && nextEngine == 1 && nextOpen == 0
    {
      openers, nextEngine, nextOpen := map[], 1, 0;
    }

    method MakeEngine() returns (engine: EngineId)
      modifies this`nextEngine
      ensures engine == old(nextEngine) && nextEngine == engine + 1
    {
      engine := nextEngine;
      nextEngine := nextEngine + 1;
    }

    /** The receiver is dropped, and what was sent to it with it. */
    method Drop(opening: Option<OpenId>)
      modifies this`openers
      ensures openers ==
        if opening.Some? && opening.value in old(openers) && !old(openers)[opening.value].phase.Running?
        then old(openers)[opening.value := old(openers)[opening.value].(phase := Gone)] else old(openers)
    {
      if opening.Some? && opening.value in openers && !openers[opening.value].phase.Running? {
        openers := openers[opening.value := openers[opening.value].(phase := Gone)];
      }
    }

    method Spawn(device: Device, engine: EngineId) returns (id: OpenId)
      modifies this`openers, this`nextOpen
      ensures id == old(nextOpen) && nextOpen == id + 1
      ensures openers == old(openers)[id := Opener(device, engine, Running)]
    {
      id := nextOpen;
      nextOpen := nextOpen + 1;
      openers := openers[id := Opener(device, engine, Running)];
    }
  }

  class DeviceSlot {
    var engine: Option<EngineId>
    var opening: Option<OpenId>
    var device: Device
    const threads: Openers

    ghost function View(): State
      reads this, threads
    {
      State(engine, opening, device, threads.openers, threads.nextEngine, threads.nextOpen)
    }

    constructor (device: Device)
      ensures View() == New(device) && fresh(threads)
    {
      engine, opening, this.device := Some(0), None, device;
      threads := new Openers();
    }

    method Park(device: Device)
      modifies this, threads
      ensures View() == DeviceSwitching.Park(old(View()), device)
    {
      threads.Drop(opening);
      opening := None;
      engine := None;
      this.device := device;
    }

    method Switch(device: Device, spawned: bool)
      modifies this, threads
      ensures View() == DeviceSwitching.Switch(old(View()), device, spawned)
    {
      this.device := device;
      var taken;
      if engine.Some? {
        taken := engine.value;
        engine := None;
      } else {
        taken := threads.MakeEngine();
      }
      threads.Drop(opening);
      opening := None;
      if spawned {
        var id := threads.Spawn(device, taken);
        opening := Some(id);
      } else {
        var spare := threads.MakeEngine();
        engine := Some(spare);
      }
    }

    method Poll() returns (report: Option<Report>)
      modifies this, threads
      ensures (View(), report) == DeviceSwitching.Poll(old(View()))
    {
      if opening.None? || opening.value !in threads.openers {
        return None;
      }
      var id := opening.value;
      var opener := threads.openers[id];
      match opener.phase {
        case Running => return None;
        case Sent(outcome) =>
          threads.Drop(opening);
          engine := Some(opener.engine);
          opening := None;
          return Some(Report(id, opener.device, outcome));
        case _ =>
          threads.Drop(opening);
          var spare := threads.MakeEngine();
          engine := Some(spare);
          opening := None;
          return Some(Report(id, opener.device, STOPPED));
      }
    }
  }
}
