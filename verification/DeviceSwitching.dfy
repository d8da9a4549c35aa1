/** One direction of a session's audio and the device being switched to, with the threads that open
    devices for it (src-tauri/src/audio_slot.rs). */
module DeviceSwitching {
  import opened Wrappers

  type Device = Option<string>
  type EngineId = nat
  type OpenId = nat

  /** How an open went, as far as this module cares: what it made, or an error. */
  type Outcome = Result<nat, string>

  /** Where an opening thread is. It holds its engine while it runs; when it is through it sends the
      engine and the outcome, if anyone still listens, and else the engine is closed. */
  datatype Phase = Running | Sent(outcome: Outcome) | Died | Gone

  datatype Opener = Opener(device: Device, engine: EngineId, phase: Phase)

  datatype State = State(
    engine: Option<EngineId>,
    opening: Option<OpenId>,
    device: Device,
    openers: map<OpenId, Opener>,
    nextEngine: EngineId,
    nextOpen: OpenId)

  datatype Report = Report(open: OpenId, device: Device, outcome: Outcome)

  const STOPPED: Outcome := Err("the switch stopped")

  function New(device: Device): State {
    State(Some(0), None, device, map[], 1, 0)
  }

  /** Whoever listened to the open stops listening: what it sent, if it did, is closed. */
  function GiveUp(s: State): State {
    if s.opening.Some? && s.opening.value in s.openers && !s.openers[s.opening.value].phase.Running? then
      s.(opening := None, openers := s.openers[s.opening.value := s.openers[s.opening.value].(phase := Gone)])
    else s.(opening := None)
  }

  function Park(s: State, device: Device): State {
    GiveUp(s).(engine := None, device := device)
  }

  /** `spawned` is whether a thread could be started. */
  function Switch(s: State, device: Device, spawned: bool): State {
    var (engine, next) := if s.engine.Some? then (s.engine.value, s.nextEngine) else (s.nextEngine, s.nextEngine + 1);
    var free := GiveUp(s).(engine := None, device := device, nextEngine := next);
    if spawned then
      free.(opening := Some(s.nextOpen), nextOpen := s.nextOpen + 1,
            openers := free.openers[s.nextOpen := Opener(device, engine, Running)])
    else free.(engine := Some(next), nextEngine := next + 1)
  }

  function Poll(s: State): (State, Option<Report>) {
    if s.opening.None? || s.opening.value !in s.openers then (s, None)
    else
      var id := s.opening.value;
      var opener := s.openers[id];
      var closed := s.(opening := None, openers := s.openers[id := opener.(phase := Gone)]);
      match opener.phase
      case Running => (s, None)
      case Sent(outcome) => (closed.(engine := Some(opener.engine)), Some(Report(id, opener.device, outcome)))
      case _ => (closed.(engine := Some(s.nextEngine), nextEngine := s.nextEngine + 1),
                 Some(Report(id, opener.device, STOPPED)))
  }

  predicate IsRunning(s: State, id: OpenId) {
    id in s.openers && s.openers[id].phase.Running?
  }

  /** A thread is through with its open. */
  function Finish(s: State, id: OpenId, outcome: Outcome): State
    requires IsRunning(s, id)
  {
    s.(openers := s.openers[id := s.openers[id].(phase := if s.opening == Some(id) then Sent(outcome) else Gone)])
  }

  /** A thread ends without an answer, a panic in a driver say. */
  function Die(s: State, id: OpenId): State
    requires IsRunning(s, id)
  {
    s.(openers := s.openers[id := s.openers[id].(phase := if s.opening == Some(id) then Died else Gone)])
  }
}
