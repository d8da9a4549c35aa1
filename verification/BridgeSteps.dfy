/** A helper's calls to the helped app and the answers that come back, in any interleaving
    (src-tauri/src/help_link.rs:93-165). A call is several steps, and between any two of them others may
    run. */
module BridgeSteps {
  import opened Wrappers

  type Value = string
  type CallId = nat

  datatype RpcError = Ended | NotAnswered | Unreadable | Remote(code: string, message: string)

  type Answer = Result<Value, RpcError>

  /** The one-shot channel of a call: open, used, or its sender gone. */
  datatype Channel = Open | Answered(answer: Answer) | Closed

  /** How far a call has come: it has its number; it is in the table and sends its frame; it waits for
      the channel; the time is up; it has returned. */
  datatype Stage = Numbered | Sending | Awaiting | TimedOut | Returned(result: Answer)

  datatype Call = Call(stage: Stage, channel: Channel)

  /** The calls made so far, by number, and the table of those waiting to be answered. */
  datatype State = State(nextId: CallId, pending: set<CallId>, calls: map<CallId, Call>)

  const FRESH := State(1, {}, map[])

  datatype Action =
    | TakeNumber
    | Insert(id: CallId)
    /** The frame went out, or the sender's channel was closed. */
    | SendFrame(id: CallId, sent: bool)
    /** A frame came in that answers `id`. */
    | Receive(id: CallId, answer: Answer)
    | Close
    /** The call finds its channel settled. */
    | Wake(id: CallId)
    /** The call has waited long enough and lets go of the channel. */
    | TimeOut(id: CallId)
    /** And takes itself out of the table. */
    | Forget(id: CallId)

  predicate At(s: State, id: CallId, stage: Stage) {
    id in s.calls && s.calls[id].stage == stage
  }

  predicate Enabled(s: State, a: Action) {
    match a
    case Insert(id) => At(s, id, Numbered)
    case SendFrame(id, _) => At(s, id, Sending)
    case Wake(id) => At(s, id, Awaiting) && !s.calls[id].channel.Open?
    case TimeOut(id) => At(s, id, Awaiting) && s.calls[id].channel.Open?
    case Forget(id) => At(s, id, TimedOut)
    case _ => true
  }

  function Stepped(s: State, id: CallId, stage: Stage): State
    requires id in s.calls
  {
    s.(calls := s.calls[id := s.calls[id].(stage := stage)])
  }

  /** The sender in the table entry of `id` is used up, or dropped. */
  function Settled(s: State, id: CallId, channel: Channel): State {
    if id in s.pending && id in s.calls then
      s.(pending := s.pending - {id}, calls := s.calls[id := s.calls[id].(channel := channel)])
    else s
  }

  /** What a call makes of its channel once that is no longer open. */
  function Outcome(channel: Channel): Answer {
    if channel.Answered? then channel.answer else Err(Ended)
  }

  function Next(s: State, a: Action): State
    requires Enabled(s, a)
  {
    match a
    case TakeNumber => State(s.nextId + 1, s.pending, s.calls[s.nextId := Call(Numbered, Open)])
    case Insert(id) => Stepped(s, id, Sending).(pending := s.pending + {id})
    case SendFrame(id, sent) =>
      if sent then Stepped(s, id, Awaiting)
      else Stepped(Settled(s, id, Closed), id, Returned(Err(Ended)))
    case Receive(id, answer) => Settled(s, id, Answered(answer))
    case Close =>
      s.(pending := {},
         calls := map id | id in s.calls :: if id in s.pending then s.calls[id].(channel := Closed) else s.calls[id])
    case Wake(id) => Stepped(s, id, Returned(Outcome(s.calls[id].channel)))
    case TimeOut(id) => Stepped(s, id, TimedOut)
    case Forget(id) => Stepped(Settled(s, id, Closed), id, Returned(Err(NotAnswered)))
  }

  ghost predicate IsRun(states: seq<State>, actions: seq<Action>) {
    && |states| == |actions| + 1
    && states[0] == FRESH
    && (forall i :: 0 <= i < |actions| ==>
          Enabled(states[i], actions[i]) && states[i + 1] == Next(states[i], actions[i]))
  }

  predicate Returns(s: State, id: CallId) {
    id in s.calls && s.calls[id].stage.Returned?
  }

  // ----- the invariant -----

  /** Before action `n` a frame with this answer came in under this number. */
  ghost predicate CameIn(actions: seq<Action>, n: nat, id: CallId, answer: Answer)
    requires n <= |actions|
  {
    exists i :: 0 <= i < n && actions[i] == Receive(id, answer)
  }

  /** A call in the table has an open channel and has not returned; one that waits with an open channel
      is in the table; one that has not come to the table yet has not been answered. */
  predicate InTable(s: State, id: CallId) {
    && (id in s.pending ==>
          && id in s.calls && s.calls[id].channel.Open?
          && (s.calls[id].stage.Sending? || s.calls[id].stage.Awaiting? || s.calls[id].stage.TimedOut?))
    && (id in s.calls && s.calls[id].stage.Numbered? ==> s.calls[id].channel.Open? && id !in s.pending)
    && (id in s.calls && s.calls[id].channel.Open? && (s.calls[id].stage.Sending? || s.calls[id].stage.Awaiting?) ==>
          id in s.pending)
    && (id in s.calls ==> id < s.nextId)
  }

  ghost predicate AnswersCameIn(s: State, actions: seq<Action>, n: nat, id: CallId)
    requires n <= |actions|
  {
    id in s.calls ==>
      && (s.calls[id].channel.Answered? ==> CameIn(actions, n, id, s.calls[id].channel.answer))
      && (s.calls[id].stage.Returned? ==>
            var result := s.calls[id].stage.result;
            result == Err(Ended) || result == Err(NotAnswered) || CameIn(actions, n, id, result))
  }

  ghost predicate Sound(s: State, actions: seq<Action>, n: nat)
    requires n <= |actions|
  {
    && (forall id: CallId :: InTable(s, id))
    && (forall id: CallId :: AnswersCameIn(s, actions, n, id))
  }

  lemma TableKept(s: State, a: Action, id: CallId)
    requires Enabled(s, a) && forall other: CallId :: InTable(s, other)
    ensures InTable(Next(s, a), id)
  {
    assert InTable(s, id) && InTable(s, s.nextId);
  }

  lemma {:induction false} RunsAreSound(states: seq<State>, actions: seq<Action>, n: nat)
    requires IsRun(states, actions) && n <= |actions|
    ensures Sound(states[n], actions, n)
  {
    if n > 0 {
      var p := n - 1;
      RunsAreSound(states, actions, p);
      var s, a := states[p], actions[p];
      assert states[n] == Next(s, a);
      forall id: CallId ensures InTable(states[n], id) {
        TableKept(s, a, id);
      }
      forall id: CallId ensures AnswersCameIn(states[n], actions, n, id) {
        assert AnswersCameIn(s, actions, p, id);
        assert forall answer :: CameIn(actions, p, id, answer) ==> CameIn(actions, n, id, answer);
        if a.Receive? {
          assert CameIn(actions, n, a.id, a.answer);
        }
      }
    }
  }

  // ----- what follows -----

  /** A call succeeds only with the value of a frame that came in under its own number. */
  lemma SuccessIsItsOwnAnswer(states: seq<State>, actions: seq<Action>, n: nat, id: CallId, value: Value)
    requires IsRun(states, actions) && n <= |actions|
    requires At(states[n], id, Returned(Ok(value)))
    ensures exists i :: 0 <= i < n && actions[i] == Receive(id, Ok(value))
  {
    RunsAreSound(states, actions, n);
    assert AnswersCameIn(states[n], actions, n, id);
  }

  /** Once a call has returned its result stands, whatever still comes in. */
  lemma {:induction false} SettlesOnce(states: seq<State>, actions: seq<Action>, n: nat, m: nat, id: CallId)
    requires IsRun(states, actions) && n <= m <= |actions| && Returns(states[n], id)
    ensures id in states[m].calls && states[m].calls[id].stage == states[n].calls[id].stage
  {
    if n < m {
      SettlesOnce(states, actions, n, m - 1, id);
      RunsAreSound(states, actions, m - 1);
      assert InTable(states[m - 1], id);
      assert states[m] == Next(states[m - 1], actions[m - 1]);
    }
  }

  /** The table holds only calls that wait, each of them unanswered. */
  lemma OnlyWaitingArePending(states: seq<State>, actions: seq<Action>, n: nat, id: CallId)
    requires IsRun(states, actions) && n <= |actions| && id in states[n].pending
    ensures id in states[n].calls && !Returns(states[n], id) && states[n].calls[id].channel.Open?
  {
    RunsAreSound(states, actions, n);
    assert InTable(states[n], id);
  }

  /** When every call has returned, nothing is left in the table. */
  lemma EmptyInTheEnd(states: seq<State>, actions: seq<Action>, n: nat)
    requires IsRun(states, actions) && n <= |actions|
    requires forall id :: id in states[n].calls ==> Returns(states[n], id)
    ensures states[n].pending == {}
  {
    RunsAreSound(states, actions, n);
    forall id: CallId ensures id !in states[n].pending {
      assert InTable(states[n], id);
    }
  }

  /** A call that was answered keeps the answer: it has yet to send, or waits, or returned it; or its frame
      did not go out after all. */
  lemma {:induction false} AnswerIsKept(states: seq<State>, actions: seq<Action>, i: nat, n: nat, id: CallId, answer: Answer)
    requires IsRun(states, actions) && i < n <= |actions|
    requires actions[i] == Receive(id, answer) && id in states[i].pending
    requires At(states[i], id, Sending) || At(states[i], id, Awaiting)
    ensures id !in states[n].pending && id in states[n].calls && states[n].calls[id].channel == Answered(answer)
    ensures
      || (At(states[n], id, Sending) && At(states[i], id, Sending) && forall j :: i < j < n ==> !IsSend(actions[j], id))
      || At(states[n], id, Awaiting) || At(states[n], id, Returned(answer))
      || (At(states[n], id, Returned(Err(Ended))) && exists j :: i < j < n && actions[j] == SendFrame(id, false))
  {
    var p := n - 1;
    RunsAreSound(states, actions, p);
    assert InTable(states[p], id);
    assert InTable(states[p], states[p].nextId);
    assert states[n] == Next(states[p], actions[p]);
    if i < p {
      AnswerIsKept(states, actions, i, p, id, answer);
    }
  }

  predicate IsSend(a: Action, id: CallId) {
    a.SendFrame? && a.id == id
  }

  /** A frame is sent for a call once. */
  lemma {:induction false} SendsOnce(states: seq<State>, actions: seq<Action>, j: nat, n: nat, id: CallId)
    requires IsRun(states, actions) && j < n <= |actions| && IsSend(actions[j], id)
    ensures id in states[n].calls && !At(states[n], id, Sending) && !At(states[n], id, Numbered)
    ensures n < |actions| ==> !IsSend(actions[n], id)
  {
    var p := n - 1;
    RunsAreSound(states, actions, p);
    assert InTable(states[p], states[p].nextId);
    assert InTable(states[p], id);
    assert states[n] == Next(states[p], actions[p]);
    if j < p {
      SendsOnce(states, actions, j, p, id);
    }
  }

  /** An answer that comes in for a call that waits, or will, its frame having gone out, is what the call
      returns, a value or the other end's own error: it can return that from then on, and nothing else. */
  lemma AnswerIsReturned(states: seq<State>, actions: seq<Action>, i: nat, n: nat, id: CallId, answer: Answer)
    requires IsRun(states, actions) && i < n <= |actions|
    requires actions[i] == Receive(id, answer) && id in states[i].pending
    requires
      || At(states[i], id, Awaiting)
      || (At(states[i], id, Sending) && exists j :: i < j < n && actions[j] == SendFrame(id, true))
    ensures if Returns(states[n], id) then At(states[n], id, Returned(answer))
            else Enabled(states[n], Wake(id)) && At(Next(states[n], Wake(id)), id, Returned(answer))
  {
    AnswerIsKept(states, actions, i, n, id, answer);
    if At(states[i], id, Awaiting) {
      forall j | i < j < n ensures !IsSend(actions[j], id) {
        AnswerIsKept(states, actions, i, j, id, answer);
        AwaitsOrReturned(states, actions, i, j, id);
      }
    } else {
      var j :| i < j < n && actions[j] == SendFrame(id, true);
      assert IsSend(actions[j], id);
      forall k | i < k < n && actions[k] == SendFrame(id, false) ensures false {
        if j < k {
          SendsOnce(states, actions, j, k, id);
        } else {
          SendsOnce(states, actions, k, j, id);
        }
      }
    }
  }

  lemma {:induction false} AwaitsOrReturned(states: seq<State>, actions: seq<Action>, i: nat, n: nat, id: CallId)
    requires IsRun(states, actions) && i <= n <= |actions| && At(states[i], id, Awaiting)
    ensures id in states[n].calls && !At(states[n], id, Sending) && !At(states[n], id, Numbered)
    ensures n < |actions| ==> !IsSend(actions[n], id)
  {
    if i < n {
      AwaitsOrReturned(states, actions, i, n - 1, id);
      RunsAreSound(states, actions, n - 1);
      assert InTable(states[n - 1], states[n - 1].nextId);
      assert InTable(states[n - 1], id);
      assert states[n] == Next(states[n - 1], actions[n - 1]);
    }
  }

  /** A call whose frame did not go out returns that the connection has ended, whatever came in. */
  lemma UnsentHasEnded(states: seq<State>, actions: seq<Action>, i: nat, n: nat, id: CallId)
    requires IsRun(states, actions) && i < n <= |actions| && actions[i] == SendFrame(id, false)
    ensures At(states[n], id, Returned(Err(Ended))) && id !in states[n].pending
  {
    assert states[i + 1] == Next(states[i], actions[i]);
    SettlesOnce(states, actions, i + 1, n, id);
    RunsAreSound(states, actions, n);
    assert InTable(states[n], id);
  }

  /** A call whose time was up returns that, whatever comes in afterwards. */
  lemma {:induction false} TimedOutIsNotAnswered(states: seq<State>, actions: seq<Action>, i: nat, n: nat, id: CallId)
    requires IsRun(states, actions) && i < n <= |actions| && actions[i] == TimeOut(id)
    ensures At(states[n], id, TimedOut) || At(states[n], id, Returned(Err(NotAnswered)))
  {
    var p := n - 1;
    RunsAreSound(states, actions, p);
    assert InTable(states[p], states[p].nextId);
    assert states[n] == Next(states[p], actions[p]);
    if i < p {
      TimedOutIsNotAnswered(states, actions, i, p, id);
    }
  }

  /** Closing the connection settles every call that waits or is about to: from then on it is out of the
      table, and can only return as failed, or has. */
  lemma {:induction false} CloseSettlesTheWaiting(states: seq<State>, actions: seq<Action>, n: nat, m: nat, id: CallId)
    requires IsRun(states, actions) && n < m <= |actions| && actions[n].Close?
    requires At(states[n], id, Sending) || At(states[n], id, Awaiting)
    requires states[n].calls[id].channel.Open?
    ensures id !in states[m].pending && id in states[m].calls
    ensures var call := states[m].calls[id];
      || (call == Call(Sending, Closed) && At(states[n], id, Sending))
      || call == Call(Awaiting, Closed)
      || call.stage == Returned(Err(Ended))
    ensures At(states[m], id, Awaiting) ==>
      Enabled(states[m], Wake(id)) && At(Next(states[m], Wake(id)), id, Returned(Err(Ended)))
  {
    var p := m - 1;
    RunsAreSound(states, actions, p);
    assert InTable(states[p], id);
    assert InTable(states[p], states[p].nextId);
    assert states[m] == Next(states[p], actions[p]);
    if n < p {
      CloseSettlesTheWaiting(states, actions, n, p, id);
    }
  }

  /** And one whose time was up stays out of the table and says so. */
  lemma {:induction false} CloseLeavesTimedOut(states: seq<State>, actions: seq<Action>, n: nat, m: nat, id: CallId)
    requires IsRun(states, actions) && n < m <= |actions| && actions[n].Close?
    requires At(states[n], id, TimedOut)
    ensures id !in states[m].pending
    ensures At(states[m], id, TimedOut) || At(states[m], id, Returned(Err(NotAnswered)))
  {
    var p := m - 1;
    RunsAreSound(states, actions, p);
    assert InTable(states[p], id);
    assert InTable(states[p], states[p].nextId);
    assert states[m] == Next(states[p], actions[p]);
    if n < p {
      CloseLeavesTimedOut(states, actions, n, p, id);
    }
  }
}
