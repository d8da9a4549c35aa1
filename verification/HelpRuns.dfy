/** What holds over every run of one app's help, whatever its peers send and its user does. */
module HelpRuns {
  import opened Arithmetic
  import opened Wrappers
  import opened HelpProtocol

  datatype Call =
    | DoRequest(peer: Uuid)
    | DoDecline(peer: Uuid)
    | DoAccept(peer: Uuid, session: string)
    | DoStop(role: Role)
    | DoReceive(from: Uuid, fromName: string, message: Message, now: int)
    | DoPeerLeft(peer: Uuid)
    | DoLinkClosed(role: Role, session: string)
    | DoReset

  function Step(s: State, c: Call): (State, Reply) {
    match c
    case DoRequest(peer) => RequestHelp(s, peer)
    case DoDecline(peer) => Decline(s, peer)
    case DoAccept(peer, session) => Accept(s, peer, session)
    case DoStop(role) => StopHelp(s, role)
    case DoReceive(from, fromName, message, now) =>
      var (next, out) := Receive(s, from, fromName, message, now); (next, Ok(out))
    case DoPeerLeft(peer) => var (next, out) := PeerLeaves(s, peer); (next, Ok(out))
    case DoLinkClosed(role, session) => var (next, out) := LinkClosed(s, role, session); (next, Ok(out))
    case DoReset => var (next, out) := Reset(s); (next, Ok(out))
  }

  function Outs(s: State, c: Call): seq<Out> {
    match Step(s, c).1 case Ok(outs) => outs case Err(_) => []
  }

  /** The state before call `i` of a run from `s`. */
  function At(s: State, run: seq<Call>, i: nat): State
    requires i <= |run|
  {
    if i == 0 then s else Step(At(s, run, i - 1), run[i - 1]).0
  }

  // ----- busy answers -----

  /** Call `i` of the run answers `peer` that this app is busy. */
  predicate AnswersBusy(s: State, run: seq<Call>, i: nat, peer: Uuid)
    requires i < |run|
  {
    run[i].DoReceive? && run[i].from == peer && Outs(At(s, run, i), run[i]) == [Send(peer, Declined(true))]
  }

  /** The clock the calls are made by never goes back. */
  predicate Monotone(run: seq<Call>) {
    forall i, j :: 0 <= i < j < |run| && run[i].DoReceive? && run[j].DoReceive? ==> run[i].now <= run[j].now
  }

  /** While call `k` is to come, a busy answer given at call `i` is remembered or has grown old. */
  ghost predicate Remembered(s: State, run: seq<Call>, i: nat, k: nat, peer: Uuid)
    requires i < k <= |run| && run[i].DoReceive?
  {
    || (peer in At(s, run, k).busyReplies && At(s, run, k).busyReplies[peer] >= run[i].now)
    || (exists m :: i < m < k && run[m].DoReceive? && run[m].now - run[i].now >= BUSY_REPLY_INTERVAL)
  }

  lemma OnlyRequestsForget(s: State, c: Call, peer: Uuid)
    requires peer in s.busyReplies
    ensures var busy := Step(s, c).0.busyReplies;
      || (peer in busy && busy[peer] == s.busyReplies[peer])
      || (c.DoReceive? && c.now - s.busyReplies[peer] >= BUSY_REPLY_INTERVAL)
  {
  }

  lemma {:induction false} AnswerRemembered(s: State, run: seq<Call>, i: nat, k: nat, peer: Uuid)
    requires i < k <= |run| && Monotone(run) && AnswersBusy(s, run, i, peer)
    ensures Remembered(s, run, i, k, peer)
  {
    if k > i + 1 {
      AnswerRemembered(s, run, i, k - 1, peer);
      var before := At(s, run, k - 1);
      if peer in before.busyReplies && before.busyReplies[peer] >= run[i].now {
        OnlyRequestsForget(before, run[k - 1], peer);
      }
    }
  }

  /** Two busy answers to one participant are at least BUSY_REPLY_INTERVAL apart, whoever else asks,
      withdraws, leaves, and however often this app leaves the room. */
  lemma BusyAnswersAreSpaced(s: State, run: seq<Call>, i: nat, j: nat, peer: Uuid)
    requires i < j < |run| && Monotone(run)
    requires AnswersBusy(s, run, i, peer) && AnswersBusy(s, run, j, peer)
    ensures run[j].now - run[i].now >= BUSY_REPLY_INTERVAL
  {
    AnswerRemembered(s, run, i, j, peer);
    var before := At(s, run, j);
    assert peer !in StillBusy(before.busyReplies, run[j].now);
  }

  // ----- what peers can make this app send -----

  function Messages(outs: seq<Out>): nat {
    if outs == [] then 0 else Messages(outs[1..]) + if outs[0].Send? || outs[0].Broadcast? then 1 else 0
  }

  /** The messages and broadcasts sent in answer to what arrived, up to call `i`. */
  function Answered(s: State, run: seq<Call>, i: nat): nat
    requires i <= |run|
  {
    if i == 0 then 0
    else Answered(s, run, i - 1) + if run[i - 1].DoReceive? then Messages(Outs(At(s, run, i - 1), run[i - 1])) else 0
  }

  predicate BusyAnswer(s: State, run: seq<Call>, i: nat)
    requires i < |run|
  {
    run[i].DoReceive? && AnswersBusy(s, run, i, run[i].from)
  }

  function BusyAnswers(s: State, run: seq<Call>, i: nat): nat
    requires i <= |run|
  {
    if i == 0 then 0 else BusyAnswers(s, run, i - 1) + if BusyAnswer(s, run, i - 1) then 1 else 0
  }

  predicate Accepts(s: State, c: Call) {
    c.DoAccept? && Step(s, c).1.Ok?
  }

  function Acceptances(s: State, run: seq<Call>, i: nat): nat
    requires i <= |run|
  {
    if i == 0 then 0 else Acceptances(s, run, i - 1) + if Accepts(At(s, run, i - 1), run[i - 1]) then 1 else 0
  }

  predicate IsHelped(s: State) {
    s.receiving.Some? && s.receiving.value.HelpedBy?
  }

  lemma MessagesOfOneOrTwo(outs: seq<Out>)
    ensures |outs| == 1 ==> Messages(outs) == Count(outs[0].Send? || outs[0].Broadcast?)
    ensures |outs| == 2 ==>
      Messages(outs) == Count(outs[0].Send? || outs[0].Broadcast?) + Count(outs[1].Send? || outs[1].Broadcast?)
  {
    if |outs| == 2 {
      assert |outs[1..]| == 1;
    }
  }

  /** What arrives makes this app send one message if it is a busy answer, one if it ends a help, and else
      none. */
  lemma ReceiveSendsLittle(s: State, c: Call)
    requires c.DoReceive?
    ensures Messages(Outs(s, c)) + Count(IsHelped(Step(s, c).0))
         == Count(Outs(s, c) == [Send(c.from, Declined(true))]) + Count(IsHelped(s))
  {
    MessagesOfOneOrTwo(Outs(s, c));
  }

  /** A peer that stops helping makes this app tell the room, without its user and not as busy. */
  lemma StopMakesItTell(peer: Uuid, name: string, session: string, now: int)
    ensures var s := State(None, Some(HelpedBy(peer, name, session)), map[]);
      var c := DoReceive(peer, name, Stop(Helper, None), now);
      && Outs(s, c) == [Broadcast(Notice(HelpEnded, peer, None)), Tell(Ended(Helped, peer, PeerStopped))]
      && Messages(Outs(s, c)) == 1
  {
    var s := State(None, Some(HelpedBy(peer, name, session)), map[]);
    MessagesOfOneOrTwo(Outs(s, DoReceive(peer, name, Stop(Helper, None), now)));
  }

  lemma OnlyAcceptBeginsHelp(s: State, c: Call)
    requires !c.DoReceive?
    ensures Count(IsHelped(Step(s, c).0)) <= Count(IsHelped(s)) + Count(Accepts(s, c))
  {
  }

  /** What arrives makes this app send no more than its busy answers and one notice for each help its
      own user accepted. */
  lemma {:induction false} AnswersAreBounded(s: State, run: seq<Call>, i: nat)
    requires i <= |run|
    ensures Answered(s, run, i) + Count(IsHelped(At(s, run, i)))
         <= BusyAnswers(s, run, i) + Acceptances(s, run, i) + Count(IsHelped(s))
  {
    if i > 0 {
      AnswersAreBounded(s, run, i - 1);
      var before := At(s, run, i - 1);
      if run[i - 1].DoReceive? {
        ReceiveSendsLittle(before, run[i - 1]);
      } else {
        OnlyAcceptBeginsHelp(before, run[i - 1]);
      }
    }
  }

  // ----- the screen's shadow of the help -----

  datatype Side = Nobody | Waiting(peer: Uuid) | Begun(peer: Uuid)

  /** What the screen shows: who is asked or helped, and who asks or helps. */
  datatype Shadow = Shadow(giving: Side, receiving: Side)

  function ShadowOf(s: State): Shadow {
    Shadow(
      match s.giving
      case None => Nobody
      case Some(Asking(peer)) => Waiting(peer)
      case Some(Helping(peer, _)) => Begun(peer),
      match s.receiving
      case None => Nobody
      case Some(Asked(peer, _)) => Waiting(peer)
      case Some(HelpedBy(peer, _, _)) => Begun(peer))
  }

  /** The screen hears an event. */
  function Hear(shadow: Shadow, event: Event): Shadow {
    match event
    case Requested(peer, _) => shadow.(receiving := Waiting(peer))
    case Started(Helper, peer, _) => shadow.(giving := Begun(peer))
    case Started(Helped, peer, _) => shadow.(receiving := Begun(peer))
    case Refused(_, _) => shadow.(giving := Nobody)
    case Ended(Helper, _, _) => shadow.(giving := Nobody)
    case Ended(Helped, _, _) => shadow.(receiving := Nobody)
    case Noticed(_, _, _, _) => shadow
  }

  function HearOut(shadow: Shadow, out: Out): Shadow {
    if out.Tell? then Hear(shadow, out.event) else shadow
  }

  function HearAll(shadow: Shadow, outs: seq<Out>): Shadow
    decreases outs
  {
    if outs == [] then shadow else HearAll(HearOut(shadow, outs[0]), outs[1..])
  }

  /** The screen notes an action it took itself, once it succeeded. */
  function Note(shadow: Shadow, c: Call): Shadow {
    match c
    case DoRequest(peer) => shadow.(giving := Waiting(peer))
    case DoDecline(_) => shadow.(receiving := Nobody)
    case DoStop(Helper) => shadow.(giving := Nobody)
    case DoStop(Helped) => shadow.(receiving := Nobody)
    case _ => shadow
  }

  function FollowOne(shadow: Shadow, s: State, c: Call): Shadow {
    HearAll(if Step(s, c).1.Ok? then Note(shadow, c) else shadow, Outs(s, c))
  }

  /** The shadow a screen keeps over the first `i` calls of a run. */
  function Follow(s: State, run: seq<Call>, i: nat): Shadow
    requires i <= |run|
  {
    if i == 0 then ShadowOf(s) else FollowOne(Follow(s, run, i - 1), At(s, run, i - 1), run[i - 1])
  }

  lemma HearShort(shadow: Shadow, outs: seq<Out>)
    ensures |outs| == 0 ==> HearAll(shadow, outs) == shadow
    ensures |outs| == 1 ==> HearAll(shadow, outs) == HearOut(shadow, outs[0])
    ensures |outs| == 2 ==> HearAll(shadow, outs) == HearOut(HearOut(shadow, outs[0]), outs[1])
    ensures |outs| == 3 ==> HearAll(shadow, outs) == HearOut(HearOut(HearOut(shadow, outs[0]), outs[1]), outs[2])
    decreases outs
  {
    if outs != [] {
      HearShort(HearOut(shadow, outs[0]), outs[1..]);
    }
  }

  lemma ShadowFollowsOneCall(s: State, c: Call)
    ensures FollowOne(ShadowOf(s), s, c) == ShadowOf(Step(s, c).0)
  {
    HearShort(if Step(s, c).1.Ok? then Note(ShadowOf(s), c) else ShadowOf(s), Outs(s, c));
  }

  /** A screen fed only the events, in order, and its own successful actions always shows the help
      as it is. */
  lemma {:induction false} ShadowIsExact(s: State, run: seq<Call>, i: nat)
    requires i <= |run|
    ensures Follow(s, run, i) == ShadowOf(At(s, run, i))
  {
    hide FollowOne, Step, ShadowOf;
    if i > 0 {
      ShadowIsExact(s, run, i - 1);
      ShadowFollowsOneCall(At(s, run, i - 1), run[i - 1]);
    }
  }

  // ----- what the room hears -----

  function Announcements(outs: seq<Out>, event: NoticeEvent): nat {
    if outs == [] then 0
    else Announcements(outs[1..], event) +
         Count(outs[0].Broadcast? && outs[0].message.Notice? && outs[0].message.event == event)
  }

  function Announced(s: State, run: seq<Call>, i: nat, event: NoticeEvent): nat
    requires i <= |run|
  {
    if i == 0 then 0 else Announced(s, run, i - 1, event) + Announcements(Outs(At(s, run, i - 1), run[i - 1]), event)
  }

  /** The call ends a help of this app that the room is not told of: it hears of the leaving itself. */
  predicate EndsUnannounced(s: State, c: Call) {
    IsHelped(s) && (c.DoReset? || (c.DoPeerLeft? && c.peer == s.receiving.value.peer))
  }

  function Unannounced(s: State, run: seq<Call>, i: nat): nat
    requires i <= |run|
  {
    if i == 0 then 0 else Unannounced(s, run, i - 1) + Count(EndsUnannounced(At(s, run, i - 1), run[i - 1]))
  }

  lemma ShortAnnouncements(outs: seq<Out>, event: NoticeEvent)
    requires |outs| <= 3
    ensures Announcements(outs, event)
         == Count(|outs| > 0 && outs[0].Broadcast? && outs[0].message.Notice? && outs[0].message.event == event)
          + Count(|outs| > 1 && outs[1].Broadcast? && outs[1].message.Notice? && outs[1].message.event == event)
          + Count(|outs| > 2 && outs[2].Broadcast? && outs[2].message.Notice? && outs[2].message.event == event)
  {
    if |outs| > 1 {
      assert outs[1..][1..] == outs[2..];
      if |outs| > 2 {
        assert outs[2..][1..] == [];
      }
    }
  }

  lemma OneCallAnnounces(s: State, c: Call)
    ensures Count(IsHelped(s)) + Announcements(Outs(s, c), HelpStarted)
         == Count(IsHelped(Step(s, c).0)) + Announcements(Outs(s, c), HelpEnded) + Count(EndsUnannounced(s, c))
  {
    ShortAnnouncements(Outs(s, c), HelpStarted);
    ShortAnnouncements(Outs(s, c), HelpEnded);
  }

  /** The starts the room hears, less the ends it hears and the ends it is left to see for itself,
      come to one exactly while this app is being helped. */
  lemma {:induction false} AnnouncementsBalance(s: State, run: seq<Call>, i: nat)
    requires i <= |run|
    ensures Count(IsHelped(s)) + Announced(s, run, i, HelpStarted)
         == Announced(s, run, i, HelpEnded) + Unannounced(s, run, i) + Count(IsHelped(At(s, run, i)))
  {
    if i > 0 {
      AnnouncementsBalance(s, run, i - 1);
      OneCallAnnounces(At(s, run, i - 1), run[i - 1]);
    }
  }

  // ----- stops that name a help -----

  /** A stop naming a session ends exactly the help of that session with its sender: not a request
      without an answer, not a help with another number, not a help with someone else. */
  lemma NamedStopEndsOnlyThatHelp(s: State, from: Uuid, fromName: string, role: Role, session: string, now: int)
    ensures var (next, outs) := Receive(s, from, fromName, Stop(role, Some(session)), now);
      var ends := if role.Helper? then s.receiving.Some? && s.receiving.value.peer == from &&
                                       s.receiving.value.Session() == Some(session)
                  else s.giving == Some(Helping(from, session));
      && next == (if !ends then s else if role.Helper? then s.(receiving := None) else s.(giving := None))
      && (outs == [] <==> !ends)
  {
  }
}
