/** Helping another participant with their audio settings: one app's side of it, as a state machine
    with no I/O (src-tauri/src/settings_help.rs). The functions say what each operation does to the
    state and what it asks the caller to carry out. */
module HelpProtocol {
  import opened Wrappers

  type Uuid = nat

  /** BUSY_REPLY_INTERVAL, in milliseconds. */
  const BUSY_REPLY_INTERVAL := 10000

  /** 32 lowercase hex digits, the only numbers the relay takes (src/network/remote.rs:112). */
  predicate IsHelpSession(session: string) {
    |session| == 32 && forall c :: c in session ==> '0' <= c <= '9' || 'a' <= c <= 'f'
  }

  /** Which side of a help an app is on. */
  datatype Role = Helper | Helped

  datatype NoticeEvent = HelpStarted | HelpChanged | HelpEnded

  datatype Message =
    | Request
    | Accepted(session: string)
    | Declined(busy: bool)
    | Stop(role: Role, named: Option<string>)
    | Notice(event: NoticeEvent, helper: Uuid, setting: Option<string>)

  datatype EndReason = Stopped | PeerStopped | PeerLeft

  datatype Event =
    | Requested(peer: Uuid, peerName: string)
    | Started(role: Role, peer: Uuid, peerName: string)
    | Refused(peer: Uuid, busy: bool)
    | Ended(role: Role, peer: Uuid, reason: EndReason)
    | Noticed(event: NoticeEvent, helper: Uuid, helpedName: string, setting: Option<string>)

  datatype Out =
    | Send(to: Uuid, message: Message)
    | Broadcast(message: Message)
    | Tell(event: Event)
    | OpenLink(peer: Uuid, peerName: string, session: string)

  datatype HelpError = AlreadyHelping | NotActive

  /** This app helping someone. */
  datatype Giving =
    | Asking(peer: Uuid)
    | Helping(peer: Uuid, session: string)
  {
    function Session(): Option<string> {
      if Asking? then None else Some(session)
    }
  }

  /** Someone helping this app. */
  datatype Receiving =
    | Asked(peer: Uuid, name: string)
    | HelpedBy(peer: Uuid, name: string, session: string)
  {
    function Session(): Option<string> {
      if Asked? then None else Some(session)
    }
  }

  datatype State = State(giving: Option<Giving>, receiving: Option<Receiving>, busyReplies: map<Uuid, int>)

  const FRESH := State(None, None, map[])

  type Reply = Result<seq<Out>, HelpError>

  // ----- local actions -----

  function RequestHelp(s: State, peer: Uuid): (State, Reply) {
    if s.giving.Some? then (s, Err(AlreadyHelping))
    else (s.(giving := Some(Asking(peer))), Ok([Send(peer, Message.Request)]))
  }

  predicate IsAskedBy(s: State, peer: Uuid) {
    s.receiving.Some? && s.receiving.value.Asked? && s.receiving.value.peer == peer
  }

  function Decline(s: State, peer: Uuid): (State, Reply) {
    if !IsAskedBy(s, peer) then (s, Err(NotActive))
    else (s.(receiving := None), Ok([Send(peer, Declined(false))]))
  }

  function Accept(s: State, peer: Uuid, session: string): (State, Reply) {
    if !IsAskedBy(s, peer) then (s, Err(NotActive))
    else
      var name := s.receiving.value.name;
      (s.(receiving := Some(HelpedBy(peer, name, session))),
       Ok([Send(peer, Accepted(session)), Broadcast(Notice(HelpStarted, peer, None)),
           Tell(Started(Helped, peer, name))]))
  }

  function StopHelp(s: State, role: Role): (State, Reply) {
    match role
    case Helper =>
      if s.giving.None? then (s, Err(NotActive))
      else (s.(giving := None),
            Ok([Send(s.giving.value.peer, Stop(Helper, s.giving.value.Session()))]))
    case Helped =>
      if s.receiving.None? then (s, Err(NotActive))
      else
        var r := s.receiving.value;
        (s.(receiving := None),
         Ok(if r.HelpedBy? then [Send(r.peer, Stop(Helped, r.Session())), Broadcast(Notice(HelpEnded, r.peer, None))]
            else [Send(r.peer, Stop(Helped, r.Session()))]))
  }

  // ----- what happens to the app -----

  /** Whether a stop naming `named` ends the help numbered `held`. */
  predicate NamesTheHelp(named: Option<string>, held: Option<string>) {
    named.None? || held == named
  }

  function GivingSession(s: State): Option<string> {
    if s.giving.Some? then s.giving.value.Session() else None
  }

  function ReceivingSession(s: State): Option<string> {
    if s.receiving.Some? then s.receiving.value.Session() else None
  }

  function EndGivingWith(s: State, peer: Uuid, reason: EndReason): (State, seq<Out>) {
    if s.giving.None? || s.giving.value.peer != peer then (s, [])
    else (s.(giving := None), [Tell(Ended(Helper, peer, reason))])
  }

  function EndReceivingWith(s: State, peer: Uuid, reason: EndReason, announce: bool): (State, seq<Out>) {
    if s.receiving.None? || s.receiving.value.peer != peer then (s, [])
    else (s.(receiving := None),
          if s.receiving.value.HelpedBy? && announce
          then [Broadcast(Notice(HelpEnded, peer, None)), Tell(Ended(Helped, peer, reason))]
          else [Tell(Ended(Helped, peer, reason))])
  }

  /** The busy answers that are still too recent to answer again. */
  function StillBusy(busyReplies: map<Uuid, int>, now: int): map<Uuid, int> {
    map p | p in busyReplies && Since(busyReplies[p], now) < BUSY_REPLY_INTERVAL :: busyReplies[p]
  }

  /** Instant::duration_since, which is zero for a later instant. */
  function Since(at: int, now: int): nat {
    if now >= at then now - at else 0
  }

  function ReceiveRequest(s: State, from: Uuid, fromName: string, now: int): (State, seq<Out>) {
    match s.receiving
    case None =>
      (s.(receiving := Some(Asked(from, fromName))), [Tell(Requested(from, fromName))])
    case Some(current) =>
      if current.peer == from then (s, [])
      else
        var recent := StillBusy(s.busyReplies, now);
        if from in recent then (s.(busyReplies := recent), [])
        else (s.(busyReplies := recent[from := now]), [Send(from, Declined(true))])
  }

  function Receive(s: State, from: Uuid, fromName: string, message: Message, now: int): (State, seq<Out>) {
    match message
    case Request => ReceiveRequest(s, from, fromName, now)
    case Accepted(session) =>
      if s.giving == Some(Asking(from)) && IsHelpSession(session) then
        (s.(giving := Some(Helping(from, session))),
         [Tell(Started(Helper, from, fromName)), OpenLink(from, fromName, session)])
      else (s, [])
    case Declined(busy) =>
      if s.giving == Some(Asking(from)) then (s.(giving := None), [Tell(Refused(from, busy))]) else (s, [])
    case Stop(role, named) =>
      if role.Helper? then
        if !NamesTheHelp(named, ReceivingSession(s)) then (s, [])
        else EndReceivingWith(s, from, PeerStopped, true)
      else
        if !NamesTheHelp(named, GivingSession(s)) then (s, [])
        else EndGivingWith(s, from, PeerStopped)
    case Notice(event, helper, setting) =>
      (s, [Tell(Noticed(event, helper, fromName, setting))])
  }

  function PeerLeaves(s: State, peer: Uuid): (State, seq<Out>) {
    var (s1, out1) := EndGivingWith(s, peer, PeerLeft);
    var (s2, out2) := EndReceivingWith(s1, peer, PeerLeft, false);
    (s2, out1 + out2)
  }

  function LinkClosed(s: State, role: Role, session: string): (State, seq<Out>) {
    match role
    case Helper =>
      if s.giving.Some? && s.giving.value.Helping? && s.giving.value.session == session then
        var peer := s.giving.value.peer;
        var (s1, out) := EndGivingWith(s, peer, PeerStopped);
        (s1, [Send(peer, Stop(Helper, Some(session)))] + out)
      else (s, [])
    case Helped =>
      if s.receiving.Some? && s.receiving.value.HelpedBy? && s.receiving.value.session == session then
        var peer := s.receiving.value.peer;
        var (s1, out) := EndReceivingWith(s, peer, PeerStopped, true);
        (s1, [Send(peer, Stop(Helped, Some(session)))] + out)
      else (s, [])
  }

  function Reset(s: State): (State, seq<Out>) {
    (s.(giving := None, receiving := None),
     (if s.giving.Some? then [Tell(Ended(Helper, s.giving.value.peer, Stopped))] else []) +
     (if s.receiving.Some? then [Tell(Ended(Helped, s.receiving.value.peer, Stopped))] else []))
  }
}
