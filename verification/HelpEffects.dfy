/** What one app's help asks its caller to carry out, held against what became of the help: links to
    open, notices to the room, events for the screen. */
module HelpEffects {
  import opened Wrappers
  import opened HelpProtocol
  import opened HelpRuns

  // ----- links to the relay -----

  datatype Link = Link(peer: Uuid, peerName: string, session: string)

  /** The links that are to be opened, in order. */
  function Links(outs: seq<Out>): seq<Link>
    decreases outs
  {
    if outs == [] then []
    else
      (if outs[0].OpenLink? then [Link(outs[0].peer, outs[0].peerName, outs[0].session)] else []) + Links(outs[1..])
  }

  lemma LinksOfFew(outs: seq<Out>)
    requires |outs| <= 3
    ensures (forall out :: out in outs ==> !out.OpenLink?) ==> Links(outs) == []
    ensures |outs| == 2 && !outs[0].OpenLink? && outs[1].OpenLink? ==>
      Links(outs) == [Link(outs[1].peer, outs[1].peerName, outs[1].session)]
  {
    if outs != [] {
      LinksOfFew(outs[1..]);
      assert |outs| == 2 ==> Links(outs[2..]) == [];
    }
  }

  /** The call turns what the app gives into a help it did not give before. */
  predicate BeginsHelping(s: State, c: Call) {
    var giving := Step(s, c).0.giving;
    giving.Some? && giving.value.Helping? && giving != s.giving
  }

  /** A link is opened only to the one that was asked, as the help with it begins, and under its number. */
  lemma LinkBelongsToHelp(s: State, c: Call, peer: Uuid, name: string, session: string)
    requires OpenLink(peer, name, session) in Outs(s, c)
    ensures s.giving == Some(Asking(peer)) && Step(s, c).0.giving == Some(Helping(peer, session))
    ensures c.DoReceive? && c.from == peer && c.fromName == name && c.message == Accepted(session)
  {
  }

  /** And every help that begins opens one link, to the one helped, by the name its yes came with. */
  lemma HelpOpensOneLink(s: State, c: Call)
    ensures Links(Outs(s, c)) ==
      if BeginsHelping(s, c) && c.DoReceive?
      then [Link(Step(s, c).0.giving.value.peer, c.fromName, Step(s, c).0.giving.value.session)] else []
    ensures BeginsHelping(s, c) ==> c.DoReceive?
  {
    var outs := Outs(s, c);
    assert |outs| <= 3;
    LinksOfFew(outs);
  }

  /** A help begins with every yes under a proper number from the one that was asked, and with nothing else. */
  lemma YesBeginsHelp(s: State, c: Call)
    ensures BeginsHelping(s, c) <==>
      c.DoReceive? && s.giving == Some(Asking(c.from)) && c.message.Accepted? && IsHelpSession(c.message.session)
    ensures BeginsHelping(s, c) ==> Step(s, c).0.giving == Some(Helping(c.from, c.message.session))
  {
  }

  /** The links opened over the first `i` calls of a run. */
  function LinksOpened(s: State, run: seq<Call>, i: nat): seq<Link>
    requires i <= |run|
  {
    if i == 0 then [] else LinksOpened(s, run, i - 1) + Links(Outs(At(s, run, i - 1), run[i - 1]))
  }

  /** The helps begun over them, each with the name its yes came with. */
  function HelpsBegun(s: State, run: seq<Call>, i: nat): seq<Link>
    requires i <= |run|
  {
    if i == 0 then []
    else
      var before, c := At(s, run, i - 1), run[i - 1];
      HelpsBegun(s, run, i - 1) +
      (if BeginsHelping(before, c) && c.DoReceive?
       then [Link(At(s, run, i).giving.value.peer, c.fromName, At(s, run, i).giving.value.session)] else [])
  }

  /** Over any run the links opened are the helps begun, in order. */
  lemma {:induction false} LinksAreHelpsBegun(s: State, run: seq<Call>, i: nat)
    requires i <= |run|
    ensures LinksOpened(s, run, i) == HelpsBegun(s, run, i)
  {
    hide Outs, Links;
    if i > 0 {
      LinksAreHelpsBegun(s, run, i - 1);
      HelpOpensOneLink(At(s, run, i - 1), run[i - 1]);
    }
  }

  // ----- what the room hears -----

  predicate HelpedByPeer(s: State, peer: Uuid) {
    IsHelped(s) && s.receiving.value.peer == peer
  }

  /** The room hears that a help began exactly as it does, and that one ended exactly as it does, but for
      what it sees itself; each time it hears who helped. */
  lemma NoticesAreTrue(s: State, c: Call, helper: Uuid)
    ensures Broadcast(Notice(HelpStarted, helper, None)) in Outs(s, c) <==>
      !IsHelped(s) && HelpedByPeer(Step(s, c).0, helper)
    ensures Broadcast(Notice(HelpEnded, helper, None)) in Outs(s, c) <==>
      HelpedByPeer(s, helper) && !IsHelped(Step(s, c).0) && !EndsUnannounced(s, c)
  {
  }

  /** And it hears nothing else. */
  lemma OnlyNoticesAreBroadcast(s: State, c: Call, out: Out)
    requires out in Outs(s, c) && out.Broadcast?
    ensures out.message.Notice? && !out.message.event.HelpChanged? && out.message.setting == None
  {
  }

  // ----- what the screen hears -----

  /** A request is shown as it is taken up, a yes as the help begins, each by the name it came with. */
  lemma BeginningsAreShown(s: State, c: Call, peer: Uuid, name: string)
    ensures var t := Step(s, c).0;
      && (Tell(Requested(peer, name)) in Outs(s, c) <==> s.receiving.None? && t.receiving == Some(Asked(peer, name)))
      && (Tell(Started(Helper, peer, name)) in Outs(s, c) <==>
            BeginsHelping(s, c) && t.giving.value.peer == peer && c.DoReceive? && c.fromName == name)
      && (Tell(Started(Helped, peer, name)) in Outs(s, c) <==>
            s.receiving == Some(Asked(peer, name)) && HelpedByPeer(t, peer))
  {
  }

  /** Why a call ends what it ends. */
  function ReasonOf(c: Call): EndReason {
    if c.DoReset? then Stopped else if c.DoPeerLeft? then EndReason.PeerLeft else PeerStopped
  }

  /** The user of this app ends it, or the one asked says no: the screen knows, or hears so. */
  predicate EndsKnown(c: Call, role: Role) {
    c == DoStop(role) || (if role.Helper? then c.DoReceive? && c.message.Declined? else c.DoDecline?)
  }

  /** Every other end is shown, of the side, the participant and the reason it has. */
  lemma EndsAreShown(s: State, c: Call, peer: Uuid, reason: EndReason)
    ensures var t := Step(s, c).0;
      && (Tell(Ended(Helper, peer, reason)) in Outs(s, c) <==>
            && s.giving.Some? && s.giving.value.peer == peer && t.giving.None?
            && !EndsKnown(c, Helper) && reason == ReasonOf(c))
      && (Tell(Ended(Helped, peer, reason)) in Outs(s, c) <==>
            && s.receiving.Some? && s.receiving.value.peer == peer && t.receiving.None?
            && !EndsKnown(c, Helped) && reason == ReasonOf(c))
  {
  }

  /** A no is shown as it ends the wait, busy or not as it says; a notice always, as it came. */
  lemma AnswersAreShown(s: State, c: Call, peer: Uuid, busy: bool, notice: Message)
    ensures Tell(Refused(peer, busy)) in Outs(s, c) <==>
      && s.giving == Some(Asking(peer)) && Step(s, c).0.giving.None?
      && c.DoReceive? && c.message == Declined(busy)
    ensures c.DoReceive? && c.message.Notice? ==>
      && Step(s, c).0 == s
      && Outs(s, c) == [Tell(Noticed(c.message.event, c.message.helper, c.fromName, c.message.setting))]
  {
  }

  // ----- what begins and what ends -----

  /** The call ends what the app gives: its user or its peer stops it, it or the peer leaves, the link is gone,
      or the answer is no. A stop under a number is about that help only. */
  predicate EndsGiving(giving: Giving, c: Call) {
    || c == DoStop(Helper) || c == DoReset || c == DoPeerLeft(giving.peer)
    || (giving.Helping? && c == DoLinkClosed(Helper, giving.session))
    || (c.DoReceive? && c.from == giving.peer &&
         (if giving.Asking? then c.message.Declined? || c.message == Stop(Helped, None)
          else c.message == Stop(Helped, None) || c.message == Stop(Helped, Some(giving.session))))
  }

  predicate EndsReceiving(receiving: Receiving, c: Call) {
    || c == DoStop(Helped) || c == DoReset || c == DoPeerLeft(receiving.peer)
    || (receiving.Asked? && c == DoDecline(receiving.peer))
    || (receiving.HelpedBy? && c == DoLinkClosed(Helped, receiving.session))
    || (c.DoReceive? && c.from == receiving.peer &&
         (c.message == Stop(Helper, None) ||
          (receiving.HelpedBy? && c.message == Stop(Helper, Some(receiving.session)))))
  }

  /** What an app gives begins with its own request, turns into a help with a yes, and ends so; no other call
      touches it. */
  lemma GivingChangesSo(s: State, c: Call)
    ensures Step(s, c).0.giving ==
      if s.giving.None? then (if c.DoRequest? then Some(Asking(c.peer)) else None)
      else if EndsGiving(s.giving.value, c) then None
      else if BeginsHelping(s, c) then Some(Helping(s.giving.value.peer, c.message.session))
      else s.giving
    ensures BeginsHelping(s, c) ==> c.DoReceive? && c.message.Accepted? && s.giving.Some?
  {
  }

  /** What an app receives begins with a request that comes in, turns into a help as its user accepts it, and
      ends so; no other call touches it. */
  lemma ReceivingChangesSo(s: State, c: Call)
    ensures Step(s, c).0.receiving ==
      if s.receiving.None? then
        (if c.DoReceive? && c.message.Request? then Some(Asked(c.from, c.fromName)) else None)
      else if EndsReceiving(s.receiving.value, c) then None
      else if s.receiving.value.Asked? && c.DoAccept? && c.peer == s.receiving.value.peer then
        Some(HelpedBy(c.peer, s.receiving.value.name, c.session))
      else s.receiving
  {
  }

  /** A call of the user fails exactly when there is nothing it could be about, and then changes nothing. */
  lemma RefusesWhatIsNot(s: State, c: Call)
    ensures Step(s, c).1.Err? <==>
      || (c.DoRequest? && s.giving.Some?)
      || ((c.DoDecline? || c.DoAccept?) && !IsAskedBy(s, c.peer))
      || (c == DoStop(Helper) && s.giving.None?) || (c == DoStop(Helped) && s.receiving.None?)
    ensures Step(s, c).1.Err? ==> Step(s, c).0 == s && (Step(s, c).1.error.AlreadyHelping? <==> c.DoRequest?)
  {
  }

  // ----- what is sent -----

  /** `peer` was told that this app is busy, and not long ago. */
  predicate ToldBusy(s: State, peer: Uuid, now: int) {
    peer in s.busyReplies && Since(s.busyReplies[peer], now) < BUSY_REPLY_INTERVAL
  }

  /** The end of what an app gives or receives is told to the other side when its own user stops it, or its
      link is gone. */
  predicate TellsTheEnd(c: Call, role: Role) {
    c == DoStop(role) || (c.DoLinkClosed? && c.role == role)
  }

  /** A request is sent exactly as the app begins to wait, and an answer exactly as it takes it: a no to one
      that asks while another one does or is helped, unless it was told so a moment ago. */
  lemma AsksAndAnswersAreSent(s: State, c: Call, to: Uuid, session: string)
    ensures var (t, outs) := (Step(s, c).0, Outs(s, c));
      && (Send(to, Message.Request) in outs <==> s.giving.None? && t.giving == Some(Asking(to)))
      && (Send(to, Accepted(session)) in outs <==>
            IsAskedBy(s, to) && HelpedByPeer(t, to) && t.receiving.value.session == session)
      && (Send(to, Declined(false)) in outs <==> IsAskedBy(s, to) && c == DoDecline(to))
      && (Send(to, Declined(true)) in outs <==>
            && c.DoReceive? && c.from == to && c.message.Request?
            && s.receiving.Some? && s.receiving.value.peer != to && !ToldBusy(s, to, c.now))
  {
  }

  /** A stop is sent to the one that the help or the request was with, under its number if it has one. */
  lemma StopsAreSent(s: State, c: Call, to: Uuid, named: Option<string>)
    ensures var (t, outs) := (Step(s, c).0, Outs(s, c));
      && (Send(to, Stop(Helper, named)) in outs <==>
            && s.giving.Some? && s.giving.value.peer == to && s.giving.value.Session() == named
            && t.giving.None? && TellsTheEnd(c, Helper))
      && (Send(to, Stop(Helped, named)) in outs <==>
            && s.receiving.Some? && s.receiving.value.peer == to && s.receiving.value.Session() == named
            && t.receiving.None? && TellsTheEnd(c, Helped))
  {
  }

  /** Notices are only ever broadcast. */
  lemma NoNoticeIsSent(s: State, c: Call, to: Uuid, message: Message)
    requires Send(to, message) in Outs(s, c)
    ensures !message.Notice?
  {
  }
}
