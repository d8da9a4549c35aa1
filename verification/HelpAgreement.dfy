/** Whether the two sides of a help agree on it. */
module HelpAgreement {
  import opened Wrappers
  import opened HelpProtocol
  import opened HelpRuns
  import opened HelpInOrder
  import opened HelpPair
  import opened HelpMoves
  import opened HelpAnswers

  ghost predicate YesUnderWay(v: Pair, session: string) {
    exists p :: p in v.answers && p.message == Accepted(session)
  }

  ghost predicate StopUnderWay(v: Pair, session: string) {
    exists p :: p in v.answers && p.message == Stop(Helped, Some(session))
  }

  /** A stop that ends the help under `session`, by name or without one. */
  ghost predicate WithdrawalUnderWay(v: Pair, session: string) {
    exists p :: p in v.asks && p.message.Stop? && (p.message.named == None || p.message.named == Some(session))
  }

  /** A stop without a name, sent after the request: whoever hears it ends what the request began. */
  ghost predicate LettingGoUnderWay(v: Pair, request: nat) {
    exists p :: p in v.asks && p.message == Stop(Helper, None) && p.serial > request
  }

  /** The session was given out to answer that request. */
  ghost predicate GivenFor(v: Pair, session: string, request: nat) {
    session in v.accepted && v.accepted[session] == request
  }

  ghost predicate Helps(v: Pair, session: string) {
    v.giving == On(session)
  }

  ghost predicate IsHelped(v: Pair, session: string) {
    v.receiving == On(session)
  }

  /** All that can still be answered is later than the request. */
  ghost predicate AllLater(v: Pair, request: nat) {
    && (forall p :: p in v.answers && IsAnswer(p.message) ==> request < p.re)
    && (forall p :: p in v.asks && p.message.Request? ==> request < p.serial)
    && (v.receiving.Pending? ==> request < v.begun)
  }

  ghost predicate YesesFit(v: Pair) {
    forall p :: p in v.answers && p.message.Accepted? ==>
      var s := p.message.session; GivenFor(v, s, p.re) && IsHelpSession(s) && s !in v.dropped && !Helps(v, s)
  }

  ghost predicate SidesFit(v: Pair) {
    && (v.giving.On? ==> v.giving.session in v.accepted && v.giving.session !in v.dropped &&
                         AllLater(v, v.accepted[v.giving.session]))
    && (v.receiving.On? ==> GivenFor(v, v.receiving.session, v.begun))
    && (v.receiving.On? ==>
          forall p :: p in v.answers && IsAnswer(p.message) ==>
            p.re < v.begun || p.message == Accepted(v.receiving.session))
    && (forall s :: s in v.dropped ==>
          s in v.accepted && (v.letGo > v.accepted[s] || v.cutOff > v.accepted[s]))
  }

  ghost predicate StopsFit(v: Pair) {
    && (forall p :: p in v.answers && p.message.Stop? && p.message.named.Some? ==>
          p.message.named.value in v.accepted && !IsHelped(v, p.message.named.value))
    && (forall p, q :: p in v.answers && p.message.Stop? && p.message.named.Some? && q in v.answers ==>
          (q.message == Accepted(p.message.named.value) ==> q.serial < p.serial))
    && (forall p :: p in v.asks && p.message.Stop? && p.message.named.Some? ==>
          var s := p.message.named.value; s in v.accepted && !Helps(v, s) && !YesUnderWay(v, s))
    && (forall p :: p in v.asks && p.message == Stop(Helper, None) ==> p.serial <= v.letGo)
  }

  /** One who is helped is helped by the one it said yes to, or that is about to change. */
  ghost predicate HelpedIsMet(v: Pair) {
    v.receiving.On? ==>
      var s := v.receiving.session;
      Helps(v, s) || YesUnderWay(v, s) || s in v.dropped || WithdrawalUnderWay(v, s)
  }

  /** One who helps, or is about to, helps one that is helped, or that is about to change, or it took a
      yes to a request it had let go of. */
  ghost predicate HelpIsMet(v: Pair) {
    forall s :: Helps(v, s) || YesUnderWay(v, s) ==>
      IsHelped(v, s) || StopUnderWay(v, s) || (s in v.accepted && v.letGo > v.accepted[s])
  }

  ghost predicate LettingGoIsTold(v: Pair) {
    && (!v.receiving.Off? && v.letGo > v.begun ==> LettingGoUnderWay(v, v.begun))
    && (forall p :: p in v.asks && p.message.Request? && v.letGo > p.serial ==> LettingGoUnderWay(v, p.serial))
  }

  /** What is said about a session fits what was given out under it. */
  ghost predicate Fits(v: Pair) {
    YesesFit(v) && SidesFit(v) && StopsFit(v)
  }

  ghost predicate Met(v: Pair) {
    HelpedIsMet(v) && HelpIsMet(v) && LettingGoIsTold(v)
  }

  ghost predicate Matched(v: Pair) {
    Fits(v) && Met(v)
  }

  lemma AskKeepsMatched(v: Pair, m: Move, w: Pair)
    requires Sound(v) && Matched(v) && m.Ask? && Moves(v, m, w) && IsKept(m) && IsFresh(v, m)
    ensures Matched(w)
  {
    hide Accounted, IsHelpSession;
  }

  lemma WithdrawKeepsMatched(v: Pair, m: Move, w: Pair)
    requires Sound(v) && Matched(v) && m.Withdraw? && Moves(v, m, w) && IsKept(m) && IsFresh(v, m)
    ensures Matched(w)
  {
    hide Accounted, AnswersInOrder, IsHelpSession, IsReply, IsAsk;
  }

  lemma BeginKeepsMatched(v: Pair, m: Move, w: Pair)
    requires Sound(v) && Matched(v) && m.HearAsk? && m.heed.Begin? && Moves(v, m, w) && IsKept(m) && IsFresh(v, m)
    ensures Matched(w)
  {
    hide Accounted, IsHelpSession;
  }

  lemma ElsewhereKeepsMatched(v: Pair, m: Move, w: Pair)
    requires Sound(v) && Matched(v) && m.Elsewhere? && Moves(v, m, w) && IsKept(m) && IsFresh(v, m)
    ensures Matched(w)
  {
    hide Sound, IsHelpSession, IsAnswer;
  }

  lemma HearReplyKeepsFits(v: Pair, m: Move, w: Pair)
    requires Sound(v) && Matched(v) && m.HearReply? && Moves(v, m, w) && IsKept(m) && IsFresh(v, m)
    ensures Fits(w)
  {
    hide Met, IsAsk, IsReply;
  }

  lemma HearReplyKeepsMet(v: Pair, m: Move, w: Pair)
    requires Sound(v) && Matched(v) && m.HearReply? && Moves(v, m, w) && IsKept(m) && IsFresh(v, m)
    ensures Met(w)
  {
    hide Accounted;
  }

  lemma SayBusyKeepsFits(v: Pair, m: Move, w: Pair)
    requires Sound(v) && Matched(v) && m.HearAsk? && m.heed.SayBusy? && Moves(v, m, w) && IsKept(m) && IsFresh(v, m)
    ensures Fits(w)
  {
  }

  lemma SayBusyKeepsMet(v: Pair, m: Move, w: Pair)
    requires Sound(v) && Matched(v) && m.HearAsk? && m.heed.SayBusy? && Moves(v, m, w) && IsKept(m) && IsFresh(v, m)
    ensures Met(w)
  {
  }

  lemma IgnoreAskKeepsFits(v: Pair, m: Move, w: Pair)
    requires Sound(v) && Matched(v) && m.HearAsk? && m.heed.Ignore? && m.p.message.Request? && Moves(v, m, w) && IsKept(m) && IsFresh(v, m)
    ensures Fits(w)
  {
  }

  lemma IgnoreAskKeepsMet(v: Pair, m: Move, w: Pair)
    requires Sound(v) && Matched(v) && m.HearAsk? && m.heed.Ignore? && m.p.message.Request? && Moves(v, m, w) && IsKept(m) && IsFresh(v, m)
    ensures Met(w)
  {
  }

  lemma HearStopKeepsFits(v: Pair, m: Move, w: Pair)
    requires Sound(v) && Matched(v) && m.HearAsk? && m.heed.Ignore? && m.p.message.Stop? && Moves(v, m, w) && IsKept(m) && IsFresh(v, m)
    ensures Fits(w)
  {
    hide Met, StillAwaited, IsHelpSession;
  }

  lemma HearStopKeepsMet(v: Pair, m: Move, w: Pair)
    requires Sound(v) && Matched(v) && m.HearAsk? && m.heed.Ignore? && m.p.message.Stop? && Moves(v, m, w) && IsKept(m) && IsFresh(v, m)
    ensures Met(w)
  {
    hide StillAwaited, IsHelpSession, Accounted, AllLater, YesesFit;
  }

  lemma ReplyKeepsFits(v: Pair, m: Move, w: Pair)
    requires Sound(v) && Matched(v) && m.Reply? && Moves(v, m, w) && IsKept(m) && IsFresh(v, m)
    ensures Fits(w)
  {
    hide Met, StillAwaited, IsHelpSession;
  }

  lemma ReplyKeepsMet(v: Pair, m: Move, w: Pair)
    requires Sound(v) && Matched(v) && m.Reply? && Moves(v, m, w) && IsKept(m) && IsFresh(v, m)
    ensures Met(w)
  {
  }

  lemma LeaveKeepsFits(v: Pair, m: Move, w: Pair)
    requires Sound(v) && Matched(v) && m.Leave? && Moves(v, m, w) && IsKept(m) && IsFresh(v, m)
    ensures Fits(w)
  {
    hide Met, Accounted, IsHelpSession;
  }

  lemma LeaveKeepsMet(v: Pair, m: Move, w: Pair)
    requires Sound(v) && Matched(v) && m.Leave? && Moves(v, m, w) && IsKept(m) && IsFresh(v, m)
    ensures Met(w)
  {
  }

  lemma MoveKeepsMatched(v: Pair, m: Move, w: Pair)
    requires Sound(v) && Matched(v) && Moves(v, m, w) && IsKept(m) && IsFresh(v, m)
    ensures Matched(w)
  {
    assert m.HearAsk? ==> IsAsk(m.p.message);
    hide Sound, Fits, Met, Moves;
    match m {
      case Ask(p) => AskKeepsMatched(v, m, w);
      case Withdraw(stop) => WithdrawKeepsMatched(v, m, w);
      case HearReply(p) =>
        HearReplyKeepsFits(v, m, w);
        HearReplyKeepsMet(v, m, w);
      case HearAsk(p, heed) => HearAskKeepsMatched(v, m, w);
      case Reply(p) =>
        ReplyKeepsFits(v, m, w);
        ReplyKeepsMet(v, m, w);
      case Leave(stop) =>
        LeaveKeepsFits(v, m, w);
        LeaveKeepsMet(v, m, w);
      case Elsewhere(accepted) => ElsewhereKeepsMatched(v, m, w);
    }
  }

  lemma HearAskKeepsMatched(v: Pair, m: Move, w: Pair)
    requires Sound(v) && Matched(v) && m.HearAsk? && Moves(v, m, w) && IsKept(m) && IsFresh(v, m)
    ensures Matched(w)
  {
    assert IsAsk(m.p.message);
    hide Sound, Fits, Met, Moves;
    if m.heed.Begin? {
      BeginKeepsMatched(v, m, w);
    } else if m.heed.SayBusy? {
      SayBusyKeepsFits(v, m, w);
      SayBusyKeepsMet(v, m, w);
    } else if m.p.message.Request? {
      IgnoreAskKeepsFits(v, m, w);
      IgnoreAskKeepsMet(v, m, w);
    } else {
      HearStopKeepsFits(v, m, w);
      HearStopKeepsMet(v, m, w);
    }
  }

  // ----- over a run -----

  /** In the first `i` actions nothing between the two is lost, neither leaves, and session numbers are new. */
  ghost predicate IsUnbroken(nets: seq<Net>, actions: seq<Action>, i: nat, a: Uuid, b: Uuid)
    requires i <= |actions| < |nets|
    requires forall k :: 0 <= k < |actions| ==> Enabled(nets[k], actions[k])
  {
    forall k :: 0 <= k < i ==> IsSteady(actions[k], a, b) && TakesFresh(nets[k], actions[k])
  }

  lemma {:induction false} UnbrokenRunsAreMatched(nets: seq<Net>, rooms: seq<seq<Uuid>>, actions: seq<Action>, i: nat,
                                                  a: Uuid, b: Uuid)
    requires IsRun(nets, rooms, actions) && i <= |actions| && a in nets[0].apps && b in nets[0].apps && a != b
    requires IsUnbroken(nets, actions, i, a, b)
    ensures Matched(View(nets[i], a, b))
  {
    if i == 0 {
      assert UnderWay(nets[0], (a, b)) == [] && UnderWay(nets[0], (b, a)) == [];
    } else {
      UnbrokenRunsAreMatched(nets, rooms, actions, i - 1, a, b);
      RunsAreOrdered(nets, rooms, actions, i - 1);
      RunsAreSound(nets, rooms, actions, i - 1, a, b);
      var before := nets[i - 1];
      assert nets[i] == Next(before, rooms[i - 1], actions[i - 1]);
      assert IsSteady(actions[i - 1], a, b) && TakesFresh(before, actions[i - 1]);
      hide Sound, Matched, Next, View, Moves, Ordered, IsKept, IsFresh, IsSteady, TakesFresh;
      var move := EveryActionMoves(before, rooms[i - 1], actions[i - 1], a, b);
      MoveKeepsMatched(View(before, a, b), move, View(nets[i], a, b));
    }
  }

  ghost predicate HelpsUnder(n: Net, a: Uuid, b: Uuid, session: string) {
    a in n.apps && n.apps[a].giving == Some(Helping(b, session))
  }

  ghost predicate IsHelpedUnder(n: Net, b: Uuid, a: Uuid, session: string) {
    b in n.apps && ReceivingSide(n.apps[b], a) == On(session)
  }

  ghost predicate Agree(n: Net, a: Uuid, b: Uuid) {
    forall session :: HelpsUnder(n, a, b, session) <==> IsHelpedUnder(n, b, a, session)
  }

  /** No message about help of `a` for `b` is under way between them. */
  predicate NothingUnderWay(n: Net, a: Uuid, b: Uuid) {
    AsksOn(n, (a, b)) == {} && RepliesOn(n, (b, a)) == {}
  }

  /** `a` helps by a yes to a request that it had let go of before the yes came in. */
  ghost predicate TookLateYes(n: Net, a: Uuid, b: Uuid) {
    exists session :: HelpsUnder(n, a, b, session) && session in n.past.accepted &&
                      LetGoAt(n, (a, b)) > n.past.accepted[session]
  }

  /** `b` is helped under a session whose yes came in while `a` was not waiting for one. */
  ghost predicate YesWasLost(n: Net, a: Uuid, b: Uuid) {
    exists session :: IsHelpedUnder(n, b, a, session) && session in DroppedOn(n, (a, b))
  }

  lemma MatchedAgreesExactly(n: Net, a: Uuid, b: Uuid)
    requires a in n.apps && b in n.apps && Sound(View(n, a, b)) && Matched(View(n, a, b)) && NothingUnderWay(n, a, b)
    ensures Agree(n, a, b) <==> !TookLateYes(n, a, b) && !YesWasLost(n, a, b)
    ensures LetGoAt(n, (a, b)) == 0 ==> Agree(n, a, b)
    ensures YesWasLost(n, a, b) ==> CutOffAt(n, (a, b)) > BegunAt(n, b)
  {
    var v := View(n, a, b);
    assert v.asks == {} && v.answers == {};
    assert forall s :: HelpsUnder(n, a, b, s) <==> Helps(v, s);
    assert forall s :: IsHelpedUnder(n, b, a, s) <==> IsHelped(v, s);
    assert v.letGo == LetGoAt(n, (a, b)) && v.cutOff == CutOffAt(n, (a, b)) && (v.receiving.On? ==> v.begun == BegunAt(n, b));
    assert v.accepted == n.past.accepted && v.dropped == DroppedOn(n, (a, b));
    assert v.cutOff > 0 ==> v.letGo > 0;
    hide View, AsksOn, RepliesOn, HelpsUnder, IsHelpedUnder, Sound;
    assert forall s :: Helps(v, s) ==> s in v.accepted && s !in v.dropped && (IsHelped(v, s) || v.letGo > v.accepted[s]);
    assert forall s :: IsHelped(v, s) ==> s in v.accepted && v.accepted[s] == v.begun;
    assert v.receiving.On? ==> v.letGo <= v.begun;
    assert forall s :: IsHelped(v, s) ==> Helps(v, s) || s in v.dropped;
  }

  /** With nothing under way the two sides agree, exactly unless one helps by a yes to a request it had let
      go of, or the other is helped by a yes that was not waited for. That happens only where an answer to an
      earlier request was taken for one to the request that was accepted. */
  lemma SidesAgreeExactly(nets: seq<Net>, rooms: seq<seq<Uuid>>, actions: seq<Action>, i: nat, a: Uuid, b: Uuid)
    requires IsRun(nets, rooms, actions) && i <= |actions| && a in nets[0].apps && b in nets[0].apps && a != b
    requires IsUnbroken(nets, actions, i, a, b) && NothingUnderWay(nets[i], a, b)
    ensures (forall session :: HelpsUnder(nets[i], a, b, session) <==> IsHelpedUnder(nets[i], b, a, session)) <==>
            !TookLateYes(nets[i], a, b) && !YesWasLost(nets[i], a, b)
    ensures YesWasLost(nets[i], a, b) ==> CutOffAt(nets[i], (a, b)) > BegunAt(nets[i], b)
  {
    RunsAreSound(nets, rooms, actions, i, a, b);
    UnbrokenRunsAreMatched(nets, rooms, actions, i, a, b);
    hide Sound, Matched;
    MatchedAgreesExactly(nets[i], a, b);
  }

  /** What an app can tell by itself: while it never let go of an unanswered request to `b`, they agree. */
  lemma SidesAgreeUnlessLetGo(nets: seq<Net>, rooms: seq<seq<Uuid>>, actions: seq<Action>, i: nat, a: Uuid, b: Uuid)
    requires IsRun(nets, rooms, actions) && i <= |actions| && a in nets[0].apps && b in nets[0].apps && a != b
    requires IsUnbroken(nets, actions, i, a, b) && NothingUnderWay(nets[i], a, b)
    requires (a, b) !in nets[i].past.letGo
    ensures forall session :: HelpsUnder(nets[i], a, b, session) <==> IsHelpedUnder(nets[i], b, a, session)
  {
    RunsAreSound(nets, rooms, actions, i, a, b);
    UnbrokenRunsAreMatched(nets, rooms, actions, i, a, b);
    hide Sound, Matched;
    MatchedAgreesExactly(nets[i], a, b);
  }
}
