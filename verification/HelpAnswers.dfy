/** Whether a yes answers the request it is taken to answer. */
module HelpAnswers {
  import opened Wrappers
  import opened HelpProtocol
  import opened HelpRuns
  import opened HelpInOrder
  import opened HelpPair
  import opened HelpMoves

  /** A request that can still be answered, or whose answer is under way, is the one the answer is
      awaited to, or the wait for it has ended without its answer. */
  predicate StillAwaited(v: Pair, request: nat) {
    && request <= v.asked
    && ((request == v.asked && v.giving.Pending?) || v.letGo > request || v.cutOff > request)
  }

  ghost predicate NumbersFit(v: Pair) {
    && (forall p :: p in v.asks ==> p.serial < v.next)
    && (forall p :: p in v.answers ==> p.serial < v.next && (IsAnswer(p.message) ==> p.re < v.next))
    && v.letGo <= v.next && v.cutOff <= v.next && v.asked <= v.next && v.begun <= v.next
    && (v.giving.Pending? ==> v.asked < v.next && v.letGo <= v.asked && v.cutOff <= v.asked)
    && (!v.receiving.Off? ==> v.begun < v.next)
  }

  /** Requests are answered in the order they were sent in. */
  ghost predicate AnswersInOrder(v: Pair) {
    && (forall p, q :: p in v.answers && IsAnswer(p.message) && q in v.answers && IsAnswer(q.message) ==>
          (p.serial < q.serial ==> p.re < q.re))
    && (forall p :: p in v.answers && IsAnswer(p.message) && v.receiving.Pending? ==> p.re < v.begun)
    && (forall p, q :: p in v.answers && IsAnswer(p.message) && q in v.asks && q.message.Request? ==> p.re < q.serial)
    && (forall q :: q in v.asks && !v.receiving.Off? ==> v.begun < q.serial)
    && (forall p, q :: p in v.answers && q in v.answers && p != q ==> p.serial != q.serial)
  }

  ghost predicate Accounted(v: Pair) {
    && (forall p :: p in v.answers && IsAnswer(p.message) ==> StillAwaited(v, p.re))
    && (v.receiving.Pending? ==> StillAwaited(v, v.begun))
    && (forall p :: p in v.asks && p.message.Request? ==> StillAwaited(v, p.serial))
    && (v.cutOff > 0 ==> v.letGo > 0)
  }

  ghost predicate KindsFit(v: Pair) {
    && (forall p :: p in v.asks ==> IsAsk(p.message))
    && (forall p :: p in v.answers ==> IsReply(p.message))
  }

  ghost predicate Sound(v: Pair) {
    KindsFit(v) && NumbersFit(v) && AnswersInOrder(v) && Accounted(v)
  }

  /** `w` has at most what `v` has, and its one asked may have stopped waiting for its user. */
  ghost predicate Fewer(v: Pair, w: Pair) {
    && w.asks <= v.asks && w.answers <= v.answers && w.next >= v.next
    && w.giving == v.giving && w.asked == v.asked && w.letGo == v.letGo && w.cutOff == v.cutOff
    && (w.begun == v.begun || (w.receiving.Off? && w.begun == 0))
    && (w.receiving == v.receiving || w.receiving.Off? || (v.receiving.Pending? && w.receiving.On?))
  }

  lemma FewerIsSound(v: Pair, w: Pair)
    requires Sound(v) && Fewer(v, w)
    ensures Sound(w)
  {
  }

  lemma AskedStays(v: Pair, w: Pair)
    requires w.giving == v.giving && w.asked == v.asked && w.letGo == v.letGo && w.cutOff == v.cutOff
    ensures forall r: nat :: StillAwaited(w, r) <==> StillAwaited(v, r)
  {
  }

  lemma MoreAsksAreSound(v: Pair, w: Pair, p: Posted)
    requires Sound(v) && p.serial == v.next && IsAsk(p.message)
    requires w == v.(asks := v.asks + {p}, next := w.next) && w.next > v.next
    requires p.message.Request? ==> StillAwaited(v, v.next)
    ensures Sound(w)
  {
    AskedStays(v, w);
    hide StillAwaited, IsAsk, IsReply, IsAnswer;
  }

  /** An answer now to `re` comes after all answers given, and before all that can still be given. */
  ghost predicate IsNextAnswer(v: Pair, re: nat) {
    && re < v.next && StillAwaited(v, re)
    && (forall q :: q in v.answers && IsAnswer(q.message) ==> q.re < re)
    && (forall q :: q in v.asks && q.message.Request? ==> re < q.serial)
    && (v.receiving.Pending? ==> re < v.begun)
  }

  lemma MoreRepliesAreSound(v: Pair, w: Pair, p: Posted)
    requires Sound(v) && p.serial == v.next && IsReply(p.message)
    requires w == v.(answers := v.answers + {p}, next := w.next) && w.next > v.next
    requires IsAnswer(p.message) ==> IsNextAnswer(v, p.re)
    ensures Sound(w)
  {
    AskedStays(v, w);
    hide StillAwaited, IsAsk, IsReply, IsAnswer;
  }

  lemma AskKeepsSound(v: Pair, m: Move, w: Pair)
    requires Sound(v) && m.Ask? && Moves(v, m, w)
    ensures Sound(w)
  {
  }

  lemma GivingUpIsSound(v: Pair)
    requires Sound(v) && !v.giving.Off?
    ensures Sound(v.(giving := Off, letGo := if v.giving.Pending? then v.next else v.letGo))
  {
    hide IsAsk, IsReply, IsAnswer;
  }

  lemma WithdrawKeepsSound(v: Pair, m: Move, w: Pair)
    requires Sound(v) && m.Withdraw? && Moves(v, m, w)
    ensures Sound(w)
  {
    var off := v.(giving := Off, letGo := if v.giving.Pending? then v.next else v.letGo);
    GivingUpIsSound(v);
    hide Sound;
    if m.stop.Some? {
      MoreAsksAreSound(off, w, m.stop.value);
    } else {
      FewerIsSound(off, w);
    }
  }

  lemma HearReplyKeepsSound(v: Pair, m: Move, w: Pair)
    requires Sound(v) && m.HearReply? && Moves(v, m, w)
    ensures Sound(w)
  {
    if w.giving == v.giving {
      FewerIsSound(v, w);
    }
    hide IsAsk, IsReply;
  }

  lemma BeginKeepsSound(v: Pair, m: Move, w: Pair)
    requires Sound(v) && m.HearAsk? && m.heed.Begin? && Moves(v, m, w)
    ensures Sound(w)
  {
  }

  lemma HearAskKeepsSound(v: Pair, m: Move, w: Pair)
    requires Sound(v) && m.HearAsk? && Moves(v, m, w)
    ensures Sound(w)
  {
    var taken := v.(asks := v.asks - {m.p});
    assert m.heed.SayBusy? ==> IsNextAnswer(taken, m.heed.answer.re);
    hide Sound;
    FewerIsSound(v, taken);
    if m.heed.Begin? {
      BeginKeepsSound(v, m, w);
    } else if m.heed.SayBusy? {
      MoreRepliesAreSound(taken, w, m.heed.answer);
    } else {
      FewerIsSound(v, w);
    }
  }

  lemma ReplyKeepsSound(v: Pair, m: Move, w: Pair)
    requires Sound(v) && m.Reply? && Moves(v, m, w)
    ensures Sound(w)
  {
    var done := w.(answers := v.answers, next := v.next);
    assert IsNextAnswer(done, m.answer.re);
    hide Sound;
    FewerIsSound(v, done);
    MoreRepliesAreSound(done, w, m.answer);
  }

  lemma LeaveKeepsSound(v: Pair, m: Move, w: Pair)
    requires Sound(v) && m.Leave? && Moves(v, m, w)
    ensures Sound(w)
  {
    hide Sound;
    var off := w.(answers := v.answers, next := v.next);
    FewerIsSound(v, off);
    if m.stop.Some? {
      MoreRepliesAreSound(off, w, m.stop.value);
    } else {
      FewerIsSound(off, w);
    }
  }

  lemma MoveKeepsSound(v: Pair, m: Move, w: Pair)
    requires Sound(v) && Moves(v, m, w)
    ensures Sound(w)
  {
    hide Sound;
    match m {
      case Ask(p) => AskKeepsSound(v, m, w);
      case Withdraw(stop) => WithdrawKeepsSound(v, m, w);
      case HearReply(p) => HearReplyKeepsSound(v, m, w);
      case HearAsk(p, heed) => HearAskKeepsSound(v, m, w);
      case Reply(p) => ReplyKeepsSound(v, m, w);
      case Leave(stop) => LeaveKeepsSound(v, m, w);
      case LoseAsk(p) => FewerIsSound(v, w);
      case LoseReply(p) => FewerIsSound(v, w);
      case Elsewhere(accepted) => FewerIsSound(v, w);
    }
  }

  // ----- over a run -----

  lemma AppsStay(n: Net, room: seq<Uuid>, action: Action)
    requires Enabled(n, action)
    ensures Next(n, room, action).apps.Keys == n.apps.Keys
  {
    match action {
      case Local(app, call) => Acted(n, room, app, call);
      case Deliver(lane, fromName, now) => Arrived(n, room, lane, fromName, now);
      case _ =>
    }
  }

  lemma {:induction false} RunsAreSound(nets: seq<Net>, rooms: seq<seq<Uuid>>, actions: seq<Action>, i: nat, a: Uuid, b: Uuid)
    requires IsRun(nets, rooms, actions) && i <= |actions| && a in nets[0].apps && b in nets[0].apps && a != b
    ensures nets[i].apps.Keys == nets[0].apps.Keys && Sound(View(nets[i], a, b))
  {
    if i == 0 {
      assert UnderWay(nets[0], (a, b)) == [] && UnderWay(nets[0], (b, a)) == [];
    } else {
      RunsAreSound(nets, rooms, actions, i - 1, a, b);
      RunsAreOrdered(nets, rooms, actions, i - 1);
      var before := nets[i - 1];
      assert nets[i] == Next(before, rooms[i - 1], actions[i - 1]);
      hide Sound, Next, View, Moves, Ordered;
      AppsStay(before, rooms[i - 1], actions[i - 1]);
      var move := EveryActionMoves(before, rooms[i - 1], actions[i - 1], a, b);
      MoveKeepsSound(View(before, a, b), move, View(nets[i], a, b));
    }
  }

  /** An answer comes in to `a`, which waits for `b`. */
  predicate IsAnswered(n: Net, action: Action, a: Uuid, b: Uuid) {
    && action.Deliver? && action.lane == (b, a) && UnderWay(n, (b, a)) != [] && IsAnswer(UnderWay(n, (b, a))[0].message)
    && a in n.apps && n.apps[a].giving == Some(Asking(b))
  }

  /** A yes, or a no, that an app waits for answers its last request, unless since the request it answers
      the app has let go of one, or taken an answer to an earlier one for an answer to that. */
  lemma AnswerIsToTheLastRequest(nets: seq<Net>, rooms: seq<seq<Uuid>>, actions: seq<Action>, i: nat, a: Uuid, b: Uuid)
    requires IsRun(nets, rooms, actions) && i < |actions| && a in nets[0].apps && b in nets[0].apps && a != b
    requires IsAnswered(nets[i], actions[i], a, b)
    ensures var (n, lane) := (nets[i], (a, b)); var answer := UnderWay(n, (b, a))[0];
      answer.re == LastAsked(n, lane) <==> LetGoAt(n, lane) <= answer.re && CutOffAt(n, lane) <= answer.re
  {
    RunsAreSound(nets, rooms, actions, i, a, b);
    assert UnderWay(nets[i], (b, a))[0] in View(nets[i], a, b).answers;
  }

  /** What an app can tell before it asks: one that never let go of an unanswered request to `b` takes
      no answer of `b` for an answer to another request. */
  lemma AnswersAreInTime(nets: seq<Net>, rooms: seq<seq<Uuid>>, actions: seq<Action>, i: nat, a: Uuid, b: Uuid)
    requires IsRun(nets, rooms, actions) && i < |actions| && a in nets[0].apps && b in nets[0].apps && a != b
    requires IsAnswered(nets[i], actions[i], a, b) && (a, b) !in nets[i].past.letGo
    ensures UnderWay(nets[i], (b, a))[0].re == LastAsked(nets[i], (a, b))
  {
    RunsAreSound(nets, rooms, actions, i, a, b);
    AnswerIsToTheLastRequest(nets, rooms, actions, i, a, b);
  }
}
