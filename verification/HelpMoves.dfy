/** Whatever happens in the room is one move between two of its apps. */
module HelpMoves {
  import opened Wrappers
  import opened HelpProtocol
  import opened HelpRuns
  import opened HelpInOrder
  import opened HelpPair

  // ----- what one call sends, lane by lane -----

  /** Only the first of `outs` may be sent to someone alone, and broadcasts are notices. */
  ghost predicate OneSend(outs: seq<Out>) {
    && (forall i :: 0 < i < |outs| ==> !outs[i].Send?)
    && (forall i :: 0 <= i < |outs| && outs[i].Broadcast? ==> outs[i].message.Notice?)
  }

  lemma CallsSendOnce(s: State, c: Call)
    ensures OneSend(Outs(s, c))
  {
  }

  function IfAsk(p: Option<Posted>): set<Posted> {
    if p.Some? && IsAsk(p.value.message) then {p.value} else {}
  }

  function IfReply(p: Option<Posted>): set<Posted> {
    if p.Some? && IsReply(p.value.message) then {p.value} else {}
  }

  /** `n` has one message more on the lane than `was`, or none, notices aside. */
  ghost predicate Adds(was: Net, n: Net, lane: Lane, more: Option<Posted>) {
    && AsksOn(n, lane) == AsksOn(was, lane) + IfAsk(more)
    && RepliesOn(n, lane) == RepliesOn(was, lane) + IfReply(more)
  }

  lemma PostAdds(n: Net, to: Lane, re: nat, message: Message, lane: Lane)
    ensures Adds(n, Post(n, to, re, message), lane, if to == lane then Some(Posted(n.next, re, message)) else None)
  {
  }

  lemma {:induction false} NoticeAddsNothing(n: Net, from: Uuid, room: seq<Uuid>, re: nat, message: Message, lane: Lane)
    requires message.Notice?
    ensures var m := PostToAll(n, from, room, re, message);
      Adds(n, m, lane, None) && m.next >= n.next && m == n.(lanes := m.lanes, next := m.next)
    decreases room
  {
    if room != [] {
      PostAdds(n, (from, room[0]), re, message, lane);
      NoticeAddsNothing(Post(n, (from, room[0]), re, message), from, room[1..], re, message, lane);
    }
  }

  /** What `app` sends to someone alone, when it sends `outs`. */
  function Sent(serial: nat, re: nat, outs: seq<Out>): Option<Posted> {
    if outs != [] && outs[0].Send? then Some(Posted(serial, re, outs[0].message)) else None
  }

  function SentOn(app: Uuid, serial: nat, re: nat, outs: seq<Out>, lane: Lane): Option<Posted> {
    if outs != [] && outs[0].Send? && lane == (app, outs[0].to) then Sent(serial, re, outs) else None
  }

  lemma {:induction false} OutsAdd(n: Net, app: Uuid, room: seq<Uuid>, re: nat, outs: seq<Out>, lane: Lane)
    requires OneSend(outs)
    ensures var m := PostOuts(n, app, room, re, outs);
      && Adds(n, m, lane, SentOn(app, n.next, re, outs, lane))
      && m == n.(lanes := m.lanes, next := m.next)
      && m.next >= Later(n.next, Sent(n.next, re, outs))
    decreases outs
  {
    if outs != [] {
      var rest := outs[1..];
      assert OneSend(rest) && (rest != [] ==> !rest[0].Send?);
      match outs[0] {
        case Send(to, message) =>
          PostAdds(n, (app, to), re, message, lane);
          OutsAdd(Post(n, (app, to), re, message), app, room, re, rest, lane);
        case Broadcast(message) =>
          NoticeAddsNothing(n, app, room, re, message, lane);
          OutsAdd(PostToAll(n, app, room, re, message), app, room, re, rest, lane);
        case _ =>
          OutsAdd(n, app, room, re, rest, lane);
      }
    }
  }

  // ----- each action is a move -----

  /** What `a` and `b` see of it when `app` goes to `t` and sends `outs`. */
  lemma ViewAfter(was: Net, room: seq<Uuid>, app: Uuid, t: State, outs: seq<Out>, re: nat, a: Uuid, b: Uuid)
    requires app in was.apps && OneSend(outs) && a != b
    ensures var m := PostOuts(was.(apps := was.apps[app := t]), app, room, re, outs); var v := View(was, a, b);
      var w := View(m, a, b);
      && w.giving == (if app == a then GivingSide(t, b) else v.giving)
      && w.receiving == (if app == b then ReceivingSide(t, a) else v.receiving)
      && w.asks == v.asks + IfAsk(SentOn(app, was.next, re, outs, (a, b)))
      && w.answers == v.answers + IfReply(SentOn(app, was.next, re, outs, (b, a)))
      && w.next >= Later(was.next, Sent(was.next, re, outs))
      && w.begun == (if w.receiving.Off? then 0 else BegunAt(was, b))
      && w.asked == v.asked && w.letGo == v.letGo && w.cutOff == v.cutOff
      && w.accepted == v.accepted && w.dropped == v.dropped
  {
    hide GivingSide, ReceivingSide;
    var then' := was.(apps := was.apps[app := t]);
    OutsAdd(then', app, room, re, outs, (a, b));
    OutsAdd(then', app, room, re, outs, (b, a));
    hide OneSend, PostOuts;
  }

  lemma Acted(n: Net, room: seq<Uuid>, app: Uuid, call: Call)
    requires app in n.apps
    ensures Act(n, room, app, call).apps == n.apps[app := Step(n.apps[app], call).0]
  {
    CallsSendOnce(n.apps[app], call);
    OutsAdd(n.(apps := n.apps[app := Step(n.apps[app], call).0], past := AfterLocal(n, app, call)),
            app, room, BegunAt(n, app), Outs(n.apps[app], call), (app, app));
  }

  lemma ViewIs(n: Net, a: Uuid, b: Uuid)
    requires a in n.apps && b in n.apps
    ensures var v := View(n, a, b);
      && v.giving == GivingSide(n.apps[a], b) && v.receiving == ReceivingSide(n.apps[b], a)
      && v.next == n.next && v.accepted == n.past.accepted && v.begun == if v.receiving.Off? then 0 else BegunAt(n, b)
  {
  }

  /** What `a` and `b` see of it when `app` acts. */
  lemma ActView(n: Net, room: seq<Uuid>, app: Uuid, call: Call, a: Uuid, b: Uuid)
    requires app in n.apps && a != b
    ensures var (v, w) := (View(n, a, b), View(Act(n, room, app, call), a, b));
      var (s, t, outs) := (n.apps[app], Step(n.apps[app], call).0, Outs(n.apps[app], call));
      && w.giving == (if app == a then GivingSide(t, b) else v.giving)
      && w.receiving == (if app == b then ReceivingSide(t, a) else v.receiving)
      && w.asks == v.asks + IfAsk(SentOn(app, n.next, BegunAt(n, app), outs, (a, b)))
      && w.answers == v.answers + IfReply(SentOn(app, n.next, BegunAt(n, app), outs, (b, a)))
      && w.next >= Later(n.next, Sent(n.next, BegunAt(n, app), outs))
      && w.begun == (if w.receiving.Off? then 0 else BegunAt(n, b))
      && w.asked == (if app == a && call == DoRequest(b) && Step(s, call).1.Ok? then n.next else v.asked)
      && w.letGo == (if app == a && EndsTheWait(s, t) && s.giving.value.peer == b then n.next else v.letGo)
      && w.accepted == AfterLocal(n, app, call).accepted
      && w.cutOff == v.cutOff && w.dropped == v.dropped
  {
    CallsSendOnce(n.apps[app], call);
    ViewAfter(n.(past := AfterLocal(n, app, call)), room, app, Step(n.apps[app], call).0, Outs(n.apps[app], call),
              BegunAt(n, app), a, b);
    hide Step, Outs, GivingSide, ReceivingSide, OneSend, UnderWay, AsksOn, RepliesOn, PostOuts;
  }

  /** With this call an app leaves `peer`, or has seen it leave, and sends nothing. */
  predicate Leaves(call: Call, peer: Uuid) {
    call.DoReset? || call == DoPeerLeft(peer)
  }

  predicate AcceptsFresh(n: Net, app: Uuid, call: Call)
    requires app in n.apps
  {
    call.DoAccept? && Step(n.apps[app], call).1.Ok? ==>
      call.session !in n.past.accepted && IsHelpSession(call.session)
  }

  /** What a call means to one that asks `b` or helps it. */
  lemma GiverCalls(s: State, c: Call, b: Uuid)
    requires !c.DoReceive?
    ensures var t := Step(s, c).0; var outs := Outs(s, c); var (before, after) := (GivingSide(s, b), GivingSide(t, b));
      && (EndsTheWait(s, t) && s.giving.value.peer == b <==> before.Pending? && after.Off?)
      && (c == DoRequest(b) && Step(s, c).1.Ok? ==>
            before.Off? && after.Pending? && outs == [Send(b, Message.Request)])
      && (before != after && !(c == DoRequest(b) && Step(s, c).1.Ok?) ==>
            && after.Off? && !(c.DoAccept? && Step(s, c).1.Ok?)
            && (outs != [] && outs[0].Send? ==>
                  outs[0] == Send(b, Stop(Helper, Naming(before))) && IsAsk(outs[0].message)))
      && IsAsk(Message.Request)
      && (before != after && !Leaves(c, b) ==> outs != [] && outs[0].Send?)
      && (before == after && outs != [] && outs[0].Send? && outs[0].to == b ==> !IsAsk(outs[0].message))
  {
  }

  /** What a call means to one that `a` asks or helps. */
  lemma TakerCalls(s: State, c: Call, a: Uuid)
    requires !c.DoReceive?
    ensures var t := Step(s, c).0; var outs := Outs(s, c);
      var (before, after) := (ReceivingSide(s, a), ReceivingSide(t, a));
      && (before != after && outs != [] && outs[0].Send? ==>
            && outs[0].to == a && IsReply(outs[0].message)
            && (before.Pending? ==> IsAnswer(outs[0].message))
            && (before.On? ==> outs[0].message == Stop(Helped, Naming(before))))
      && (before != after ==> !before.Off?)
      && (before != after && !Leaves(c, a) ==> outs != [] && outs[0].Send?)
      && (after != before && !after.Off? ==>
            && before.Pending? && c.DoAccept? && after == On(c.session) && Step(s, c).1.Ok?
            && outs != [] && outs[0] == Send(a, Accepted(c.session)))
      && (before != after && c.DoAccept? && Step(s, c).1.Ok? ==> after.On?)
      && (before != after && outs != [] && outs[0].Send? && outs[0].message.Accepted? ==> after.On?)
      && (before == after && outs != [] && outs[0].Send? && outs[0].to == a ==> !IsReply(outs[0].message))
  {
  }

  lemma GiverAsks(n: Net, room: seq<Uuid>, a: Uuid, b: Uuid) returns (move: Move)
    requires a in n.apps && b in n.apps && a != b && Step(n.apps[a], DoRequest(b)).1.Ok?
    ensures Moves(View(n, a, b), move, View(Act(n, room, a, DoRequest(b)), a, b))
    ensures move.Ask?
  {
    move := Ask(Posted(n.next, BegunAt(n, a), Message.Request));
    GiverCalls(n.apps[a], DoRequest(b), b);
    ActView(n, room, a, DoRequest(b), a, b);
    ViewIs(n, a, b);
    hide Act, View, Step, Outs, GivingSide, ReceivingSide, EndsTheWait;
  }

  lemma GiverWithdraws(n: Net, room: seq<Uuid>, a: Uuid, b: Uuid, call: Call) returns (move: Move)
    requires a in n.apps && b in n.apps && a != b && !call.DoReceive?
    requires GivingSide(n.apps[a], b) != GivingSide(Step(n.apps[a], call).0, b)
    requires !(call == DoRequest(b) && Step(n.apps[a], call).1.Ok?)
    ensures Moves(View(n, a, b), move, View(Act(n, room, a, call), a, b))
    ensures move.Withdraw? && (!Leaves(call, b) ==> move.stop.Some?)
  {
    move := Withdraw(Sent(n.next, BegunAt(n, a), Outs(n.apps[a], call)));
    GiverCalls(n.apps[a], call, b);
    ActView(n, room, a, call, a, b);
    ViewIs(n, a, b);
    hide Act, View, Step, Outs, GivingSide, ReceivingSide, EndsTheWait;
  }

  lemma TakerReplies(n: Net, room: seq<Uuid>, a: Uuid, b: Uuid, call: Call) returns (move: Move)
    requires a in n.apps && b in n.apps && a != b && !call.DoReceive?
    requires ReceivingSide(n.apps[b], a).Pending? && ReceivingSide(Step(n.apps[b], call).0, a) != Pending
    requires Sent(n.next, BegunAt(n, b), Outs(n.apps[b], call)).Some?
    ensures Moves(View(n, a, b), move, View(Act(n, room, b, call), a, b))
    ensures move.Reply? && (AcceptsFresh(n, b, call) ==> IsFresh(View(n, a, b), move))
  {
    move := Reply(Sent(n.next, BegunAt(n, b), Outs(n.apps[b], call)).value);
    TakerCalls(n.apps[b], call, a);
    ActView(n, room, b, call, a, b);
    ViewIs(n, a, b);
    hide Act, View, Step, Outs, GivingSide, ReceivingSide, EndsTheWait, IsReply, IsAnswer;
  }

  lemma TakerLeaves(n: Net, room: seq<Uuid>, a: Uuid, b: Uuid, call: Call) returns (move: Move)
    requires a in n.apps && b in n.apps && a != b && !call.DoReceive?
    requires ReceivingSide(n.apps[b], a) != ReceivingSide(Step(n.apps[b], call).0, a)
    requires ReceivingSide(n.apps[b], a).Pending? ==> Sent(n.next, BegunAt(n, b), Outs(n.apps[b], call)).None?
    ensures Moves(View(n, a, b), move, View(Act(n, room, b, call), a, b))
    ensures move.Leave? && (!Leaves(call, a) ==> move.stop.Some?)
  {
    move := Leave(Sent(n.next, BegunAt(n, b), Outs(n.apps[b], call)));
    TakerCalls(n.apps[b], call, a);
    ActView(n, room, b, call, a, b);
    ViewIs(n, a, b);
    hide Act, View, Step, Outs, GivingSide, ReceivingSide, EndsTheWait, IsReply, IsAnswer;
  }

  lemma AcceptedGrows(n: Net, app: Uuid, call: Call, v: Pair)
    requires app in n.apps && v.accepted == n.past.accepted && AcceptsFresh(n, app, call)
    ensures IsFresh(v, Elsewhere(AfterLocal(n, app, call).accepted))
  {
    hide Step;
  }

  /** A call that concerns others. */
  lemma ActsElsewhere(n: Net, room: seq<Uuid>, a: Uuid, b: Uuid, app: Uuid, call: Call) returns (move: Move)
    requires a in n.apps && b in n.apps && app in n.apps && a != b && !call.DoReceive?
    requires app == a ==> GivingSide(n.apps[a], b) == GivingSide(Step(n.apps[a], call).0, b) &&
                          !(call == DoRequest(b) && Step(n.apps[a], call).1.Ok?)
    requires app == b ==> ReceivingSide(n.apps[b], a) == ReceivingSide(Step(n.apps[b], call).0, a)
    ensures Moves(View(n, a, b), move, View(Act(n, room, app, call), a, b))
    ensures move == Elsewhere(AfterLocal(n, app, call).accepted)
  {
    if app == a {
      GiverCalls(n.apps[a], call, b);
    } else if app == b {
      TakerCalls(n.apps[b], call, a);
    }
    ActView(n, room, app, call, a, b);
    ViewIs(n, a, b);
    hide AfterLocal, Act, View, Step, Outs, GivingSide, ReceivingSide, EndsTheWait, IsReply, IsAsk;
    move := Elsewhere(AfterLocal(n, app, call).accepted);
  }

  lemma AnyActs(n: Net, room: seq<Uuid>, a: Uuid, b: Uuid, app: Uuid, call: Call) returns (move: Move)
    requires a in n.apps && b in n.apps && app in n.apps && a != b && !call.DoReceive?
    ensures Moves(View(n, a, b), move, View(Act(n, room, app, call), a, b))
    ensures (app == a ==> !Leaves(call, b)) && (app == b ==> !Leaves(call, a)) ==> IsKept(move)
    ensures AcceptsFresh(n, app, call) ==> IsFresh(View(n, a, b), move)
  {
    hide Moves, Act, Step, Outs, AfterLocal;
    var t := Step(n.apps[app], call).0;
    if app == a && call == DoRequest(b) && Step(n.apps[a], call).1.Ok? {
      move := GiverAsks(n, room, a, b);
    } else if app == a && GivingSide(n.apps[a], b) != GivingSide(t, b) {
      move := GiverWithdraws(n, room, a, b, call);
    } else if app == b && ReceivingSide(n.apps[b], a) != ReceivingSide(t, a) {
      if ReceivingSide(n.apps[b], a).Pending? && Sent(n.next, BegunAt(n, b), Outs(n.apps[b], call)).Some? {
        move := TakerReplies(n, room, a, b, call);
      } else {
        move := TakerLeaves(n, room, a, b, call);
      }
    } else {
      move := ActsElsewhere(n, room, a, b, app, call);
      if AcceptsFresh(n, app, call) {
        AcceptedGrows(n, app, call, View(n, a, b));
      }
    }
  }

  /** What `n` is when the app at the end of the lane has changed nothing yet but the past. */
  function Taken(n: Net, lane: Lane, t: State): Net
    requires lane.1 in n.apps && UnderWay(n, lane) != []
  {
    var head := UnderWay(n, lane)[0];
    var begins := n.apps[lane.1].receiving.None? && head.message.Request?;
    n.(lanes := n.lanes[lane := UnderWay(n, lane)[1..]],
       begun := if begins then n.begun[lane.1 := head.serial] else n.begun,
       past := AfterArrival(n, lane, head, t))
  }

  lemma HeadIsFirst(q: seq<Posted>, next: nat)
    requires InOrder(q, next) && q != []
    ensures forall p :: p in q[1..] <==> p in q && p != q[0]
    ensures forall p :: p in q && p != q[0] ==> q[0].serial < p.serial
  {
    assert q == [q[0]] + q[1..];
    assert forall p :: p in q[1..] ==> q[0].serial < p.serial;
  }

  lemma TakenView(n: Net, lane: Lane, t: State, a: Uuid, b: Uuid)
    requires Ordered(n) && a != b && lane.1 in n.apps && UnderWay(n, lane) != []
    ensures var head := UnderWay(n, lane)[0]; var m := Taken(n, lane, t); var (v, w) := (View(n, a, b), View(m, a, b));
      && w.giving == v.giving && w.receiving == v.receiving && w.next == v.next && w.asked == v.asked
      && w.letGo == v.letGo && w.accepted == v.accepted
      && w.asks == (if lane == (a, b) then v.asks - {head} else v.asks)
      && w.answers == (if lane == (b, a) then v.answers - {head} else v.answers)
      && (lane == (a, b) && IsAsk(head.message) ==> IsFirst(head, v.asks))
      && (lane == (b, a) && IsReply(head.message) ==> IsFirst(head, v.answers))
      && (lane != (b, a) ==> w.cutOff == v.cutOff && w.dropped == v.dropped)
  {
    hide GivingSide, ReceivingSide;
    assert InOrder(UnderWay(n, lane), n.next);
    HeadIsFirst(UnderWay(n, lane), n.next);
    hide InOrder, Ordered, IsAsk, IsReply;
  }

  lemma Arrived(n: Net, room: seq<Uuid>, lane: Lane, fromName: string, now: int)
    requires lane.1 in n.apps && UnderWay(n, lane) != []
    ensures var head := UnderWay(n, lane)[0];
      Arrive(n, room, lane, fromName, now).apps ==
      n.apps[lane.1 := Step(n.apps[lane.1], DoReceive(lane.0, fromName, head.message, now)).0]
  {
    var head := UnderWay(n, lane)[0];
    var call := DoReceive(lane.0, fromName, head.message, now);
    var t := Step(n.apps[lane.1], call).0;
    CallsSendOnce(n.apps[lane.1], call);
    OutsAdd(Taken(n, lane, t).(apps := n.apps[lane.1 := t]), lane.1, room, head.serial, Outs(n.apps[lane.1], call), lane);
  }

  /** What `a` and `b` see of it when the head of a lane arrives. */
  lemma ArriveView(n: Net, room: seq<Uuid>, lane: Lane, fromName: string, now: int, a: Uuid, b: Uuid)
    requires Ordered(n) && a != b && lane.1 in n.apps && UnderWay(n, lane) != []
    ensures var (v, w) := (View(n, a, b), View(Arrive(n, room, lane, fromName, now), a, b));
      var (head, app) := (UnderWay(n, lane)[0], lane.1);
      var call := DoReceive(lane.0, fromName, head.message, now);
      var (s, t, outs) := (n.apps[app], Step(n.apps[app], call).0, Outs(n.apps[app], call));
      && w.giving == (if app == a then GivingSide(t, b) else v.giving)
      && w.receiving == (if app == b then ReceivingSide(t, a) else v.receiving)
      && w.asks == (if lane == (a, b) then v.asks - {head} else v.asks) +
                   IfAsk(SentOn(app, n.next, head.serial, outs, (a, b)))
      && w.answers == (if lane == (b, a) then v.answers - {head} else v.answers) +
                      IfReply(SentOn(app, n.next, head.serial, outs, (b, a)))
      && w.next >= Later(n.next, Sent(n.next, head.serial, outs))
      && w.begun == (if w.receiving.Off? then 0
                     else if app == b && s.receiving.None? && head.message.Request? then head.serial
                     else BegunAt(n, b))
      && w.asked == v.asked && w.letGo == v.letGo && w.accepted == v.accepted
      && w.cutOff == (if lane == (b, a) && EndsTheWait(s, t) && head.re < v.asked then n.next else v.cutOff)
      && w.dropped == (if lane == (b, a) && head.message.Accepted? && t.giving == s.giving
                       then v.dropped + {head.message.session} else v.dropped)
      && (lane == (a, b) && IsAsk(head.message) ==> IsFirst(head, v.asks))
      && (lane == (b, a) && IsReply(head.message) ==> IsFirst(head, v.answers))
      && (lane == (a, b) && !IsAsk(head.message) ==> head !in v.asks)
      && (lane == (b, a) && !IsReply(head.message) ==> head !in v.answers)
  {
    var head := UnderWay(n, lane)[0];
    var s := n.apps[lane.1];
    var call := DoReceive(lane.0, fromName, head.message, now);
    CallsSendOnce(s, call);
    ViewAfter(Taken(n, lane, Step(s, call).0), room, lane.1, Step(s, call).0, Outs(s, call), head.serial, a, b);
    TakenView(n, lane, Step(s, call).0, a, b);
    hide Ordered, Step, Outs, GivingSide, ReceivingSide, OneSend, AsksOn, RepliesOn, PostOuts, EndsTheWait;
  }

  /** What a message from `b` means to one that asks it or helps it. */
  lemma GiverTold(s: State, b: Uuid, fromName: string, m: Message, now: int)
    ensures var call := DoReceive(b, fromName, m, now); var t := Step(s, call).0; var outs := Outs(s, call);
      && GivingSide(t, b) == (if IsReply(m) then Heard(GivingSide(s, b), m) else GivingSide(s, b))
      && (EndsTheWait(s, t) <==> GivingSide(s, b).Pending? && GivingSide(t, b) != GivingSide(s, b))
      && (t.giving == s.giving <==> GivingSide(t, b) == GivingSide(s, b))
      && (outs != [] && outs[0].Send? ==> !IsAsk(outs[0].message))
  {
  }

  lemma GiverHearsReply(n: Net, room: seq<Uuid>, a: Uuid, b: Uuid, fromName: string, now: int) returns (move: Move)
    requires Ordered(n) && a in n.apps && b in n.apps && a != b && UnderWay(n, (b, a)) != []
    requires IsReply(UnderWay(n, (b, a))[0].message)
    ensures Moves(View(n, a, b), move, View(Arrive(n, room, (b, a), fromName, now), a, b))
    ensures move.HearReply?
  {
    var head := UnderWay(n, (b, a))[0];
    move := HearReply(head);
    GiverTold(n.apps[a], b, fromName, head.message, now);
    ArriveView(n, room, (b, a), fromName, now, a, b);
    ViewIs(n, a, b);
    hide Ordered, View, Arrive, Step, Outs, GivingSide, ReceivingSide, EndsTheWait, UnderWay, BegunAt, Heard, IsFirst, IsAsk, IsReply;
  }

  lemma GiverHearsElse(n: Net, room: seq<Uuid>, a: Uuid, b: Uuid, fromName: string, now: int) returns (move: Move)
    requires Ordered(n) && a in n.apps && b in n.apps && a != b && UnderWay(n, (b, a)) != []
    requires !IsReply(UnderWay(n, (b, a))[0].message)
    ensures Moves(View(n, a, b), move, View(Arrive(n, room, (b, a), fromName, now), a, b))
    ensures move == Elsewhere(n.past.accepted)
  {
    var head := UnderWay(n, (b, a))[0];
    move := Elsewhere(n.past.accepted);
    GiverTold(n.apps[a], b, fromName, head.message, now);
    ArriveView(n, room, (b, a), fromName, now, a, b);
    ViewIs(n, a, b);
    hide Ordered, View, Arrive, Step, Outs, GivingSide, ReceivingSide, EndsTheWait, UnderWay, BegunAt, Heard, IsAsk, IsReply;
  }

  lemma GiverHears(n: Net, room: seq<Uuid>, a: Uuid, b: Uuid, fromName: string, now: int) returns (move: Move)
    requires Ordered(n) && a in n.apps && b in n.apps && a != b && UnderWay(n, (b, a)) != []
    ensures Moves(View(n, a, b), move, View(Arrive(n, room, (b, a), fromName, now), a, b))
    ensures IsKept(move) && IsFresh(View(n, a, b), move)
  {
    hide Ordered, Arrive, Moves;
    if IsReply(UnderWay(n, (b, a))[0].message) {
      move := GiverHearsReply(n, room, a, b, fromName, now);
    } else {
      move := GiverHearsElse(n, room, a, b, fromName, now);
    }
  }

  /** What a message from `a` means to one that `a` asks or helps. */
  lemma TakerTold(s: State, a: Uuid, fromName: string, m: Message, now: int)
    ensures var call := DoReceive(a, fromName, m, now); var t := Step(s, call).0; var outs := Outs(s, call);
      var (before, after) := (ReceivingSide(s, a), ReceivingSide(t, a));
      && (s.receiving.None? && m.Request? ==> before.Off? && after == Pending && outs != [] && !outs[0].Send?)
      && (s.receiving.Some? && m.Request? ==> after == before)
      && (!m.Request? ==> after == if IsAsk(m) && EndsReceiving(before, m) then Off else before)
      && (outs != [] && outs[0].Send? ==> before.Off? && m.Request? && outs[0] == Send(a, Declined(true)))
  {
  }

  lemma TakerHearsRequest(n: Net, room: seq<Uuid>, a: Uuid, b: Uuid, fromName: string, now: int) returns (move: Move)
    requires Ordered(n) && a in n.apps && b in n.apps && a != b && UnderWay(n, (a, b)) != []
    requires UnderWay(n, (a, b))[0].message.Request? && n.apps[b].receiving.None?
    ensures Moves(View(n, a, b), move, View(Arrive(n, room, (a, b), fromName, now), a, b))
    ensures move.HearAsk?
  {
    var head := UnderWay(n, (a, b))[0];
    move := HearAsk(head, Begin);
    TakerTold(n.apps[b], a, fromName, head.message, now);
    ArriveView(n, room, (a, b), fromName, now, a, b);
    ViewIs(n, a, b);
    hide Ordered, View, Arrive, Step, Outs, GivingSide, ReceivingSide, EndsTheWait, UnderWay, BegunAt;
  }

  lemma TakerIsBusy(n: Net, room: seq<Uuid>, a: Uuid, b: Uuid, fromName: string, now: int) returns (move: Move)
    requires Ordered(n) && a in n.apps && b in n.apps && a != b && UnderWay(n, (a, b)) != []
    requires var outs := Outs(n.apps[b], DoReceive(a, fromName, UnderWay(n, (a, b))[0].message, now));
      outs != [] && outs[0].Send?
    ensures Moves(View(n, a, b), move, View(Arrive(n, room, (a, b), fromName, now), a, b))
    ensures move.HearAsk?
  {
    var head := UnderWay(n, (a, b))[0];
    move := HearAsk(head, SayBusy(Posted(n.next, head.serial, Declined(true))));
    TakerTold(n.apps[b], a, fromName, head.message, now);
    ArriveView(n, room, (a, b), fromName, now, a, b);
    ViewIs(n, a, b);
    hide Ordered, View, Arrive, Step, Outs, GivingSide, ReceivingSide, EndsTheWait, UnderWay, BegunAt;
  }

  lemma TakerIgnores(n: Net, room: seq<Uuid>, a: Uuid, b: Uuid, fromName: string, now: int) returns (move: Move)
    requires Ordered(n) && a in n.apps && b in n.apps && a != b && UnderWay(n, (a, b)) != []
    requires var m := UnderWay(n, (a, b))[0].message; var outs := Outs(n.apps[b], DoReceive(a, fromName, m, now));
      && !(m.Request? && n.apps[b].receiving.None?) && !(outs != [] && outs[0].Send?) && IsAsk(m)
    ensures Moves(View(n, a, b), move, View(Arrive(n, room, (a, b), fromName, now), a, b))
    ensures move.HearAsk?
  {
    var head := UnderWay(n, (a, b))[0];
    move := HearAsk(head, Ignore);
    TakerTold(n.apps[b], a, fromName, head.message, now);
    ArriveView(n, room, (a, b), fromName, now, a, b);
    ViewIs(n, a, b);
    hide Ordered, View, Arrive, Step, Outs, GivingSide, ReceivingSide, EndsTheWait, UnderWay, BegunAt, EndsReceiving;
  }

  lemma TakerHears(n: Net, room: seq<Uuid>, a: Uuid, b: Uuid, fromName: string, now: int) returns (move: Move)
    requires Ordered(n) && a in n.apps && b in n.apps && a != b && UnderWay(n, (a, b)) != []
    ensures Moves(View(n, a, b), move, View(Arrive(n, room, (a, b), fromName, now), a, b))
    ensures IsKept(move) && IsFresh(View(n, a, b), move)
  {
    var m := UnderWay(n, (a, b))[0].message;
    var outs := Outs(n.apps[b], DoReceive(a, fromName, m, now));
    hide Ordered, Arrive, Step, Outs, UnderWay, Moves;
    if m.Request? && n.apps[b].receiving.None? {
      move := TakerHearsRequest(n, room, a, b, fromName, now);
    } else if outs != [] && outs[0].Send? {
      move := TakerIsBusy(n, room, a, b, fromName, now);
    } else if IsAsk(m) {
      move := TakerIgnores(n, room, a, b, fromName, now);
    } else {
      move := TakerHearsElse(n, room, a, b, fromName, now);
    }
  }

  lemma TakerHearsElse(n: Net, room: seq<Uuid>, a: Uuid, b: Uuid, fromName: string, now: int) returns (move: Move)
    requires Ordered(n) && a in n.apps && b in n.apps && a != b && UnderWay(n, (a, b)) != []
    requires !IsAsk(UnderWay(n, (a, b))[0].message)
    ensures Moves(View(n, a, b), move, View(Arrive(n, room, (a, b), fromName, now), a, b))
    ensures move == Elsewhere(n.past.accepted)
  {
    var head := UnderWay(n, (a, b))[0];
    move := Elsewhere(n.past.accepted);
    TakerTold(n.apps[b], a, fromName, head.message, now);
    ArriveView(n, room, (a, b), fromName, now, a, b);
    ViewIs(n, a, b);
    hide Ordered, View, Arrive, Step, Outs, GivingSide, ReceivingSide, EndsTheWait, UnderWay, BegunAt;
  }

  /** A message from a third one changes nothing between `a` and `b`. */
  lemma ToldByOthers(s: State, lane: Lane, fromName: string, m: Message, now: int, a: Uuid, b: Uuid)
    requires a != b && lane != (a, b) && lane != (b, a)
    ensures var call := DoReceive(lane.0, fromName, m, now); var t := Step(s, call).0; var outs := Outs(s, call);
      && (lane.1 == a ==> GivingSide(t, b) == GivingSide(s, b))
      && (lane.1 == b ==> ReceivingSide(t, a) == ReceivingSide(s, a) &&
                          (s.receiving.None? && m.Request? ==> ReceivingSide(t, a).Off?))
      && (outs != [] && outs[0].Send? ==> (lane.1, outs[0].to) != (a, b) && (lane.1, outs[0].to) != (b, a))
  {
  }

  lemma OthersHear(n: Net, room: seq<Uuid>, a: Uuid, b: Uuid, lane: Lane, fromName: string, now: int)
    requires Ordered(n) && a in n.apps && b in n.apps && a != b && lane.1 in n.apps && UnderWay(n, lane) != []
    requires lane != (a, b) && lane != (b, a)
    ensures Moves(View(n, a, b), Elsewhere(n.past.accepted), View(Arrive(n, room, lane, fromName, now), a, b))
  {
    ToldByOthers(n.apps[lane.1], lane, fromName, UnderWay(n, lane)[0].message, now, a, b);
    ArriveView(n, room, lane, fromName, now, a, b);
    ViewIs(n, a, b);
    hide Ordered, View, Arrive, Step, Outs, GivingSide, ReceivingSide, EndsTheWait, UnderWay, BegunAt;
  }

  lemma Without(q: seq<Posted>, index: nat, next: nat)
    requires InOrder(q, next) && index < |q|
    ensures forall o :: o in q[..index] + q[index + 1..] <==> o in q && o != q[index]
  {
    var rest := q[..index] + q[index + 1..];
    forall o | o in q && o != q[index] ensures o in rest {
      var k :| 0 <= k < |q| && q[k] == o;
      assert k < index ==> rest[k] == o;
      assert k > index ==> rest[k - 1] == o;
    }
  }

  lemma LoseView(n: Net, a: Uuid, b: Uuid, lane: Lane, index: nat)
    requires Ordered(n) && index < |UnderWay(n, lane)|
    ensures var q := UnderWay(n, lane); var m := n.(lanes := n.lanes[lane := q[..index] + q[index + 1..]]);
      var w := View(m, a, b);
      && w.asks == (if lane == (a, b) then View(n, a, b).asks - {q[index]} else View(n, a, b).asks)
      && w.answers == (if lane == (b, a) then View(n, a, b).answers - {q[index]} else View(n, a, b).answers)
      && w == View(n, a, b).(asks := w.asks, answers := w.answers)
  {
    Without(UnderWay(n, lane), index, n.next);
    hide Ordered, GivingSide, ReceivingSide, BegunAt, LastAsked, LetGoAt, CutOffAt, DroppedOn;
  }

  lemma OneLost(n: Net, a: Uuid, b: Uuid, lane: Lane, index: nat) returns (move: Move)
    requires Ordered(n) && a != b && index < |UnderWay(n, lane)|
    ensures var q := UnderWay(n, lane);
      Moves(View(n, a, b), move, View(n.(lanes := n.lanes[lane := q[..index] + q[index + 1..]]), a, b))
    ensures lane != (a, b) && lane != (b, a) ==> IsKept(move)
    ensures IsFresh(View(n, a, b), move)
  {
    LoseView(n, a, b, lane, index);
    move := if lane == (a, b) then LoseAsk(UnderWay(n, lane)[index])
            else if lane == (b, a) then LoseReply(UnderWay(n, lane)[index])
            else Elsewhere(n.past.accepted);
    hide View;
  }

  lemma CloseMoves(n: Net, a: Uuid, b: Uuid, app: Uuid) returns (move: Move)
    requires a in n.apps && b in n.apps && app in n.apps && a != b
    ensures Moves(View(n, a, b), move, View(Close(n, app), a, b))
    ensures app != a && app != b ==> IsKept(move)
    ensures IsFresh(View(n, a, b), move)
  {
    assert AsksOn(Close(n, app), (a, b)) == AsksOn(n, (a, b));
    assert RepliesOn(Close(n, app), (b, a)) == RepliesOn(n, (b, a));
    hide AsksOn, RepliesOn;
    if app == a && !GivingSide(n.apps[a], b).Off? {
      move := Withdraw(None);
    } else if app == b && !ReceivingSide(n.apps[b], a).Off? {
      move := Leave(None);
    } else {
      move := Elsewhere(n.past.accepted);
    }
  }

  lemma IntrudeMoves(n: Net, a: Uuid, b: Uuid, lane: Lane, message: Message)
    requires a in n.apps && b in n.apps && lane.0 !in n.apps
    ensures Moves(View(n, a, b), Elsewhere(n.past.accepted), View(Post(n, lane, 0, message), a, b))
  {
    PostAdds(n, lane, 0, message, (a, b));
    PostAdds(n, lane, 0, message, (b, a));
    hide AsksOn, RepliesOn, GivingSide, ReceivingSide;
  }

  /** Nothing between `a` and `b` is lost by the action, and neither leaves. */
  predicate IsSteady(action: Action, a: Uuid, b: Uuid) {
    match action
    case Local(app, call) => (app == a ==> !Leaves(call, b)) && (app == b ==> !Leaves(call, a))
    case Lose(lane, _) => lane != (a, b) && lane != (b, a)
    case Restart(app) => app != a && app != b
    case _ => true
  }

  predicate TakesFresh(n: Net, action: Action)
    requires Enabled(n, action)
  {
    action.Local? ==> AcceptsFresh(n, action.app, action.call)
  }

  /** Every action of the room is one move between `a` and `b`. */
  lemma EveryActionMoves(n: Net, room: seq<Uuid>, action: Action, a: Uuid, b: Uuid) returns (move: Move)
    requires Ordered(n) && Enabled(n, action) && a in n.apps && b in n.apps && a != b
    ensures Moves(View(n, a, b), move, View(Next(n, room, action), a, b))
    ensures IsSteady(action, a, b) ==> IsKept(move)
    ensures TakesFresh(n, action) ==> IsFresh(View(n, a, b), move)
  {
    hide Moves, View, Act, Arrive, Close, Post, Ordered, UnderWay, AcceptsFresh, Leaves;
    match action {
      case Local(app, call) => move := AnyActs(n, room, a, b, app, call);
      case Deliver(lane, fromName, now) =>
        if lane == (a, b) {
          move := TakerHears(n, room, a, b, fromName, now);
        } else if lane == (b, a) {
          move := GiverHears(n, room, a, b, fromName, now);
        } else {
          OthersHear(n, room, a, b, lane, fromName, now);
          move := Elsewhere(n.past.accepted);
          ViewIs(n, a, b);
        }
      case Lose(lane, index) =>
        move := OneLost(n, a, b, lane, index);
        ViewIs(n, a, b);
      case Intrude(lane, message) =>
        IntrudeMoves(n, a, b, lane, message);
        move := Elsewhere(n.past.accepted);
        ViewIs(n, a, b);
      case Restart(app) => move := CloseMoves(n, a, b, app);
    }
  }
}
