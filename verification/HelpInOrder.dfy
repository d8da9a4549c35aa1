/** The room again, each pair's messages now arriving in the order they were sent, though some may be
    lost. Every message carries the number of its sending, which no app sees. */
module HelpInOrder {
  import opened Wrappers
  import opened HelpProtocol
  import opened HelpRuns

  /** An answer to a request carries in `re` the number of that request; elsewhere `re` says nothing. */
  datatype Posted = Posted(serial: nat, re: nat, message: Message)

  /** Who sends and who receives. */
  type Lane = (Uuid, Uuid)

  /** What no app keeps, and the lemmas speak of. A lane here is that of the requests, from the app that
      asks to the one it asks; times are numbers of messages. */
  datatype Past = Past(
    /** The number of the last request on the lane. */
    asked: map<Lane, nat>,
    /** When the asking app last let go of an unanswered request: it stopped, left or was closed. */
    letGo: map<Lane, nat>,
    /** When an answer to an earlier request last ended the wait for an answer. */
    cutOff: map<Lane, nat>,
    /** The number of the request that was accepted under a session. */
    accepted: map<string, nat>,
    /** The sessions of the yeses that came in and changed nothing. */
    dropped: map<Lane, set<string>>)

  /** `begun[b]` numbers the request that began what `b` receives, from its arrival on. */
  datatype Net = Net(apps: map<Uuid, State>, lanes: map<Lane, seq<Posted>>, next: nat, begun: map<Uuid, nat>,
                     past: Past)

  datatype Action =
    | Local(app: Uuid, call: Call)
    | Deliver(lane: Lane, fromName: string, now: int)
    | Lose(lane: Lane, index: nat)
    /** A participant that does not run this code sends something. */
    | Intrude(lane: Lane, message: Message)
    /** An app is closed and opened again. */
    | Restart(app: Uuid)

  function UnderWay(n: Net, lane: Lane): seq<Posted> {
    if lane in n.lanes then n.lanes[lane] else []
  }

  function BegunAt(n: Net, app: Uuid): nat {
    if app in n.begun then n.begun[app] else 0
  }

  function LastAsked(n: Net, lane: Lane): nat {
    if lane in n.past.asked then n.past.asked[lane] else 0
  }

  function LetGoAt(n: Net, lane: Lane): nat {
    if lane in n.past.letGo then n.past.letGo[lane] else 0
  }

  function CutOffAt(n: Net, lane: Lane): nat {
    if lane in n.past.cutOff then n.past.cutOff[lane] else 0
  }

  function DroppedOn(n: Net, lane: Lane): set<string> {
    if lane in n.past.dropped then n.past.dropped[lane] else {}
  }

  function Post(n: Net, lane: Lane, re: nat, message: Message): Net {
    n.(lanes := n.lanes[lane := UnderWay(n, lane) + [Posted(n.next, re, message)]], next := n.next + 1)
  }

  function PostToAll(n: Net, from: Uuid, room: seq<Uuid>, re: nat, message: Message): Net
    decreases room
  {
    if room == [] then n else PostToAll(Post(n, (from, room[0]), re, message), from, room[1..], re, message)
  }

  function PostOuts(n: Net, from: Uuid, room: seq<Uuid>, re: nat, outs: seq<Out>): Net
    decreases outs
  {
    if outs == [] then n
    else
      PostOuts(match outs[0]
               case Send(to, message) => Post(n, (from, to), re, message)
               case Broadcast(message) => PostToAll(n, from, room, re, message)
               case _ => n,
               from, room, re, outs[1..])
  }

  /** `app` waits for an answer in `s`, and no longer in `t`. */
  predicate EndsTheWait(s: State, t: State) {
    s.giving.Some? && s.giving.value.Asking? && t.giving != s.giving
  }

  /** What the user of `app`, or its connection, does leaves in the past. */
  function AfterLocal(n: Net, app: Uuid, call: Call): Past
    requires app in n.apps
  {
    var (s, t) := (n.apps[app], Step(n.apps[app], call).0);
    n.past.(asked := if call.DoRequest? && Step(s, call).1.Ok? then n.past.asked[(app, call.peer) := n.next]
                     else n.past.asked,
            letGo := if EndsTheWait(s, t) then n.past.letGo[(app, s.giving.value.peer) := n.next]
                     else n.past.letGo,
            accepted := if call.DoAccept? && Step(s, call).1.Ok? then n.past.accepted[call.session := BegunAt(n, app)]
                        else n.past.accepted)
  }

  /** What the arrival of `p` leaves in the past, when it takes the app at the end of the lane to `t`. */
  function AfterArrival(n: Net, lane: Lane, p: Posted, t: State): Past
    requires lane.1 in n.apps
  {
    var (s, back) := (n.apps[lane.1], (lane.1, lane.0));
    n.past.(cutOff := if EndsTheWait(s, t) && p.re < LastAsked(n, back) then n.past.cutOff[back := n.next]
                      else n.past.cutOff,
            dropped := if p.message.Accepted? && t.giving == s.giving
                       then n.past.dropped[back := DroppedOn(n, back) + {p.message.session}]
                       else n.past.dropped)
  }

  function Apply(n: Net, room: seq<Uuid>, app: Uuid, call: Call, re: nat): Net
    requires app in n.apps
  {
    PostOuts(n.(apps := n.apps[app := Step(n.apps[app], call).0]), app, room, re, Outs(n.apps[app], call))
  }

  /** An app that acts of its own can only be answering the request that began what it receives. */
  function Act(n: Net, room: seq<Uuid>, app: Uuid, call: Call): Net
    requires app in n.apps
  {
    Apply(n.(past := AfterLocal(n, app, call)), room, app, call, BegunAt(n, app))
  }

  predicate Enabled(n: Net, a: Action) {
    match a
    case Local(app, call) => app in n.apps && !call.DoReceive?
    case Deliver(lane, _, _) => lane.1 in n.apps && UnderWay(n, lane) != []
    case Lose(lane, index) => index < |UnderWay(n, lane)|
    case Intrude(lane, _) => lane.0 !in n.apps
    case Restart(app) => app in n.apps
  }

  /** The message at the head of a lane arrives; whatever it makes the app send answers it. */
  function Arrive(n: Net, room: seq<Uuid>, lane: Lane, fromName: string, now: int): Net
    requires lane.1 in n.apps && UnderWay(n, lane) != []
  {
    var head := UnderWay(n, lane)[0];
    var call := DoReceive(lane.0, fromName, head.message, now);
    var begins := n.apps[lane.1].receiving.None? && head.message.Request?;
    Apply(n.(lanes := n.lanes[lane := UnderWay(n, lane)[1..]],
             begun := if begins then n.begun[lane.1 := head.serial] else n.begun,
             past := AfterArrival(n, lane, head, Step(n.apps[lane.1], call).0)),
          room, lane.1, call, head.serial)
  }

  function Close(n: Net, app: Uuid): Net
    requires app in n.apps
  {
    var s := n.apps[app];
    n.(apps := n.apps[app := FRESH],
       past := n.past.(letGo := if EndsTheWait(s, FRESH) then n.past.letGo[(app, s.giving.value.peer) := n.next]
                                else n.past.letGo))
  }

  /** `room` lists the participants a broadcast reaches, in the order the server sends to them. */
  function Next(n: Net, room: seq<Uuid>, a: Action): Net
    requires Enabled(n, a)
  {
    match a
    case Local(app, call) => Act(n, room, app, call)
    case Deliver(lane, fromName, now) => Arrive(n, room, lane, fromName, now)
    case Lose(lane, index) =>
      n.(lanes := n.lanes[lane := UnderWay(n, lane)[..index] + UnderWay(n, lane)[index + 1..]])
    case Intrude(lane, message) => Post(n, lane, 0, message)
    case Restart(app) => Close(n, app)
  }

  ghost predicate IsRun(nets: seq<Net>, rooms: seq<seq<Uuid>>, actions: seq<Action>) {
    && |nets| == |actions| + 1 && |rooms| == |actions|
    && nets[0].lanes == map[] && nets[0].past == Past(map[], map[], map[], map[], map[])
    && (forall app :: app in nets[0].apps ==> nets[0].apps[app] == FRESH)
    && (forall i :: 0 <= i < |actions| ==>
          Enabled(nets[i], actions[i]) && nets[i + 1] == Next(nets[i], rooms[i], actions[i]))
  }

  // ----- the invariant -----

  ghost predicate InOrder(q: seq<Posted>, next: nat) {
    && (forall i, j :: 0 <= i < j < |q| ==> q[i].serial < q[j].serial)
    && (forall i :: 0 <= i < |q| ==> q[i].serial < next)
  }

  /** What is still on the lane to `app` was sent after the request that began what it receives. */
  ghost predicate SentSince(n: Net, app: Uuid) {
    app in n.apps && n.apps[app].receiving.Some? ==>
      && app in n.begun && n.begun[app] < n.next
      && forall p :: p in UnderWay(n, (n.apps[app].receiving.value.peer, app)) ==> n.begun[app] < p.serial
  }

  ghost predicate Ordered(n: Net) {
    && (forall lane: Lane :: InOrder(UnderWay(n, lane), n.next))
    && (forall app: Uuid :: SentSince(n, app))
  }

  lemma PostKeeps(n: Net, lane: Lane, re: nat, message: Message)
    requires Ordered(n)
    ensures Ordered(Post(n, lane, re, message))
  {
    var m := Post(n, lane, re, message);
    forall l: Lane ensures InOrder(UnderWay(m, l), m.next) {
      assert InOrder(UnderWay(n, l), n.next);
    }
    forall app: Uuid ensures SentSince(m, app) {
      assert SentSince(n, app);
    }
  }

  lemma {:induction false} PostToAllKeeps(n: Net, from: Uuid, room: seq<Uuid>, re: nat, message: Message)
    requires Ordered(n)
    ensures Ordered(PostToAll(n, from, room, re, message))
    decreases room
  {
    if room != [] {
      PostKeeps(n, (from, room[0]), re, message);
      PostToAllKeeps(Post(n, (from, room[0]), re, message), from, room[1..], re, message);
    }
  }

  lemma {:induction false} PostOutsKeeps(n: Net, from: Uuid, room: seq<Uuid>, re: nat, outs: seq<Out>)
    requires Ordered(n)
    ensures Ordered(PostOuts(n, from, room, re, outs))
    decreases outs
  {
    if outs != [] {
      match outs[0] {
        case Send(to, message) =>
          PostKeeps(n, (from, to), re, message);
          PostOutsKeeps(Post(n, (from, to), re, message), from, room, re, outs[1..]);
        case Broadcast(message) =>
          PostToAllKeeps(n, from, room, re, message);
          PostOutsKeeps(PostToAll(n, from, room, re, message), from, room, re, outs[1..]);
        case _ =>
          PostOutsKeeps(n, from, room, re, outs[1..]);
      }
    }
  }

  /** Only a request from no one begins something to receive; else its peer stays, or it ends. */
  lemma ReceivingChanges(s: State, c: Call)
    ensures var t := Step(s, c).0;
      t.receiving.Some? ==>
        if s.receiving.Some? then t.receiving.value.peer == s.receiving.value.peer
        else c.DoReceive? && c.message.Request? && t.receiving.value.peer == c.from
  {
  }

  lemma LocalKeeps(n: Net, room: seq<Uuid>, app: Uuid, call: Call)
    requires Ordered(n) && app in n.apps && !call.DoReceive?
    ensures Ordered(Act(n, room, app, call))
  {
    var m := n.(apps := n.apps[app := Step(n.apps[app], call).0], past := AfterLocal(n, app, call));
    ReceivingChanges(n.apps[app], call);
    hide Step, Outs, AfterLocal;
    forall l: Lane ensures InOrder(UnderWay(m, l), m.next) {
      assert InOrder(UnderWay(n, l), n.next);
    }
    forall other: Uuid ensures SentSince(m, other) {
      assert SentSince(n, other);
    }
    PostOutsKeeps(m, app, room, BegunAt(n, app), Outs(n.apps[app], call));
  }

  lemma ArriveKeeps(n: Net, room: seq<Uuid>, lane: Lane, fromName: string, now: int)
    requires Ordered(n) && lane.1 in n.apps && UnderWay(n, lane) != []
    ensures Ordered(Arrive(n, room, lane, fromName, now))
  {
    var head := UnderWay(n, lane)[0];
    var app := lane.1;
    var call := DoReceive(lane.0, fromName, head.message, now);
    var begins := n.apps[app].receiving.None? && head.message.Request?;
    var m := n.(apps := n.apps[app := Step(n.apps[app], call).0],
                lanes := n.lanes[lane := UnderWay(n, lane)[1..]],
                begun := if begins then n.begun[app := head.serial] else n.begun,
                past := AfterArrival(n, lane, head, Step(n.apps[app], call).0));
    ReceivingChanges(n.apps[app], call);
    hide Step, Outs, AfterArrival;
    forall l: Lane ensures InOrder(UnderWay(m, l), m.next) {
      assert InOrder(UnderWay(n, l), n.next);
    }
    forall other: Uuid ensures SentSince(m, other) {
      assert SentSince(n, other);
      assert InOrder(UnderWay(n, lane), n.next);
      assert forall p :: p in UnderWay(m, lane) ==> p in UnderWay(n, lane);
    }
    PostOutsKeeps(m, app, room, head.serial, Outs(n.apps[app], call));
  }

  lemma LoseKeeps(n: Net, lane: Lane, index: nat)
    requires Ordered(n) && index < |UnderWay(n, lane)|
    ensures Ordered(n.(lanes := n.lanes[lane := UnderWay(n, lane)[..index] + UnderWay(n, lane)[index + 1..]]))
  {
    var q := UnderWay(n, lane)[..index] + UnderWay(n, lane)[index + 1..];
    var m := n.(lanes := n.lanes[lane := q]);
    forall l: Lane ensures InOrder(UnderWay(m, l), m.next) {
      assert InOrder(UnderWay(n, l), n.next);
    }
    forall other: Uuid ensures SentSince(m, other) {
      assert SentSince(n, other);
      assert forall p :: p in q ==> p in UnderWay(n, lane);
    }
  }

  lemma CloseKeeps(n: Net, app: Uuid)
    requires Ordered(n) && app in n.apps
    ensures Ordered(Close(n, app))
  {
    var m := Close(n, app);
    forall l: Lane ensures InOrder(UnderWay(m, l), m.next) {
      assert InOrder(UnderWay(n, l), n.next);
    }
    forall other: Uuid ensures SentSince(m, other) {
      assert SentSince(n, other);
    }
  }

  lemma {:induction false} RunsAreOrdered(nets: seq<Net>, rooms: seq<seq<Uuid>>, actions: seq<Action>, i: nat)
    requires IsRun(nets, rooms, actions) && i <= |actions|
    ensures Ordered(nets[i])
  {
    if i == 0 {
      assert forall lane: Lane :: UnderWay(nets[0], lane) == [];
    } else {
      RunsAreOrdered(nets, rooms, actions, i - 1);
      assert nets[i] == Next(nets[i - 1], rooms[i - 1], actions[i - 1]);
      match actions[i - 1] {
        case Local(app, call) => LocalKeeps(nets[i - 1], rooms[i - 1], app, call);
        case Deliver(lane, fromName, now) => ArriveKeeps(nets[i - 1], rooms[i - 1], lane, fromName, now);
        case Lose(lane, index) => LoseKeeps(nets[i - 1], lane, index);
        case Intrude(lane, message) => PostKeeps(nets[i - 1], lane, 0, message);
        case Restart(app) => CloseKeeps(nets[i - 1], app);
      }
    }
  }

  /** A helper's stop that ends what an app receives was sent after the request that began it, whether
      it names the help or not: a stop never ends what was asked for later. */
  lemma StopEndsNothingLater(nets: seq<Net>, rooms: seq<seq<Uuid>>, actions: seq<Action>, i: nat)
    requires IsRun(nets, rooms, actions) && i < |actions| && actions[i].Deliver?
    requires var lane := actions[i].lane; var stop := UnderWay(nets[i], lane)[0];
      var s := nets[i].apps[lane.1];
      && stop.message.Stop? && stop.message.role.Helper?
      && Receive(s, lane.0, actions[i].fromName, stop.message, actions[i].now).0.receiving != s.receiving
    ensures var lane := actions[i].lane;
      && lane.1 in nets[i].begun
      && nets[i].begun[lane.1] < UnderWay(nets[i], lane)[0].serial
      && nets[i].apps[lane.1].receiving.value.peer == lane.0
  {
    RunsAreOrdered(nets, rooms, actions, i);
    assert SentSince(nets[i], actions[i].lane.1);
  }
}
