/** A room of apps that help each other: any number of them, their messages arriving in any order,
    any number of times, or never. Beside the apps that run this code there may be others that send
    what they like; the server stamps who a message is from, so none can speak as another. */
module HelpRoom {
  import opened Wrappers
  import opened HelpProtocol
  import opened HelpRuns

  datatype Packet = Packet(from: Uuid, to: Uuid, message: Message)

  /** The participants that run this code, and every message sent so far: each may still arrive. */
  datatype Room = Room(apps: map<Uuid, State>, sent: set<Packet>)

  datatype Action =
    /** The user of `app` acts, or the app sees a peer leave or its relay connection end. */
    | Local(app: Uuid, call: Call)
    /** A message sent earlier arrives, not necessarily for the first time. */
    | Deliver(packet: Packet, fromName: string, now: int)
    /** A participant that does not run this code sends something. */
    | Intrude(packet: Packet)
    /** An app is closed and opened again. */
    | Restart(app: Uuid)

  function Sendings(from: Uuid, room: set<Uuid>, outs: seq<Out>): set<Packet> {
    if outs == [] then {}
    else Sendings(from, room, outs[1..]) +
         match outs[0]
         case Send(to, message) => {Packet(from, to, message)}
         case Broadcast(message) => set to | to in room :: Packet(from, to, message)
         case _ => {}
  }

  function Apply(r: Room, app: Uuid, call: Call): Room
    requires app in r.apps
  {
    Room(r.apps[app := Step(r.apps[app], call).0],
         r.sent + Sendings(app, r.apps.Keys, Outs(r.apps[app], call)))
  }

  /** `app` accepts `peer`'s request under `session`. */
  predicate AcceptsIn(r: Room, a: Action, app: Uuid, peer: Uuid, session: string) {
    a == Local(app, DoAccept(peer, session)) && app in r.apps && Step(r.apps[app], a.call).1.Ok?
  }

  /** `app` asks to help `peer`. */
  predicate AsksIn(r: Room, a: Action, app: Uuid, peer: Uuid) {
    a == Local(app, DoRequest(peer)) && app in r.apps && Step(r.apps[app], a.call).1.Ok?
  }

  predicate Enabled(r: Room, a: Action) {
    match a
    case Local(app, call) => app in r.apps && !call.DoReceive?
    case Deliver(packet, _, _) => packet in r.sent && packet.to in r.apps
    case Intrude(packet) => packet.from !in r.apps
    case Restart(app) => app in r.apps
  }

  function Next(r: Room, a: Action): Room
    requires Enabled(r, a)
  {
    match a
    case Local(app, call) => Apply(r, app, call)
    case Deliver(p, fromName, now) => Apply(r, p.to, DoReceive(p.from, fromName, p.message, now))
    case Intrude(packet) => r.(sent := r.sent + {packet})
    case Restart(app) => r.(apps := r.apps[app := FRESH])
  }

  /** `rooms` is what the room goes through as `actions` happen: at first no app helps and nothing has
      been sent. */
  ghost predicate IsRun(rooms: seq<Room>, actions: seq<Action>) {
    && |rooms| == |actions| + 1
    && rooms[0].sent == {}
    && (forall app :: app in rooms[0].apps ==> rooms[0].apps[app] == FRESH)
    && (forall i :: 0 <= i < |actions| ==> Enabled(rooms[i], actions[i]) && rooms[i + 1] == Next(rooms[i], actions[i]))
  }

  /** Session numbers are fresh: no two accepted requests of a run carry the same one. */
  ghost predicate FreshSessions(rooms: seq<Room>, actions: seq<Action>)
    requires |rooms| == |actions| + 1
  {
    forall i, j, app, peer, app', peer', session ::
      0 <= i < j < |actions| && AcceptsIn(rooms[i], actions[i], app, peer, session) ==>
        !AcceptsIn(rooms[j], actions[j], app', peer', session)
  }

  /** Before action `n`, `helper` had asked `helped`. */
  ghost predicate HadAsked(rooms: seq<Room>, actions: seq<Action>, n: nat, helper: Uuid, helped: Uuid)
    requires n <= |actions| < |rooms|
  {
    exists i :: 0 <= i < n && AsksIn(rooms[i], actions[i], helper, helped)
  }

  /** Before action `n`, `helped` had accepted `helper` under `session`; and if the helper runs this
      code, it had asked before that. */
  ghost predicate HadAccepted(rooms: seq<Room>, actions: seq<Action>, n: nat,
                              helped: Uuid, helper: Uuid, session: string)
    requires n <= |actions| < |rooms|
  {
    exists j :: 0 <= j < n && AcceptsIn(rooms[j], actions[j], helped, helper, session) &&
                (helper in rooms[0].apps ==> HadAsked(rooms, actions, j, helper, helped))
  }

  // ----- the invariant -----

  ghost predicate PacketBacked(rooms: seq<Room>, actions: seq<Action>, n: nat, p: Packet)
    requires n <= |actions| < |rooms|
  {
    p.from in rooms[0].apps ==>
      && (p.message.Request? ==> HadAsked(rooms, actions, n, p.from, p.to))
      && (p.message.Accepted? ==> HadAccepted(rooms, actions, n, p.from, p.to, p.message.session))
  }

  ghost predicate AppBacked(rooms: seq<Room>, actions: seq<Action>, n: nat, app: Uuid, s: State)
    requires n <= |actions| < |rooms|
  {
    && (s.giving.Some? ==> HadAsked(rooms, actions, n, app, s.giving.value.peer))
    && (s.giving.Some? && s.giving.value.Helping? && s.giving.value.peer in rooms[0].apps ==>
          HadAccepted(rooms, actions, n, s.giving.value.peer, app, s.giving.value.session))
    && (s.receiving.Some? && s.receiving.value.peer in rooms[0].apps ==>
          HadAsked(rooms, actions, n, s.receiving.value.peer, app))
    && (s.receiving.Some? && s.receiving.value.HelpedBy? ==>
          HadAccepted(rooms, actions, n, app, s.receiving.value.peer, s.receiving.value.session))
  }

  ghost predicate Backed(rooms: seq<Room>, actions: seq<Action>, n: nat)
    requires n <= |actions| < |rooms|
  {
    && rooms[n].apps.Keys == rooms[0].apps.Keys
    && (forall p :: p in rooms[n].sent ==> PacketBacked(rooms, actions, n, p))
    && (forall app :: app in rooms[n].apps ==> AppBacked(rooms, actions, n, app, rooms[n].apps[app]))
  }

  lemma HistoryGrows(rooms: seq<Room>, actions: seq<Action>, n: nat)
    requires n < |actions| < |rooms|
    ensures forall a, b :: HadAsked(rooms, actions, n, a, b) ==> HadAsked(rooms, actions, n + 1, a, b)
    ensures forall b, a, s :: HadAccepted(rooms, actions, n, b, a, s) ==> HadAccepted(rooms, actions, n + 1, b, a, s)
  {
    forall a, b | HadAsked(rooms, actions, n, a, b) ensures HadAsked(rooms, actions, n + 1, a, b) {
      var i :| 0 <= i < n && AsksIn(rooms[i], actions[i], a, b);
    }
    forall b, a, s | HadAccepted(rooms, actions, n, b, a, s) ensures HadAccepted(rooms, actions, n + 1, b, a, s) {
      var j :| 0 <= j < n && AcceptsIn(rooms[j], actions[j], b, a, s) &&
               (a in rooms[0].apps ==> HadAsked(rooms, actions, j, a, b));
    }
  }

  lemma SendingsAre(from: Uuid, room: set<Uuid>, outs: seq<Out>, p: Packet)
    requires p in Sendings(from, room, outs)
    ensures p.from == from && (Send(p.to, p.message) in outs || Broadcast(p.message) in outs)
  {
    if p in Sendings(from, room, outs[1..]) {
      SendingsAre(from, room, outs[1..], p);
    }
  }

  /** What one call of one app can send. */
  lemma CallSends(s: State, c: Call, out: Out)
    requires out in Outs(s, c)
    ensures out.Send? && out.message.Request? ==> c == DoRequest(out.to) && Step(s, c).1.Ok?
    ensures out.Send? && out.message.Accepted? ==>
      c == DoAccept(out.to, out.message.session) && Step(s, c).1.Ok? && IsAskedBy(s, out.to)
    ensures out.Broadcast? ==> out.message.Notice?
  {
  }

  /** What one call of one app can turn its help into. */
  lemma CallBegins(s: State, c: Call)
    ensures var t := Step(s, c).0;
      && (t.giving.Some? && t.giving != s.giving ==>
            if t.giving.value.Asking? then c == DoRequest(t.giving.value.peer) && Step(s, c).1.Ok?
            else c.DoReceive? && c.from == t.giving.value.peer && c.message == Accepted(t.giving.value.session) &&
                 s.giving == Some(Asking(c.from)))
      && (t.receiving.Some? && t.receiving != s.receiving ==>
            if t.receiving.value.Asked? then
              c.DoReceive? && c.from == t.receiving.value.peer && c.message == Message.Request
            else c == DoAccept(t.receiving.value.peer, t.receiving.value.session) && Step(s, c).1.Ok? &&
                 IsAskedBy(s, c.peer))
  {
  }

  lemma ApplyKeeps(rooms: seq<Room>, actions: seq<Action>, n: nat, app: Uuid, call: Call)
    requires IsRun(rooms, actions) && n < |actions| && Backed(rooms, actions, n)
    requires app in rooms[n].apps && rooms[n + 1] == Apply(rooms[n], app, call)
    requires !call.DoReceive? ==> actions[n] == Local(app, call)
    requires call.DoReceive? ==> Packet(call.from, app, call.message) in rooms[n].sent
    ensures Backed(rooms, actions, n + 1)
  {
    var m := n + 1;
    HistoryGrows(rooms, actions, n);
    var s := rooms[n].apps[app];
    var t := Step(s, call).0;
    assert AppBacked(rooms, actions, n, app, s);
    assert AppBacked(rooms, actions, m, app, t) by {
      CallBegins(s, call);
      if call.DoReceive? {
        assert PacketBacked(rooms, actions, n, Packet(call.from, app, call.message));
      }
    }
    forall p | p in rooms[m].sent ensures PacketBacked(rooms, actions, m, p) {
      if p in rooms[n].sent {
        assert PacketBacked(rooms, actions, n, p);
      } else {
        SendingsAre(app, rooms[n].apps.Keys, Outs(s, call), p);
        if Send(p.to, p.message) in Outs(s, call) {
          CallSends(s, call, Send(p.to, p.message));
        } else {
          CallSends(s, call, Broadcast(p.message));
        }
      }
    }
    forall other | other in rooms[m].apps
      ensures AppBacked(rooms, actions, m, other, rooms[m].apps[other])
    {
      if other != app {
        assert AppBacked(rooms, actions, n, other, rooms[n].apps[other]);
      }
    }
  }

  lemma {:induction false} RunsAreBacked(rooms: seq<Room>, actions: seq<Action>, n: nat)
    requires IsRun(rooms, actions) && n <= |actions|
    ensures Backed(rooms, actions, n)
  {
    if n > 0 {
      RunsAreBacked(rooms, actions, n - 1);
      HistoryGrows(rooms, actions, n - 1);
      var r := rooms[n - 1];
      assert rooms[n] == Next(r, actions[n - 1]);
      match actions[n - 1] {
        case Local(app, call) => ApplyKeeps(rooms, actions, n - 1, app, call);
        case Deliver(p, fromName, now) =>
          ApplyKeeps(rooms, actions, n - 1, p.to, DoReceive(p.from, fromName, p.message, now));
        case Intrude(packet) =>
        case Restart(app) =>
      }
    }
  }

  // ----- what follows -----

  ghost predicate HelpsUnder(r: Room, helper: Uuid, helped: Uuid, session: string) {
    helper in r.apps && r.apps[helper].giving == Some(Helping(helped, session))
  }

  ghost predicate IsHelpedUnder(r: Room, helped: Uuid, helper: Uuid, session: string) {
    helped in r.apps && r.apps[helped].receiving.Some? && r.apps[helped].receiving.value.HelpedBy? &&
    r.apps[helped].receiving.value.peer == helper && r.apps[helped].receiving.value.session == session
  }

  /** No one helps who did not ask and was not accepted: a helper had asked the one it helps, and that
      one had then accepted this helper under this very session. */
  lemma HelpWasAskedForAndAccepted(rooms: seq<Room>, actions: seq<Action>, n: nat,
                                   helper: Uuid, helped: Uuid, session: string)
    requires IsRun(rooms, actions) && n <= |actions|
    requires HelpsUnder(rooms[n], helper, helped, session)
    ensures HadAsked(rooms, actions, n, helper, helped)
    ensures helped in rooms[0].apps ==>
      exists j :: 0 <= j < n && AcceptsIn(rooms[j], actions[j], helped, helper, session) &&
                  HadAsked(rooms, actions, j, helper, helped)
  {
    RunsAreBacked(rooms, actions, n);
    assert AppBacked(rooms, actions, n, helper, rooms[n].apps[helper]);
    if helped in rooms[0].apps {
      var j :| 0 <= j < n && AcceptsIn(rooms[j], actions[j], helped, helper, session) &&
               HadAsked(rooms, actions, j, helper, helped);
    }
  }

  /** No one is helped whose user did not say yes to that helper, whatever the others send. */
  lemma HelpedMeansAccepted(rooms: seq<Room>, actions: seq<Action>, n: nat,
                            helped: Uuid, helper: Uuid, session: string)
    requires IsRun(rooms, actions) && n <= |actions|
    requires IsHelpedUnder(rooms[n], helped, helper, session)
    ensures HadAccepted(rooms, actions, n, helped, helper, session)
  {
    RunsAreBacked(rooms, actions, n);
    assert AppBacked(rooms, actions, n, helped, rooms[n].apps[helped]);
  }

  /** A session has one helper and one helped: with fresh numbers, no app but the one that was accepted
      ever helps under it, at any time of the run. */
  lemma SessionsAreNotShared(rooms: seq<Room>, actions: seq<Action>, n: nat, m: nat, session: string,
                             helper: Uuid, helped: Uuid, helper': Uuid, helped': Uuid)
    requires IsRun(rooms, actions) && FreshSessions(rooms, actions) && n <= |actions| && m <= |actions|
    requires helped in rooms[0].apps && helped' in rooms[0].apps
    requires HelpsUnder(rooms[n], helper, helped, session)
    requires HelpsUnder(rooms[m], helper', helped', session) || IsHelpedUnder(rooms[m], helped', helper', session)
    ensures helper == helper' && helped == helped'
  {
    HelpWasAskedForAndAccepted(rooms, actions, n, helper, helped, session);
    if HelpsUnder(rooms[m], helper', helped', session) {
      HelpWasAskedForAndAccepted(rooms, actions, m, helper', helped', session);
    } else {
      HelpedMeansAccepted(rooms, actions, m, helped', helper', session);
    }
    var j :| 0 <= j < n && AcceptsIn(rooms[j], actions[j], helped, helper, session);
    var k :| 0 <= k < m && AcceptsIn(rooms[k], actions[k], helped', helper', session);
    assert j == k;
  }
}
