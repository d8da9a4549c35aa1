/** What answers that come in late can do: three runs, told message by message. Nothing in them is lost,
    doubled or overtaken. */
module HelpLateAnswers {
  import opened Wrappers
  import opened HelpProtocol
  import opened HelpRuns
  import opened HelpInOrder
  import opened HelpPair
  import opened HelpMoves
  import opened HelpAnswers
  import opened HelpAgreement

  /** With no one to broadcast to, only what is sent to someone alone is on its way. */
  lemma {:induction false} OutsAlone(n: Net, from: Uuid, re: nat, outs: seq<Out>)
    requires OneSend(outs)
    ensures PostOuts(n, from, [], re, outs) ==
            if outs != [] && outs[0].Send? then Post(n, (from, outs[0].to), re, outs[0].message) else n
    decreases outs
  {
    if outs != [] {
      var rest := outs[1..];
      assert OneSend(rest) && (rest != [] ==> !rest[0].Send?);
      OutsAlone(if outs[0].Send? then Post(n, (from, outs[0].to), re, outs[0].message) else n, from, re, rest);
    }
  }

  function Last(nets: seq<Net>): Net
    requires nets != []
  {
    nets[|nets| - 1]
  }

  /** A run between `a` and `b` so far, in which nothing is broken. */
  ghost predicate Tells(nets: seq<Net>, actions: seq<Action>, a: Uuid, b: Uuid) {
    && a != b
    && IsRun(nets, seq(|actions|, _ => []), actions)
    && a in nets[0].apps && b in nets[0].apps
    && a in Last(nets).apps && b in Last(nets).apps
    && IsUnbroken(nets, actions, |actions|, a, b)
  }

  lemma Goes(nets: seq<Net>, actions: seq<Action>, action: Action, a: Uuid, b: Uuid)
    returns (nets': seq<Net>, actions': seq<Action>)
    requires Tells(nets, actions, a, b)
    requires Enabled(Last(nets), action) && IsSteady(action, a, b) && TakesFresh(Last(nets), action)
    ensures Tells(nets', actions', a, b) && Last(nets') == Next(Last(nets), [], action)
  {
    var n := Next(Last(nets), [], action);
    nets', actions' := nets + [n], actions + [action];
    AppsStay(Last(nets), [], action);
    var rooms := seq(|actions'|, _ => []);
    forall i | 0 <= i < |actions'|
      ensures Enabled(nets'[i], actions'[i]) && nets'[i + 1] == Next(nets'[i], rooms[i], actions'[i])
    {
    }
  }

  /** What is left of `n` when `app` has acted, or has heard, and only `outs` is to be sent. */
  function Alone(n: Net, app: Uuid, re: nat, outs: seq<Out>): Net {
    if outs != [] && outs[0].Send? then Post(n, (app, outs[0].to), re, outs[0].message) else n
  }

  lemma Does(nets: seq<Net>, actions: seq<Action>, app: Uuid, call: Call, a: Uuid, b: Uuid)
    returns (nets': seq<Net>, actions': seq<Action>)
    requires Tells(nets, actions, a, b) && (app == a || app == b)
    requires !call.DoReceive? && !call.DoReset? && !call.DoPeerLeft? && AcceptsFresh(Last(nets), app, call)
    ensures Tells(nets', actions', a, b)
    ensures var n := Last(nets); var s := n.apps[app];
      Last(nets') == Alone(n.(apps := n.apps[app := Step(s, call).0], past := AfterLocal(n, app, call)),
                           app, BegunAt(n, app), Outs(s, call))
  {
    var n := Last(nets);
    CallsSendOnce(n.apps[app], call);
    OutsAlone(n.(apps := n.apps[app := Step(n.apps[app], call).0], past := AfterLocal(n, app, call)),
              app, BegunAt(n, app), Outs(n.apps[app], call));
    nets', actions' := Goes(nets, actions, Local(app, call), a, b);
  }

  lemma Hears(nets: seq<Net>, actions: seq<Action>, lane: Lane, a: Uuid, b: Uuid)
    returns (nets': seq<Net>, actions': seq<Action>)
    requires Tells(nets, actions, a, b) && (lane == (a, b) || lane == (b, a)) && UnderWay(Last(nets), lane) != []
    ensures Tells(nets', actions', a, b)
    ensures var n := Last(nets); var s := n.apps[lane.1]; var head := UnderWay(n, lane)[0];
      var call := DoReceive(lane.0, "", head.message, 0);
      Last(nets') == Alone(Taken(n, lane, Step(s, call).0).(apps := n.apps[lane.1 := Step(s, call).0]),
                           lane.1, head.serial, Outs(s, call))
  {
    var n := Last(nets);
    var head := UnderWay(n, lane)[0];
    var call := DoReceive(lane.0, "", head.message, 0);
    var t := Step(n.apps[lane.1], call).0;
    CallsSendOnce(n.apps[lane.1], call);
    OutsAlone(Taken(n, lane, t).(apps := n.apps[lane.1 := t]), lane.1, head.serial, Outs(n.apps[lane.1], call));
    nets', actions' := Goes(nets, actions, Deliver(lane, "", 0), a, b);
  }

  /** What the two see, what is under way between them, and what is past. */
  datatype Scene = Scene(giving: Option<Giving>, receiving: Option<Receiving>, toB: seq<Posted>, toA: seq<Posted>,
                         next: nat, begun: nat, asked: nat, letGo: nat, cutOff: nat,
                         accepted: map<string, nat>, dropped: set<string>)

  ghost predicate Shows(n: Net, a: Uuid, b: Uuid, v: Scene) {
    && a in n.apps && b in n.apps && a !in n.begun
    && v == Scene(n.apps[a].giving, n.apps[b].receiving, UnderWay(n, (a, b)), UnderWay(n, (b, a)), n.next,
                  BegunAt(n, b), LastAsked(n, (a, b)), LetGoAt(n, (a, b)), CutOffAt(n, (a, b)),
                  n.past.accepted, DroppedOn(n, (a, b)))
  }

  const OPENING := Scene(None, None, [], [], 0, 0, 0, 0, 0, map[], {})

  lemma Opens(a: Uuid, b: Uuid) returns (nets: seq<Net>, actions: seq<Action>)
    requires a != b
    ensures Tells(nets, actions, a, b) && Shows(Last(nets), a, b, OPENING)
  {
    var quiet := Net(map[a := FRESH, b := FRESH], map[], 0, map[], Past(map[], map[], map[], map[], map[]));
    nets, actions := [quiet], [];
  }

  lemma Asks(nets: seq<Net>, actions: seq<Action>, a: Uuid, b: Uuid, v: Scene)
    returns (nets': seq<Net>, actions': seq<Action>, w: Scene)
    requires Tells(nets, actions, a, b) && Shows(Last(nets), a, b, v) && v.giving.None?
    ensures Tells(nets', actions', a, b) && Shows(Last(nets'), a, b, w)
    ensures w == v.(giving := Some(Asking(b)), asked := v.next, next := v.next + 1,
                 toB := v.toB + [Posted(v.next, 0, Message.Request)])
  {
    w := v.(giving := Some(Asking(b)), asked := v.next, next := v.next + 1,
            toB := v.toB + [Posted(v.next, 0, Message.Request)]);
    nets', actions' := Does(nets, actions, a, DoRequest(b), a, b);
    hide Tells;
  }

  lemma LetsGo(nets: seq<Net>, actions: seq<Action>, a: Uuid, b: Uuid, v: Scene)
    returns (nets': seq<Net>, actions': seq<Action>, w: Scene)
    requires Tells(nets, actions, a, b) && Shows(Last(nets), a, b, v) && v.giving == Some(Asking(b))
    ensures Tells(nets', actions', a, b) && Shows(Last(nets'), a, b, w)
    ensures w == v.(giving := None, letGo := v.next, next := v.next + 1,
                 toB := v.toB + [Posted(v.next, 0, Stop(Helper, None))])
  {
    w := v.(giving := None, letGo := v.next, next := v.next + 1,
            toB := v.toB + [Posted(v.next, 0, Stop(Helper, None))]);
    nets', actions' := Does(nets, actions, a, DoStop(Helper), a, b);
    hide Tells;
  }

  lemma Declines(nets: seq<Net>, actions: seq<Action>, a: Uuid, b: Uuid, v: Scene)
    returns (nets': seq<Net>, actions': seq<Action>, w: Scene)
    requires Tells(nets, actions, a, b) && Shows(Last(nets), a, b, v) && v.receiving == Some(Receiving.Asked(a, ""))
    ensures Tells(nets', actions', a, b) && Shows(Last(nets'), a, b, w)
    ensures w == v.(receiving := None, next := v.next + 1,
                 toA := v.toA + [Posted(v.next, v.begun, Declined(false))])
  {
    w := v.(receiving := None, next := v.next + 1,
            toA := v.toA + [Posted(v.next, v.begun, Declined(false))]);
    nets', actions' := Does(nets, actions, b, DoDecline(a), a, b);
    hide Tells;
  }

  lemma Accepts(nets: seq<Net>, actions: seq<Action>, a: Uuid, b: Uuid, v: Scene, session: string)
    returns (nets': seq<Net>, actions': seq<Action>, w: Scene)
    requires Tells(nets, actions, a, b) && Shows(Last(nets), a, b, v) && v.receiving == Some(Receiving.Asked(a, ""))
    requires IsHelpSession(session) && session !in v.accepted
    ensures Tells(nets', actions', a, b) && Shows(Last(nets'), a, b, w)
    ensures w == v.(receiving := Some(HelpedBy(a, "", session)), next := v.next + 1,
                 accepted := v.accepted[session := v.begun],
                 toA := v.toA + [Posted(v.next, v.begun, Accepted(session))])
  {
    w := v.(receiving := Some(HelpedBy(a, "", session)), next := v.next + 1,
            accepted := v.accepted[session := v.begun],
            toA := v.toA + [Posted(v.next, v.begun, Accepted(session))]);
    nets', actions' := Does(nets, actions, b, DoAccept(a, session), a, b);
    hide Tells;
  }

  lemma HearsRequest(nets: seq<Net>, actions: seq<Action>, a: Uuid, b: Uuid, v: Scene)
    returns (nets': seq<Net>, actions': seq<Action>, w: Scene)
    requires Tells(nets, actions, a, b) && Shows(Last(nets), a, b, v) && v.receiving.None?
    requires v.toB != [] && v.toB[0].message.Request?
    ensures Tells(nets', actions', a, b) && Shows(Last(nets'), a, b, w)
    ensures w == v.(receiving := Some(Receiving.Asked(a, "")), begun := v.toB[0].serial,
                 toB := v.toB[1..])
  {
    w := v.(receiving := Some(Receiving.Asked(a, "")), begun := v.toB[0].serial,
            toB := v.toB[1..]);
    nets', actions' := Hears(nets, actions, (a, b), a, b);
    hide Tells;
  }

  lemma HearsStop(nets: seq<Net>, actions: seq<Action>, a: Uuid, b: Uuid, v: Scene)
    returns (nets': seq<Net>, actions': seq<Action>, w: Scene)
    requires Tells(nets, actions, a, b) && Shows(Last(nets), a, b, v)
    requires v.receiving.Some? ==> v.receiving.value.peer == a
    requires v.toB != [] && v.toB[0].message == Stop(Helper, None)
    ensures Tells(nets', actions', a, b) && Shows(Last(nets'), a, b, w)
    ensures w == v.(receiving := None, toB := v.toB[1..])
  {
    w := v.(receiving := None, toB := v.toB[1..]);
    nets', actions' := Hears(nets, actions, (a, b), a, b);
    hide Tells;
  }

  /** A no ends the wait, whichever request it is to. */
  lemma HearsNo(nets: seq<Net>, actions: seq<Action>, a: Uuid, b: Uuid, v: Scene)
    returns (nets': seq<Net>, actions': seq<Action>, w: Scene)
    requires Tells(nets, actions, a, b) && Shows(Last(nets), a, b, v) && v.giving == Some(Asking(b))
    requires v.toA != [] && v.toA[0].message.Declined?
    ensures Tells(nets', actions', a, b) && Shows(Last(nets'), a, b, w)
    ensures w == v.(giving := None, toA := v.toA[1..],
                 cutOff := if v.toA[0].re < v.asked then v.next else v.cutOff)
  {
    w := v.(giving := None, toA := v.toA[1..],
            cutOff := if v.toA[0].re < v.asked then v.next else v.cutOff);
    nets', actions' := Hears(nets, actions, (b, a), a, b);
    hide Tells;
  }

  lemma HearsYes(nets: seq<Net>, actions: seq<Action>, a: Uuid, b: Uuid, v: Scene)
    returns (nets': seq<Net>, actions': seq<Action>, w: Scene)
    requires Tells(nets, actions, a, b) && Shows(Last(nets), a, b, v) && v.giving == Some(Asking(b))
    requires v.toA != [] && v.toA[0].message.Accepted? && IsHelpSession(v.toA[0].message.session)
    ensures Tells(nets', actions', a, b) && Shows(Last(nets'), a, b, w)
    ensures w == v.(giving := Some(Helping(b, v.toA[0].message.session)), toA := v.toA[1..],
                 cutOff := if v.toA[0].re < v.asked then v.next else v.cutOff)
  {
    w := v.(giving := Some(Helping(b, v.toA[0].message.session)), toA := v.toA[1..],
            cutOff := if v.toA[0].re < v.asked then v.next else v.cutOff);
    nets', actions' := Hears(nets, actions, (b, a), a, b);
    hide Tells;
  }

  lemma MissesYes(nets: seq<Net>, actions: seq<Action>, a: Uuid, b: Uuid, v: Scene)
    returns (nets': seq<Net>, actions': seq<Action>, w: Scene)
    requires Tells(nets, actions, a, b) && Shows(Last(nets), a, b, v) && v.giving.None?
    requires v.toA != [] && v.toA[0].message.Accepted?
    ensures Tells(nets', actions', a, b) && Shows(Last(nets'), a, b, w)
    ensures w == v.(toA := v.toA[1..], dropped := v.dropped + {v.toA[0].message.session})
  {
    w := v.(toA := v.toA[1..], dropped := v.dropped + {v.toA[0].message.session});
    nets', actions' := Hears(nets, actions, (b, a), a, b);
    hide Tells;
  }

  // ----- the runs -----

  lemma AcceptedTooLate(a: Uuid, b: Uuid, session: string) returns (nets: seq<Net>, actions: seq<Action>, v: Scene)
    requires a != b && IsHelpSession(session)
    ensures Tells(nets, actions, a, b) && Shows(Last(nets), a, b, v)
    ensures v == Scene(None, None, [], [Posted(1, 0, Accepted(session))], 3, 0, 0, 2, 0, map[session := 0], {})
  {
    hide Tells, Shows, IsHelpSession;
    nets, actions := Opens(a, b);
    nets, actions, v := Asks(nets, actions, a, b, OPENING);
    nets, actions, v := HearsRequest(nets, actions, a, b, v);
    nets, actions, v := Accepts(nets, actions, a, b, v, session);
    nets, actions, v := LetsGo(nets, actions, a, b, v);
    nets, actions, v := HearsStop(nets, actions, a, b, v);
  }

  lemma DeclinedTooLate(a: Uuid, b: Uuid, session: string) returns (nets: seq<Net>, actions: seq<Action>, v: Scene)
    requires a != b && IsHelpSession(session)
    ensures Tells(nets, actions, a, b) && Shows(Last(nets), a, b, v)
    ensures v == Scene(None, Some(HelpedBy(a, "", session)), [], [Posted(4, 3, Accepted(session))], 5, 3, 3, 2, 5,
                       map[session := 3], {})
  {
    hide Tells, Shows, IsHelpSession;
    nets, actions := Opens(a, b);
    nets, actions, v := Asks(nets, actions, a, b, OPENING);
    nets, actions, v := HearsRequest(nets, actions, a, b, v);
    nets, actions, v := Declines(nets, actions, a, b, v);
    nets, actions, v := LetsGo(nets, actions, a, b, v);
    nets, actions, v := Asks(nets, actions, a, b, v);
    nets, actions, v := HearsStop(nets, actions, a, b, v);
    nets, actions, v := HearsRequest(nets, actions, a, b, v);
    nets, actions, v := Accepts(nets, actions, a, b, v, session);
    nets, actions, v := HearsNo(nets, actions, a, b, v);
  }

  const SESSION: string := seq(32, _ => '0')

  /** The two sides need not agree. An app lets go of a request, and asks again, while the yes to the first
      is on its way. It takes that yes for an answer to the second, and helps under a session the other
      side has ended. */
  lemma AgreementCanFail(a: Uuid, b: Uuid) returns (nets: seq<Net>, rooms: seq<seq<Uuid>>, actions: seq<Action>)
    requires a != b
    ensures IsRun(nets, rooms, actions) && IsUnbroken(nets, actions, |actions|, a, b)
    ensures NothingUnderWay(nets[|actions|], a, b)
    ensures HelpsUnder(nets[|actions|], a, b, SESSION) && forall s :: !IsHelpedUnder(nets[|actions|], b, a, s)
  {
    var v;
    nets, actions, v := AcceptedTooLate(a, b, SESSION);
    hide Tells, Shows;
    nets, actions, v := Asks(nets, actions, a, b, v);
    nets, actions, v := HearsYes(nets, actions, a, b, v);
    nets, actions, v := HearsRequest(nets, actions, a, b, v);
    rooms := seq(|actions|, _ => []);
    Shown(nets, actions, a, b, v);
  }

  lemma Shown(nets: seq<Net>, actions: seq<Action>, a: Uuid, b: Uuid, v: Scene)
    requires Tells(nets, actions, a, b) && Shows(Last(nets), a, b, v)
    ensures var rooms: seq<seq<Uuid>> := seq(|actions|, _ => []);
      IsRun(nets, rooms, actions) && IsUnbroken(nets, actions, |actions|, a, b)
    ensures v.toA == [] && v.toB == [] ==> NothingUnderWay(nets[|actions|], a, b)
    ensures forall s :: HelpsUnder(nets[|actions|], a, b, s) <==> v.giving == Some(Helping(b, s))
    ensures forall s :: IsHelpedUnder(nets[|actions|], b, a, s) <==>
      v.receiving.Some? && v.receiving.value.HelpedBy? && v.receiving.value.peer == a && v.receiving.value.session == s
    ensures forall s :: s in v.dropped <==> s in DroppedOn(nets[|actions|], (a, b))
  {
  }

  /** Nor is a yes that was taken late the only way to disagree. An app lets go of a request while the no to
      it is on its way, asks again, and takes that no for the answer. The yes that follows finds it waiting
      no more, and the other side is helped by no one. */
  lemma LateNoLosesTheYes(a: Uuid, b: Uuid) returns (nets: seq<Net>, rooms: seq<seq<Uuid>>, actions: seq<Action>)
    requires a != b
    ensures IsRun(nets, rooms, actions) && IsUnbroken(nets, actions, |actions|, a, b)
    ensures NothingUnderWay(nets[|actions|], a, b)
    ensures IsHelpedUnder(nets[|actions|], b, a, SESSION) && forall s :: !HelpsUnder(nets[|actions|], a, b, s)
    ensures !TookLateYes(nets[|actions|], a, b)
  {
    var v;
    nets, actions, v := DeclinedTooLate(a, b, SESSION);
    hide Tells, Shows;
    nets, actions, v := MissesYes(nets, actions, a, b, v);
    rooms := seq(|actions|, _ => []);
    Shown(nets, actions, a, b, v);
  }

  /** Nor does letting go alone make a yes late. If the app asks once more instead, the yes that comes in
      answers the request before, of which it did not let go. */
  lemma LateNoMakesTheYesLate(a: Uuid, b: Uuid)
    returns (nets: seq<Net>, rooms: seq<seq<Uuid>>, actions: seq<Action>, next: Action)
    requires a != b
    ensures IsRun(nets, rooms, actions) && IsUnbroken(nets, actions, |actions|, a, b)
    ensures var n := nets[|actions|];
      && Enabled(n, next) && IsAnswered(n, next, a, b) && UnderWay(n, (b, a))[0].message == Accepted(SESSION)
      && LetGoAt(n, (a, b)) <= UnderWay(n, (b, a))[0].re < LastAsked(n, (a, b))
  {
    var v;
    nets, actions, v := DeclinedTooLate(a, b, SESSION);
    nets, actions, v := Asks(nets, actions, a, b, v);
    next := Deliver((b, a), "", 0);
    rooms := seq(|actions|, _ => []);
  }
}
