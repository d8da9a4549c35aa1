/** What the room looks like to one app that asks and one that is asked: their two sides of the help,
    and what is under way between them about it. Whatever happens in the room is one of few moves here. */
module HelpPair {
  import opened Wrappers
  import opened HelpProtocol
  import opened HelpRuns
  import opened HelpInOrder

  datatype Side = Off | Pending | On(session: string)

  /** `asks` is under way to the one asked, `answers` back to the one that asks. */
  datatype Pair = Pair(giving: Side, receiving: Side, asks: set<Posted>, answers: set<Posted>, next: nat,
                       begun: nat, asked: nat, letGo: nat, cutOff: nat,
                       accepted: map<string, nat>, dropped: set<string>)

  predicate IsAsk(m: Message) {
    m.Request? || (m.Stop? && m.role.Helper?)
  }

  predicate IsReply(m: Message) {
    m.Accepted? || m.Declined? || (m.Stop? && m.role.Helped?)
  }

  /** Answers a request: a yes, a no, or that the one asked turned away without either. */
  predicate IsAnswer(m: Message) {
    m.Accepted? || m.Declined? || m == Stop(Helped, None)
  }

  function GivingSide(s: State, peer: Uuid): Side {
    if s.giving.None? || s.giving.value.peer != peer then Off
    else if s.giving.value.Asking? then Pending
    else On(s.giving.value.session)
  }

  function ReceivingSide(s: State, peer: Uuid): Side {
    if s.receiving.None? || s.receiving.value.peer != peer then Off
    else if s.receiving.value.Asked? then Pending
    else On(s.receiving.value.session)
  }

  function AsksOn(n: Net, lane: Lane): set<Posted> {
    set p | p in UnderWay(n, lane) && IsAsk(p.message)
  }

  function RepliesOn(n: Net, lane: Lane): set<Posted> {
    set p | p in UnderWay(n, lane) && IsReply(p.message)
  }

  function StateOf(n: Net, app: Uuid): State {
    if app in n.apps then n.apps[app] else FRESH
  }

  function View(n: Net, a: Uuid, b: Uuid): Pair {
    var receiving := ReceivingSide(StateOf(n, b), a);
    Pair(GivingSide(StateOf(n, a), b), receiving, AsksOn(n, (a, b)), RepliesOn(n, (b, a)), n.next,
         if receiving.Off? then 0 else BegunAt(n, b), LastAsked(n, (a, b)), LetGoAt(n, (a, b)), CutOffAt(n, (a, b)),
         n.past.accepted, DroppedOn(n, (a, b)))
  }

  datatype Heed = Begin | SayBusy(answer: Posted) | Ignore

  datatype Move =
    | Ask(request: Posted)
    /** The one that asks gives up waiting or helping, and says so or not. */
    | Withdraw(stop: Option<Posted>)
    | HearReply(p: Posted)
    | HearAsk(p: Posted, heed: Heed)
    /** The one asked says yes or no, or turns away. */
    | Reply(answer: Posted)
    /** The one asked gives up, and if it was helped says so or not. */
    | Leave(stop: Option<Posted>)
    | LoseAsk(p: Posted)
    | LoseReply(p: Posted)
    /** Something that concerns others; one of them may accept a request. */
    | Elsewhere(accepted: map<string, nat>)

  predicate IsNew(v: Pair, p: Option<Posted>, m: Message) {
    p.Some? ==> p.value.serial == v.next && p.value.message == m
  }

  /** Nothing else in `q` was sent before `p`. */
  ghost predicate IsFirst(p: Posted, q: set<Posted>) {
    p in q && forall o :: o in q && o != p ==> p.serial < o.serial
  }

  function Naming(side: Side): Option<string> {
    if side.On? then Some(side.session) else None
  }

  ghost predicate Can(v: Pair, m: Move) {
    match m
    case Ask(p) => v.giving.Off? && IsNew(v, Some(p), Message.Request)
    case Withdraw(stop) => !v.giving.Off? && IsNew(v, stop, Stop(Helper, Naming(v.giving)))
    case HearReply(p) => IsFirst(p, v.answers)
    case HearAsk(p, heed) =>
      && IsFirst(p, v.asks)
      && (!heed.Ignore? ==> p.message.Request? && v.receiving.Off?)
      && (heed.SayBusy? ==> IsNew(v, Some(heed.answer), Declined(true)) && heed.answer.re == p.serial)
    case Reply(p) =>
      v.receiving.Pending? && IsNew(v, Some(p), p.message) && IsAnswer(p.message) && p.re == v.begun
    case Leave(stop) =>
      !v.receiving.Off? && IsNew(v, stop, Stop(Helped, Naming(v.receiving))) && (stop.Some? ==> v.receiving.On?)
    case LoseAsk(p) => true
    case LoseReply(p) => true
    case Elsewhere(_) => true
  }

  /** What the one that asks makes of a reply. */
  function Heard(side: Side, m: Message): Side {
    match m
    case Accepted(session) => if side.Pending? && IsHelpSession(session) then On(session) else side
    case Declined(_) => if side.Pending? then Off else side
    case Stop(_, named) => if named.None? || side == On(named.value) then Off else side
    case _ => side
  }

  function Optional(p: Option<Posted>): set<Posted> {
    if p.Some? then {p.value} else {}
  }

  function Later(next: nat, p: Option<Posted>): nat {
    if p.Some? then next + 1 else next
  }

  function After(v: Pair, m: Move): Pair {
    match m
    case Ask(p) => v.(giving := Pending, asks := v.asks + {p}, asked := v.next, next := v.next + 1)
    case Withdraw(stop) =>
      v.(giving := Off, letGo := if v.giving.Pending? then v.next else v.letGo,
         asks := v.asks + Optional(stop), next := Later(v.next, stop))
    case HearReply(p) =>
      var side := Heard(v.giving, p.message);
      v.(giving := side, answers := v.answers - {p},
         cutOff := if v.giving.Pending? && side != v.giving && p.re < v.asked then v.next else v.cutOff,
         dropped := if p.message.Accepted? && side == v.giving then v.dropped + {p.message.session} else v.dropped)
    case HearAsk(p, heed) =>
      var taken := v.(asks := v.asks - {p});
      if heed.Begin? then taken.(receiving := Pending, begun := p.serial)
      else if heed.SayBusy? then taken.(answers := v.answers + {heed.answer}, next := v.next + 1)
      else if EndsReceiving(v.receiving, p.message) then taken.(receiving := Off, begun := 0)
      else taken
    case Reply(p) =>
      var told := v.(answers := v.answers + {p}, next := v.next + 1);
      if p.message.Accepted?
      then told.(receiving := On(p.message.session), accepted := v.accepted[p.message.session := v.begun])
      else told.(receiving := Off, begun := 0)
    case Leave(stop) =>
      v.(receiving := Off, begun := 0, answers := v.answers + Optional(stop), next := Later(v.next, stop))
    case LoseAsk(p) => v.(asks := v.asks - {p})
    case LoseReply(p) => v.(answers := v.answers - {p})
    case Elsewhere(accepted) => v.(accepted := accepted)
  }

  predicate EndsReceiving(side: Side, m: Message) {
    m.Stop? && (m.named.None? || side == On(m.named.value))
  }

  /** `v` goes to `w` by the move; numbers may be used for other messages too. */
  ghost predicate Moves(v: Pair, m: Move, w: Pair) {
    Can(v, m) && w.next >= After(v, m).next && w == After(v, m).(next := w.next)
  }

  /** Nothing is lost, and neither leaves the other without a word. */
  predicate IsKept(m: Move) {
    && !m.LoseAsk? && !m.LoseReply?
    && ((m.Withdraw? || m.Leave?) ==> m.stop.Some?)
  }

  /** A yes is said under a session of its own. */
  ghost predicate IsFresh(v: Pair, m: Move) {
    && (m.Reply? && m.answer.message.Accepted? ==>
          m.answer.message.session !in v.accepted && IsHelpSession(m.answer.message.session))
    && (m.Elsewhere? ==> forall s :: s in v.accepted ==> s in m.accepted && m.accepted[s] == v.accepted[s])
  }
}
