/** The object an app holds its help in: `Help` of src-tauri/src/settings_help.rs. */
module SettingsHelp {
  import opened Wrappers
  import opened HelpProtocol

  class Help {
    var giving: Option<Giving>
    var receiving: Option<Receiving>
    var busyReplies: map<Uuid, int>

    ghost function View(): State
      reads this
    {
      State(giving, receiving, busyReplies)
    }

    constructor ()
      ensures View() == FRESH
    {
      giving, receiving, busyReplies := None, None, map[];
    }

    method Request(peer: Uuid) returns (reply: Reply)
      modifies this
      ensures (View(), reply) == RequestHelp(old(View()), peer)
    {
      if giving.Some? {
        return Err(AlreadyHelping);
      }
      giving := Some(Asking(peer));
      return Ok([Send(peer, Message.Request)]);
    }

    method Decline(peer: Uuid) returns (reply: Reply)
      modifies this
      ensures (View(), reply) == HelpProtocol.Decline(old(View()), peer)
    {
      var asked := AskedBy(peer);
      if !asked {
        return Err(NotActive);
      }
      receiving := None;
      return Ok([Send(peer, Declined(false))]);
    }

    method AskedBy(peer: Uuid) returns (asked: bool)
      ensures asked == IsAskedBy(View(), peer)
    {
      match receiving
      case Some(Asked(asking, _)) => asked := asking == peer;
      case _ => asked := false;
    }

    method Accept(peer: Uuid, session: string) returns (reply: Reply)
      modifies this
      ensures (View(), reply) == HelpProtocol.Accept(old(View()), peer, session)
    {
      var asked := AskedBy(peer);
      if !asked {
        return Err(NotActive);
      }
      var name := receiving.value.name;
      receiving := Some(HelpedBy(peer, name, session));
      return Ok([Send(peer, Accepted(session)), Broadcast(Notice(HelpStarted, peer, None)),
                 Tell(Started(Helped, peer, name))]);
    }

    method Stop(role: Role) returns (reply: Reply)
      modifies this
      ensures (View(), reply) == StopHelp(old(View()), role)
    {
      var peer, session, announce;
      match role {
        case Helper =>
          if giving.None? {
            return Err(NotActive);
          }
          peer, session, announce := giving.value.peer, giving.value.Session(), false;
          giving := None;
        case Helped =>
          if receiving.None? {
            return Err(NotActive);
          }
          peer, session, announce := receiving.value.peer, receiving.value.Session(), receiving.value.HelpedBy?;
          receiving := None;
      }
      var out := [Send(peer, Message.Stop(role, session))];
      if announce {
        out := out + [Broadcast(Notice(HelpEnded, peer, None))];
        assert out == [Send(peer, Message.Stop(role, session)), Broadcast(Notice(HelpEnded, peer, None))];
      }
      return Ok(out);
    }

    method ReceiveAt(from: Uuid, fromName: string, message: Message, now: int) returns (out: seq<Out>)
      modifies this
      ensures var (next, outs) := Receive(old(View()), from, fromName, message, now); View() == next && out == outs
    {
      match message {
        case Request =>
          match receiving {
            case None =>
              receiving := Some(Asked(from, fromName));
              return [Tell(Requested(from, fromName))];
            case Some(current) =>
              if current.peer == from {
                return [];
              }
              busyReplies := StillBusy(busyReplies, now);
              if from in busyReplies {
                return [];
              }
              busyReplies := busyReplies[from := now];
              return [Send(from, Declined(true))];
          }
        case Accepted(session) =>
          if giving == Some(Asking(from)) && IsHelpSession(session) {
            giving := Some(Helping(from, session));
            return [Tell(Started(Helper, from, fromName)), OpenLink(from, fromName, session)];
          }
          return [];
        case Declined(busy) =>
          if giving == Some(Asking(from)) {
            giving := None;
            return [Tell(Refused(from, busy))];
          }
          return [];
        case Stop(Helper, named) =>
          if !NamesTheHelp(named, if receiving.Some? then receiving.value.Session() else None) {
            return [];
          }
          out := EndReceivingWith(from, PeerStopped, true);
        case Stop(Helped, named) =>
          if !NamesTheHelp(named, if giving.Some? then giving.value.Session() else None) {
            return [];
          }
          out := EndGivingWith(from, PeerStopped);
        case Notice(event, helper, setting) =>
          return [Tell(Noticed(event, helper, fromName, setting))];
      }
    }

    method PeerLeaves(peer: Uuid) returns (out: seq<Out>)
      modifies this
      ensures var (next, outs) := HelpProtocol.PeerLeaves(old(View()), peer); View() == next && out == outs
    {
      out := EndGivingWith(peer, PeerLeft);
      var more := EndReceivingWith(peer, PeerLeft, false);
      out := out + more;
    }

    method LinkClosed(role: Role, session: string) returns (out: seq<Out>)
      modifies this
      ensures var (next, outs) := HelpProtocol.LinkClosed(old(View()), role, session); View() == next && out == outs
    {
      var peer;
      match (role, giving, receiving) {
        case (Helper, Some(Helping(p, held)), _) =>
          if held != session { return []; }
          peer := p;
        case (Helped, _, Some(HelpedBy(p, _, held))) =>
          if held != session { return []; }
          peer := p;
        case _ => return [];
      }
      out := [Send(peer, Message.Stop(role, Some(session)))];
      var more;
      match role {
        case Helper => more := EndGivingWith(peer, PeerStopped);
        case Helped => more := EndReceivingWith(peer, PeerStopped, true);
      }
      out := out + more;
    }

    method Reset() returns (out: seq<Out>)
      modifies this
      ensures var (next, outs) := HelpProtocol.Reset(old(View())); View() == next && out == outs
    {
      out := [];
      if giving.Some? {
        out := out + [Tell(Ended(Helper, giving.value.peer, Stopped))];
        giving := None;
      }
      if receiving.Some? {
        out := out + [Tell(Ended(Helped, receiving.value.peer, Stopped))];
        receiving := None;
      } else {
        assert out + [] == out;
      }
    }

    method EndGivingWith(peer: Uuid, reason: EndReason) returns (out: seq<Out>)
      modifies this
      ensures var (next, outs) := HelpProtocol.EndGivingWith(old(View()), peer, reason); View() == next && out == outs
    {
      if giving.None? || giving.value.peer != peer {
        return [];
      }
      giving := None;
      return [Tell(Ended(Helper, peer, reason))];
    }

    method EndReceivingWith(peer: Uuid, reason: EndReason, announce: bool) returns (out: seq<Out>)
      modifies this
      ensures var (next, outs) := HelpProtocol.EndReceivingWith(old(View()), peer, reason, announce);
        View() == next && out == outs
    {
      if receiving.None? || receiving.value.peer != peer {
        return [];
      }
      out := [];
      if receiving.value.HelpedBy? && announce {
        out := out + [Broadcast(Notice(HelpEnded, peer, None))];
      }
      receiving := None;
      out := out + [Tell(Ended(Helped, peer, reason))];
    }
  }
}
