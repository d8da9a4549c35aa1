/** What the send thread gets of what is captured, over every run of captures, reads, discards and
    changes of the device (src-tauri/src/streaming.rs:1588-1593, 1624-1641, 2293-2325, 2578-2607). */
module CaptureStream {
  import opened Arithmetic
  import opened Wrappers
  import CaptureRing

  type Sample = CaptureRing.Sample

  /** What the consumer took at once: a frame to send, or what it threw away. */
  datatype Taken = Sent(samples: seq<Sample>) | Discarded(samples: seq<Sample>)

  /** A ring, with what has gone into it and come out of it so far. `waiting` is its queue. */
  datatype Ring = Ring(channels: nat, capacity: nat, waiting: seq<Sample>,
                       accepted: seq<seq<Sample>>, taken: seq<Taken>)

  /** All rings of a session, in the order they were opened; sends come from the current one. While the
      send thread throws away what is waiting it holds the ring, and has counted how much that is. */
  datatype State = State(rings: seq<Ring>, current: Option<nat>, counted: int)

  const NOT_COUNTED := -1

  datatype Action =
    /** The callback of a ring delivers a block of whole frames, whether the ring is the current one, was
        or is yet to be. */
    | Capture(ring: nat, block: seq<Sample>)
    | CountQueued
    | DiscardCounted
    /** The send thread takes one frame, `frame` samples a channel, if there is one. */
    | Read(frame: nat)
    /** A device opens, on a thread of its own. */
    | Open(channels: nat, capacity: nat)
    /** A ring opened since the current one takes its place. */
    | Install(ring: nat)

  predicate Enabled(s: State, a: Action) {
    match a
    case Capture(ring, block) => ring < |s.rings| && s.rings[ring].channels > 0 && |block| % s.rings[ring].channels == 0
    case CountQueued => HasCurrent(s) && s.counted == NOT_COUNTED
    case DiscardCounted => HasCurrent(s) && 0 <= s.counted <= |Current(s).waiting|
    case Read(_) => HasCurrent(s) && s.counted == NOT_COUNTED
    case Open(channels, capacity) => channels > 0 && capacity > 0
    case Install(ring) =>
      s.counted == NOT_COUNTED && ring < |s.rings| && (s.current.Some? ==> s.current.value < ring)
  }

  predicate HasCurrent(s: State) {
    s.current.Some? && s.current.value < |s.rings|
  }

  function Current(s: State): Ring
    requires HasCurrent(s)
  {
    s.rings[s.current.value]
  }

  function WithCurrent(s: State, r: Ring): State
    requires HasCurrent(s)
  {
    s.(rings := s.rings[s.current.value := r])
  }

  function Offer(r: Ring, block: seq<Sample>): Ring {
    if |block| <= r.capacity - |r.waiting| then
      r.(waiting := r.waiting + block, accepted := r.accepted + [block])
    else r
  }

  function TakeOut(r: Ring, n: nat, sent: bool): Ring
    requires n <= |r.waiting|
  {
    r.(waiting := r.waiting[n..],
       taken := r.taken + [if sent then Sent(r.waiting[..n]) else Discarded(r.waiting[..n])])
  }

  function Next(s: State, a: Action): State
    requires Enabled(s, a)
  {
    match a
    case Capture(ring, block) => s.(rings := s.rings[ring := Offer(s.rings[ring], block)])
    case CountQueued => s.(counted := |Current(s).waiting|)
    case DiscardCounted => WithCurrent(s, TakeOut(Current(s), s.counted, false)).(counted := NOT_COUNTED)
    case Read(frame) =>
      var r := Current(s);
      if |r.waiting| >= frame * r.channels && frame * r.channels >= 0 then
        WithCurrent(s, TakeOut(r, frame * r.channels, true))
      else s
    case Open(channels, capacity) => s.(rings := s.rings + [Ring(channels, capacity, [], [], [])])
    case Install(ring) => s.(current := Some(ring))
  }

  ghost predicate IsRun(states: seq<State>, actions: seq<Action>) {
    && |states| == |actions| + 1
    && states[0] == State([], None, NOT_COUNTED)
    && (forall i :: 0 <= i < |actions| ==>
          Enabled(states[i], actions[i]) && states[i + 1] == Next(states[i], actions[i]))
  }

  function Joined(blocks: seq<seq<Sample>>): seq<Sample> {
    if blocks == [] then [] else Joined(blocks[..|blocks| - 1]) + blocks[|blocks| - 1]
  }

  function AllTaken(taken: seq<Taken>): seq<Sample> {
    if taken == [] then [] else AllTaken(taken[..|taken| - 1]) + taken[|taken| - 1].samples
  }

  // ----- the object and this model of it -----

  /** The methods of the ring object are the steps of this model. */
  method CaptureIntoObject(ring: CaptureRing.Ring, block: seq<Sample>, ghost r: Ring)
    requires ring.Valid() && r.waiting == ring.Queue() && r.capacity == ring.data.Length
    modifies ring, ring.data
    ensures ring.Valid() && Offer(r, block).waiting == ring.Queue()
  {
    ring.OnCapturedFrame(block);
  }

  method ReadFromObject(ring: CaptureRing.Ring, frame: nat, buffer: array<Sample>, ghost r: Ring) returns (taken: bool)
    requires ring.Valid() && buffer != ring.data && r.waiting == ring.Queue() && r.channels == ring.channels
    requires frame * ring.channels <= buffer.Length
    modifies ring, buffer
    ensures ring.Valid()
    ensures taken <==> |r.waiting| >= frame * r.channels
    ensures taken ==> TakeOut(r, frame * r.channels, true).waiting == ring.Queue() &&
                      TakeOut(r, frame * r.channels, true).taken == r.taken + [Sent(buffer[..frame * r.channels])]
    ensures !taken ==> ring.Queue() == r.waiting
  {
    taken := ring.TakeFrame(frame * ring.channels, buffer);
  }

  // ----- the invariant -----

  /** What came out and what waits is what was accepted, in order; and all of it is whole frames. */
  ghost predicate Streams(r: Ring) {
    && r.channels > 0 && |r.waiting| <= r.capacity
    && Joined(r.accepted) == AllTaken(r.taken) + r.waiting
    && |r.waiting| % r.channels == 0
    && FrameAligned(r)
  }

  /** Everything was taken from a frame boundary to a frame boundary. */
  ghost predicate FrameAligned(r: Ring)
    requires r.channels > 0
  {
    forall i :: 0 <= i < |r.taken| ==>
      |AllTaken(r.taken[..i])| % r.channels == 0 && |r.taken[i].samples| % r.channels == 0
  }

  ghost predicate Sound(s: State) {
    && (forall i :: 0 <= i < |s.rings| ==> Streams(s.rings[i]))
    && (s.counted != NOT_COUNTED ==>
          && HasCurrent(s) && 0 <= s.counted <= |Current(s).waiting|
          && s.counted % Current(s).channels == 0)
  }

  lemma OfferStreams(r: Ring, block: seq<Sample>)
    requires Streams(r) && |block| % r.channels == 0
    ensures Streams(Offer(r, block))
  {
    if |block| <= r.capacity - |r.waiting| {
      var blocks := r.accepted + [block];
      assert blocks[..|blocks| - 1] == r.accepted;
      assert AllTaken(r.taken) + r.waiting + block == AllTaken(r.taken) + (r.waiting + block);
      MultiplesAdd(|r.waiting|, |block|, r.channels);
    }
  }

  lemma {:induction false} AlignedLength(r: Ring, i: nat)
    requires r.channels > 0 && FrameAligned(r) && i <= |r.taken|
    ensures |AllTaken(r.taken[..i])| % r.channels == 0
  {
    if i > 0 {
      AlignedLength(r, i - 1);
      assert r.taken[..i][..i - 1] == r.taken[..i - 1];
      MultiplesAdd(|AllTaken(r.taken[..i - 1])|, |r.taken[i - 1].samples|, r.channels);
    }
  }

  lemma MultiplesSubtract(a: nat, b: nat, len: nat)
    requires len > 0 && a <= b && a % len == 0 && b % len == 0
    ensures (b - a) % len == 0
  {
    var p, q := a / len, b / len;
    assert a == len * p && b == len * q;
    assert len * (q - p) == b - a;
    MultipleHasNoRemainder(q - p, len, b - a);
  }

  lemma TakeOutStreams(r: Ring, n: nat, sent: bool)
    requires Streams(r) && n <= |r.waiting| && n % r.channels == 0
    ensures Streams(TakeOut(r, n, sent))
  {
    var t := TakeOut(r, n, sent);
    var k := |r.taken|;
    assert t.taken[..k] == r.taken;
    assert r.taken[..k] == r.taken;
    AlignedLength(r, k);
    assert r.waiting == r.waiting[..n] + r.waiting[n..];
    assert AllTaken(r.taken) + r.waiting[..n] + r.waiting[n..] == AllTaken(r.taken) + (r.waiting[..n] + r.waiting[n..]);
    MultiplesSubtract(n, |r.waiting|, r.channels);
    forall i | 0 <= i < |t.taken|
      ensures |AllTaken(t.taken[..i])| % t.channels == 0 && |t.taken[i].samples| % t.channels == 0
    {
      if i < k {
        assert t.taken[..i] == r.taken[..i];
      }
    }
  }

  lemma FramesAreAligned(frame: nat, channels: nat)
    requires channels > 0
    ensures frame * channels >= 0 && (frame * channels) % channels == 0
  {
    assert frame * channels == channels * frame;
    NoNegativeProduct(frame, channels);
    MultipleHasNoRemainder(frame, channels, frame * channels);
  }

  lemma StepIsSound(s: State, a: Action)
    requires Sound(s) && Enabled(s, a)
    ensures Sound(Next(s, a))
  {
    hide Streams, Offer, TakeOut;
    match a
    case Capture(ring, block) =>
      CaptureGrows(s, ring, block);
    case CountQueued =>
      WaitingIsAligned(Current(s));
    case DiscardCounted =>
      TakeOutStreams(Current(s), s.counted, false);
    case Read(frame) =>
      var r := Current(s);
      WaitingIsAligned(r);
      FramesAreAligned(frame, r.channels);
      if |r.waiting| >= frame * r.channels {
        TakeOutStreams(r, frame * r.channels, true);
      }
    case Open(channels, capacity) =>
      NewRingStreams(channels, capacity);
    case Install(ring) =>
  }

  lemma WaitingIsAligned(r: Ring)
    requires Streams(r)
    ensures r.channels > 0 && |r.waiting| % r.channels == 0
  {
  }

  lemma NewRingStreams(channels: nat, capacity: nat)
    requires channels > 0 && capacity > 0
    ensures Streams(Ring(channels, capacity, [], [], []))
  {
  }

  lemma CaptureGrows(s: State, ring: nat, block: seq<Sample>)
    requires Sound(s) && Enabled(s, Capture(ring, block))
    ensures Streams(Offer(s.rings[ring], block))
    ensures |Offer(s.rings[ring], block).waiting| >= |s.rings[ring].waiting|
    ensures Offer(s.rings[ring], block).channels == s.rings[ring].channels
  {
    OfferStreams(s.rings[ring], block);
  }

  lemma {:induction false} RunsAreSound(states: seq<State>, actions: seq<Action>, n: nat)
    requires IsRun(states, actions) && n <= |actions|
    ensures Sound(states[n])
  {
    if n > 0 {
      RunsAreSound(states, actions, n - 1);
      assert states[n] == Next(states[n - 1], actions[n - 1]);
      StepIsSound(states[n - 1], actions[n - 1]);
    }
  }

  // ----- what follows -----

  /** What is taken from a ring, sent or thrown away, is the stream of the blocks it accepted, in order
      and without a gap: of a block that found no room nothing is ever seen, of any other all of it. */
  lemma TakenIsAcceptedInOrder(states: seq<State>, actions: seq<Action>, n: nat, ring: nat)
    requires IsRun(states, actions) && n <= |actions| && ring < |states[n].rings|
    ensures var r := states[n].rings[ring]; Joined(r.accepted) == AllTaken(r.taken) + r.waiting
  {
    RunsAreSound(states, actions, n);
  }

  /** Every frame that is sent begins at a frame boundary of its ring, and is whole frames of that ring's
      channels: left stays left. */
  lemma SentFramesAreAligned(states: seq<State>, actions: seq<Action>, n: nat, ring: nat, i: nat)
    requires IsRun(states, actions) && n <= |actions| && ring < |states[n].rings|
    requires i < |states[n].rings[ring].taken|
    ensures var r := states[n].rings[ring];
      r.channels > 0 && |AllTaken(r.taken[..i])| % r.channels == 0 && |r.taken[i].samples| % r.channels == 0
  {
    RunsAreSound(states, actions, n);
    assert Streams(states[n].rings[ring]);
  }

  /** A block is accepted exactly when the whole of it fits, and what was accepted before stays. */
  lemma BlocksGoInWhole(states: seq<State>, actions: seq<Action>, n: nat)
    requires IsRun(states, actions) && n < |actions| && actions[n].Capture?
    ensures var a := actions[n]; var was, now := states[n].rings[a.ring], states[n + 1].rings[a.ring];
      now.accepted == was.accepted + (if |a.block| <= was.capacity - |was.waiting| then [a.block] else [])
  {
  }

  /** The send thread takes a frame whenever there is one, the oldest samples in the current ring, and nothing
      else then; no other ring is touched. */
  lemma ReadTakesTheOldest(states: seq<State>, actions: seq<Action>, n: nat)
    requires IsRun(states, actions) && n < |actions| && actions[n].Read?
    ensures HasCurrent(states[n])
    ensures var s := states[n]; var r := Current(s); var size := actions[n].frame * r.channels;
      if |r.waiting| < size then states[n + 1] == s
      else
        && 0 <= size <= |r.waiting|
        && states[n + 1] == s.(rings := s.rings[s.current.value := r.(waiting := r.waiting[size..],
                                                taken := r.taken + [Sent(r.waiting[..size])])])
  {
    RunsAreSound(states, actions, n);
    assert Streams(Current(states[n]));
    FramesAreAligned(actions[n].frame, Current(states[n]).channels);
    assert states[n + 1] == Next(states[n], actions[n]);
  }

  /** While the send thread throws away what it has counted, no one but a callback touches its ring, and that
      only adds. */
  lemma {:induction false} CountedStaysInFront(states: seq<State>, actions: seq<Action>, i: nat, n: nat)
    requires IsRun(states, actions) && i < n <= |actions| && actions[i].CountQueued?
    requires forall k :: i < k < n ==> !actions[k].DiscardCounted?
    ensures HasCurrent(states[i]) && HasCurrent(states[n]) && states[n].current == states[i].current
    ensures states[n].counted == |Current(states[i]).waiting| <= |Current(states[n]).waiting|
    ensures Current(states[n]).waiting[..states[n].counted] == Current(states[i]).waiting
    ensures Current(states[n]).taken == Current(states[i]).taken
  {
    assert states[n] == Next(states[n - 1], actions[n - 1]);
    if i < n - 1 {
      CountedStaysInFront(states, actions, i, n - 1);
    }
  }

  /** What was waiting when it was counted is thrown away, and what came in since stays. */
  lemma DiscardDropsTheOld(states: seq<State>, actions: seq<Action>, i: nat, n: nat)
    requires IsRun(states, actions) && i < n < |actions| && actions[i].CountQueued? && actions[n].DiscardCounted?
    requires forall k :: i < k < n ==> !actions[k].DiscardCounted?
    ensures HasCurrent(states[i]) && HasCurrent(states[n]) && HasCurrent(states[n + 1])
    ensures Current(states[n + 1]).taken == Current(states[i]).taken + [Discarded(Current(states[i]).waiting)]
    ensures Current(states[n]).waiting == Current(states[i]).waiting + Current(states[n + 1]).waiting
  {
    CountedStaysInFront(states, actions, i, n);
    assert states[n + 1] == Next(states[n], actions[n]);
  }
}
