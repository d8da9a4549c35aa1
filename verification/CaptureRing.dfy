/** The ring captured audio waits in until it is sent, src-tauri/src/streaming.rs: the capture callback
    fills it (1624-1641), the send thread takes from it (2293-2325). Its storage is an array used in a
    circle; a chunk is written or read as the two slices it makes of it, all of it or nothing. */
module CaptureRing {

  type Sample = real

  function Least(a: nat, b: nat): nat {
    if a < b then a else b
  }

  /** Where `at` steps on from a place of a circle of `size` lead. */
  function Around(place: nat, at: nat, size: nat): (p: nat)
    requires place < size && at <= size
    ensures p < size
  {
    if place + at < size then place + at else place + at - size
  }

  /** The `len` samples from `readAt` on, around the circle. */
  function Circle(stored: seq<Sample>, readAt: nat, len: nat): (q: seq<Sample>)
    requires readAt < |stored| && len <= |stored|
    ensures |q| == len
    ensures forall i {:trigger q[i]} :: 0 <= i < len ==> q[i] == stored[Around(readAt, i, |stored|)]
  {
    if readAt + len <= |stored| then stored[readAt..readAt + len]
    else stored[readAt..] + stored[..readAt + len - |stored|]
  }

  /** `stored` with `samples` written from `at` on. */
  function Overlaid(stored: seq<Sample>, at: nat, samples: seq<Sample>): (r: seq<Sample>)
    requires at + |samples| <= |stored|
    ensures |r| == |stored|
    ensures forall j {:trigger r[j]} :: 0 <= j < |r| ==>
      r[j] == if at <= j < at + |samples| then samples[j - at] else stored[j]
  {
    stored[..at] + samples + stored[at + |samples|..]
  }

  /** Writing a chunk as two slices, at the end of the queue and from the start of the array, appends it. */
  lemma ChunkAppends(stored: seq<Sample>, readAt: nat, len: nat, samples: seq<Sample>)
    requires readAt < |stored| && len + |samples| <= |stored|
    ensures var at := Around(readAt, len, |stored|); var first := Least(|stored| - at, |samples|);
      && |samples| - first <= |stored|
      && Circle(Overlaid(Overlaid(stored, at, samples[..first]), 0, samples[first..]), readAt, len + |samples|)
         == Circle(stored, readAt, len) + samples
  {
    hide Circle, Overlaid;
    var at := Around(readAt, len, |stored|);
    var first := Least(|stored| - at, |samples|);
    var once := Overlaid(stored, at, samples[..first]);
    var twice := Overlaid(once, 0, samples[first..]);
    var now, was := Circle(twice, readAt, len + |samples|), Circle(stored, readAt, len);
    forall i | 0 <= i < len + |samples| ensures now[i] == (was + samples)[i] {
      var p := Around(readAt, i, |stored|);
      assert now[i] == twice[p];
      if i < len {
        assert twice[p] == once[p] == stored[p] && was[i] == stored[p];
      } else if p < |samples| - first {
        assert p == i - len - first;
      } else {
        assert twice[p] == once[p] && p - at == i - len;
      }
    }
  }

  /** Reading a chunk as two slices takes the oldest samples, and what is left begins behind them. */
  lemma ChunkTakes(stored: seq<Sample>, readAt: nat, len: nat, n: nat)
    requires readAt < |stored| && n <= len <= |stored|
    ensures var first := Least(|stored| - readAt, n);
      Circle(stored, readAt, len)[..n] == stored[readAt..readAt + first] + stored[..n - first]
    ensures Circle(stored, Around(readAt, n, |stored|), len - n) == Circle(stored, readAt, len)[n..]
  {
    hide Circle;
    var was := Circle(stored, readAt, len);
    var first := Least(|stored| - readAt, n);
    forall i | 0 <= i < n ensures was[i] == (stored[readAt..readAt + first] + stored[..n - first])[i] {
    }
    var rest := Circle(stored, Around(readAt, n, |stored|), len - n);
    forall i | 0 <= i < len - n ensures rest[i] == was[n + i] {
    }
  }

  class Ring {
    const data: array<Sample>
    const channels: nat
    var readAt: nat
    var len: nat

    ghost predicate Valid()
      reads this, data
    {
      readAt < data.Length && len <= data.Length
    }

    /** The samples that wait, the oldest first. */
    ghost function Queue(): (q: seq<Sample>)
      reads this, data
      requires Valid()
      ensures |q| == len
    {
      Circle(data[..], readAt, len)
    }

    constructor (capacity: nat, channels: nat)
      requires capacity > 0
      ensures Valid() && Queue() == [] && data.Length == capacity && this.channels == channels && fresh(data)
    {
      data := new Sample[capacity];
      this.channels := channels;
      readAt, len := 0, 0;
    }

    /** The callback's samples go in whole, over the wrap of the array if need be, or are dropped whole
        when there is no room for them. */
    method OnCapturedFrame(samples: seq<Sample>)
      requires Valid()
      modifies this`len, data
      ensures Valid()
      ensures Queue() == old(Queue()) + if |samples| <= data.Length - old(len) then samples else []
    {
      hide Circle, Overlaid;
      if |samples| > data.Length - len {
        return;
      }
      ghost var stored := data[..];
      var writeAt := Around(readAt, len, data.Length);
      var firstLen := Least(data.Length - writeAt, |samples|);
      ChunkAppends(stored, readAt, len, samples);
      CopyInto(data, writeAt, samples[..firstLen]);
      if firstLen < |samples| {
        CopyInto(data, 0, samples[firstLen..]);
      } else {
        assert Overlaid(data[..], 0, samples[firstLen..]) == data[..];
      }
      len := len + |samples|;
    }

    /** Throws away what was waiting when it was counted; what came in since stays. */
    method DiscardQueued(queued: nat)
      requires Valid() && queued <= len
      modifies this`readAt, this`len
      ensures Valid() && Queue() == old(Queue())[queued..]
    {
      Commit(queued);
    }

    /** Gives back the room of the first `n` samples. */
    method Commit(n: nat)
      requires Valid() && n <= len
      modifies this`readAt, this`len
      ensures Valid() && Queue() == old(Queue())[n..]
    {
      ChunkTakes(data[..], readAt, len, n);
      readAt := Around(readAt, n, data.Length);
      len := len - n;
    }

    /** The send thread takes one frame, if there is one, into its buffer. */
    method TakeFrame(n: nat, buffer: array<Sample>) returns (taken: bool)
      requires Valid() && n <= buffer.Length && buffer != data
      modifies this`readAt, this`len, buffer
      ensures Valid() && taken == (old(len) >= n)
      ensures taken ==> buffer[..n] == old(Queue())[..n] && Queue() == old(Queue())[n..]
      ensures buffer[n..] == old(buffer[n..])
      ensures !taken ==> Queue() == old(Queue()) && buffer[..] == old(buffer[..])
    {
      hide Circle, Overlaid, Around;
      if len < n {
        return false;
      }
      ghost var was, before := Queue(), buffer[..];
      var first, second := ChunkSlices(n);
      CopyInto(buffer, 0, first);
      if second != [] {
        CopyInto(buffer, |first|, second);
      }
      SlicesCopied(before, buffer[..], first, second);
      Commit(n);
      return true;
    }

    /** The two slices a chunk of `n` samples is read as. */
    method ChunkSlices(n: nat) returns (first: seq<Sample>, second: seq<Sample>)
      requires Valid() && n <= len
      ensures |first| + |second| == n && first + second == Queue()[..n]
    {
      var firstLen := Least(data.Length - readAt, n);
      ChunkTakes(data[..], readAt, len, n);
      first, second := data[readAt..readAt + firstLen], data[..n - firstLen];
    }
  }

  /** Copies samples to a slice, buffer[at..], one by one. */
  method CopyInto(buffer: array<Sample>, at: nat, slice: seq<Sample>)
    requires at + |slice| <= buffer.Length
    modifies buffer
    ensures buffer[..] == Overlaid(old(buffer[..]), at, slice)
  {
    for i := 0 to |slice|
      invariant buffer[..] == Overlaid(old(buffer[..]), at, slice[..i])
    {
      buffer[at + i] := slice[i];
      assert buffer[..] == Overlaid(old(buffer[..]), at, slice[..i + 1]);
    }
    assert slice[..|slice|] == slice;
  }

  lemma SlicesCopied(was: seq<Sample>, now: seq<Sample>, first: seq<Sample>, second: seq<Sample>)
    requires |now| == |was| && |first| + |second| <= |was|
    requires var once := Overlaid(was, 0, first);
      now == if second == [] then once else Overlaid(once, |first|, second)
    ensures now[..|first| + |second|] == first + second
    ensures now[|first| + |second|..] == was[|first| + |second|..]
  {
  }
}
