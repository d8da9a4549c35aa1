/** The reordering loop of fft (src-tauri/src/audio_tap.rs:311-324). */
module BitReversal {
  import opened Bits

  /** The weight of the top one of `bits` bits, if it is set. */
  function TopIf(bits: nat, isSet: bool): nat
    requires bits > 0
  {
    if isSet then Pow2(bits - 1) else 0
  }

  /** The lowest `bits` bits of `i` in reverse order. */
  function Rev(bits: nat, i: nat): (r: nat)
    ensures r < Pow2(bits)
  {
    if bits == 0 then 0 else Rev(bits - 1, i / 2) + TopIf(bits, i % 2 == 1)
  }

  /** Seen from the top bit instead of the lowest. */
  lemma {:induction false} RevOfTopBit(bits: nat, j: nat, top: bool)
    requires bits > 0 && j < Pow2(bits - 1)
    ensures Rev(bits, j + TopIf(bits, top)) == 2 * Rev(bits - 1, j) + (if top then 1 else 0)
  {
    if bits > 1 {
      RevOfTopBit(bits - 1, j / 2, top);
      var i := j + TopIf(bits, top);
      assert i / 2 == j / 2 + TopIf(bits - 1, top);
      assert i % 2 == j % 2;
    }
  }

  /** Reversing twice is the identity. */
  lemma {:induction false} RevTwice(bits: nat, i: nat)
    requires i < Pow2(bits)
    ensures Rev(bits, Rev(bits, i)) == i
  {
    if bits > 0 {
      RevTwice(bits - 1, i / 2);
      RevOfTopBit(bits, Rev(bits - 1, i / 2), i % 2 == 1);
    }
  }

  lemma RevOfZero(bits: nat)
    ensures Rev(bits, 0) == 0
  {
    if bits > 0 {
      RevOfZero(bits - 1);
    }
  }

  /** Adding one to a number whose bits are in reverse order: the carry runs from the top bit down. */
  function ReversedIncrement(bits: nat, j: nat): nat
    requires j < Pow2(bits)
  {
    if bits == 0 then j
    else if j < Pow2(bits - 1) then j + Pow2(bits - 1)
    else ReversedIncrement(bits - 1, j - Pow2(bits - 1))
  }

  lemma {:induction false} IncrementReverses(bits: nat, i: nat)
    requires i + 1 < Pow2(bits)
    ensures ReversedIncrement(bits, Rev(bits, i)) == Rev(bits, i + 1)
  {
    if bits > 0 && i % 2 == 1 {
      IncrementReverses(bits - 1, i / 2);
      assert (i + 1) / 2 == i / 2 + 1;
    }
  }

  /** Whether the carry stops before the bits run out. */
  predicate HasZeroBit(bits: nat, j: nat) {
    j < Pow2(bits) - 1
  }

  /** The inner loop: `j` goes from the reversal of i to that of i + 1. `bits` is log2(n). */
  method StepReversed(n: nat, j0: nat, ghost bits: nat) returns (j: nat)
    requires n == Pow2(bits)
    requires HasZeroBit(bits, j0)
    ensures j == ReversedIncrement(bits, j0)
  {
    j := j0;
    var bit := n / 2;
    ghost var p := bits;
    while And(j, bit) != 0
      invariant p > 0 && bit == Pow2(p - 1) && HasZeroBit(p, j)
      invariant ReversedIncrement(p, j) == ReversedIncrement(bits, j0)
      decreases p
    {
      TopBit(j, p - 1);
      j := Xor(j, bit);
      bit := bit / 2;
      p := p - 1;
    }
    TopBit(j, p - 1);
    j := Or(j, bit);
  }

  /** What the reordering leaves at place `k` once the pairs met up to `i` are exchanged. */
  predicate Exchanged(bits: nat, i: nat, k: nat) {
    k <= i || Rev(bits, k) <= i
  }

  predicate PartlyReversed(now: seq<real>, was: seq<real>, bits: nat, i: nat)
    requires |was| == |now| == Pow2(bits)
  {
    forall k {:trigger now[k]} :: 0 <= k < |now| ==>
      now[k] == if Exchanged(bits, i, k) then was[Rev(bits, k)] else was[k]
  }

  /** `now` holds the entries of `was` in bit-reversed order. */
  predicate Reversed(now: seq<real>, was: seq<real>, bits: nat)
    requires |was| == |now| == Pow2(bits)
  {
    forall k {:trigger now[k]} :: 0 <= k < |now| ==> now[k] == was[Rev(bits, k)]
  }

  /** The reordering undoes itself. */
  lemma ReversedTwice(a: seq<real>, b: seq<real>, c: seq<real>, bits: nat)
    requires |a| == |b| == |c| == Pow2(bits)
    requires Reversed(b, a, bits) && Reversed(c, b, bits)
    ensures c == a
  {
    forall k | 0 <= k < |a| ensures c[k] == a[k] {
      RevTwice(bits, k);
    }
  }

  lemma ExchangeStep(now: seq<real>, next: seq<real>, was: seq<real>, bits: nat, i: nat, j: nat)
    requires |was| == |now| == Pow2(bits)
    requires 0 < i < |now| && j == Rev(bits, i)
    requires PartlyReversed(now, was, bits, i - 1)
    requires next == if i < j then now[i := now[j]][j := now[i]] else now
    ensures PartlyReversed(next, was, bits, i)
  {
    RevTwice(bits, i);
    forall k | 0 <= k < |next|
      ensures next[k] == if Exchanged(bits, i, k) then was[Rev(bits, k)] else was[k]
    {
      RevTwice(bits, k);
    }
  }

  lemma NothingExchanged(was: seq<real>, bits: nat)
    requires |was| == Pow2(bits)
    ensures PartlyReversed(was, was, bits, 0)
  {
    RevOfZero(bits);
    forall k | 0 <= k < |was| && Rev(bits, k) == 0 ensures k == 0 {
      RevTwice(bits, k);
    }
  }

  /** Exchanges two entries, as slice::swap does. */
  method Swap(a: array<real>, i: nat, j: nat)
    requires i < a.Length && j < a.Length
    modifies a
    ensures a[..] == old(a[..])[i := old(a[j])][j := old(a[i])]
  {
    a[i], a[j] := a[j], a[i];
  }

  /** Puts both arrays in bit-reversed order. */
  method Reorder(re: array<real>, im: array<real>, ghost bits: nat)
    requires re != im && re.Length == im.Length == Pow2(bits)
    modifies re, im
    ensures Reversed(re[..], old(re[..]), bits)
    ensures Reversed(im[..], old(im[..]), bits)
  {
    var n := re.Length;
    var j := 0;
    ghost var was, wasIm := re[..], im[..];
    RevOfZero(bits);
    NothingExchanged(was, bits);
    NothingExchanged(wasIm, bits);
    for i := 1 to n
      invariant j == Rev(bits, i - 1)
      invariant PartlyReversed(re[..], was, bits, i - 1)
      invariant PartlyReversed(im[..], wasIm, bits, i - 1)
    {
      hide PartlyReversed, Rev, ReversedIncrement, Pow2;
      ReversedAllOnes(bits, i - 1);
      j := StepReversed(n, j, bits);
      IncrementReverses(bits, i - 1);
      ghost var re0, im0 := re[..], im[..];
      if i < j {
        Swap(re, i, j);
        Swap(im, i, j);
      }
      ExchangeStep(re0, re[..], was, bits, i, j);
      ExchangeStep(im0, im[..], wasIm, bits, i, j);
    }
  }

  /** Only the last number has no zero bit. */
  lemma {:induction false} ReversedAllOnes(bits: nat, i: nat)
    requires i + 1 < Pow2(bits)
    ensures HasZeroBit(bits, Rev(bits, i))
  {
    if bits > 0 && i % 2 == 1 {
      ReversedAllOnes(bits - 1, i / 2);
    }
  }
}
