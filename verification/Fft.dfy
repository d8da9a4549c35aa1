/** The in-place radix-2 transform, src-tauri/src/audio_tap.rs:309-343, over exact reals. The
    cosines and sines it turns by are a parameter: all that is assumed of them is that they are
    roots of unity. */
module Fft {
  import opened Arithmetic
  import opened Bits
  import opened ComplexNumbers
  import opened Dft
  import BitReversal

  // ----- the roots of unity -----

  /** `root(len)` stands for cos and sin of -TAU / len: the half turn is -1, and turning by twice
      as fine an angle twice is turning by the angle. */
  ghost predicate Roots(root: nat -> Complex, bits: nat) {
    && (bits >= 1 ==> root(2) == MINUS_ONE)
    && (forall e :: 1 <= e < bits ==>
          root(Pow2(e + 1)).Times(root(Pow2(e + 1))) == root(Pow2(e)))
  }

  /** The assumption can be met: the half and the quarter turn, exactly. */
  lemma HalfAndQuarterTurn(root: nat -> Complex)
    requires root(2) == MINUS_ONE && root(4) == Complex(0.0, -1.0)
    ensures Roots(root, 2)
  {
    assert Pow2(1) == 2 && Pow2(2) == 4;
  }

  /** And the eighth of a turn, `r` being the cosine of it. */
  lemma EighthOfATurn(root: nat -> Complex, r: real)
    requires root(2) == MINUS_ONE && root(4) == Complex(0.0, -1.0) && root(8) == Complex(r, -r) && 2.0 * r * r == 1.0
    ensures Roots(root, 3)
  {
    assert Pow2(1) == 2 && Pow2(2) == 4 && Pow2(3) == 8;
    assert r * -r == -(r * r);
  }

  /** The root of a transform of `len` samples; one sample is not turned at all. */
  ghost function RootOf(root: nat -> Complex, len: nat): Complex {
    if len <= 1 then ONE else root(len)
  }

  lemma RootSquared(root: nat -> Complex, bits: nat, e: nat)
    requires Roots(root, bits) && e < bits
    ensures RootOf(root, Pow2(e + 1)).Times(RootOf(root, Pow2(e + 1))) == RootOf(root, Pow2(e))
  {
    if e == 0 {
      MinusOneSquared();
    }
  }

  lemma {:induction false} HalfTurn(root: nat -> Complex, bits: nat, e: nat)
    requires Roots(root, bits) && e < bits
    ensures Pow(RootOf(root, Pow2(e + 1)), Pow2(e)) == MINUS_ONE
  {
    hide Complex.Times;
    if e == 0 {
      assert Pow(MINUS_ONE, 1) == Pow(MINUS_ONE, 0).Times(MINUS_ONE);
      TimesOne(MINUS_ONE);
    } else {
      HalfTurn(root, bits, e - 1);
      PowOfSquare(RootOf(root, Pow2(e + 1)), Pow2(e - 1));
    }
  }

  // ----- one stage -----

  /** Blocks of `len` samples of `z` hold the transforms of the decimated parts of `x`: first all
      of the even samples' parts, then all of the odd samples'. */
  ghost predicate Transformed(z: seq<Complex>, x: seq<Complex>, len: nat, root: nat -> Complex)
    requires len >= 1
    decreases |x|
  {
    && |z| == |x|
    && if |x| <= len then
         |x| == len && forall k :: 0 <= k < len ==> z[k] == Bin(x, RootOf(root, len), k)
       else
         && |x| % 2 == 0
         && Transformed(z[..|x| / 2], Evens(x), len, root)
         && Transformed(z[|x| / 2..], Odds(x), len, root)
  }

  /** The butterfly `k` of the block at `start`: the two samples it crosses, before and after. */
  ghost predicate Crossed(now: seq<Complex>, was: seq<Complex>, w: Complex, start: nat, half: nat, k: nat)
    requires |now| == |was| && start + k + half < |was|
  {
    && now[start + k] == was[start + k].Plus(Pow(w, k).Times(was[start + k + half]))
    && now[start + k + half] == was[start + k].Minus(Pow(w, k).Times(was[start + k + half]))
  }

  /** The first `count` butterflies of a block are done. */
  ghost predicate BlockDone(now: seq<Complex>, was: seq<Complex>, w: Complex, start: nat, half: nat, count: nat)
    requires |now| == |was| && start + 2 * half <= |was| && count <= half
  {
    forall k :: 0 <= k < count ==> Crossed(now, was, w, start, half, k)
  }

  ghost predicate BlocksDone(now: seq<Complex>, was: seq<Complex>, w: Complex, half: nat, upto: nat)
    requires |now| == |was| && upto <= |was| && half >= 1
  {
    forall start: nat :: start + 2 * half <= upto && start % (2 * half) == 0 ==>
      BlockDone(now, was, w, start, half, half)
  }

  lemma {:induction false} PowersDivide(small: nat, big: nat)
    requires small <= big
    ensures Pow2(big) % Pow2(small) == 0 && Pow2(small) <= Pow2(big)
  {
    if small < big {
      PowersDivide(small, big - 1);
      MultiplesAdd(Pow2(big - 1), Pow2(big - 1), Pow2(small));
    }
  }

  lemma HalvesDone(now: seq<Complex>, was: seq<Complex>, w: Complex, half: nat, mid: nat)
    requires half >= 1 && |now| == |was| == 2 * mid && mid % (2 * half) == 0
    requires BlocksDone(now, was, w, half, |was|)
    ensures BlocksDone(now[..mid], was[..mid], w, half, mid)
    ensures BlocksDone(now[mid..], was[mid..], w, half, mid)
  {
    hide Pow, Complex.Times, Complex.Plus, Complex.Minus;
    forall start: nat | start + 2 * half <= mid && start % (2 * half) == 0
      ensures BlockDone(now[..mid], was[..mid], w, start, half, half)
      ensures BlockDone(now[mid..], was[mid..], w, start, half, half)
    {
      MultiplesAdd(start, mid, 2 * half);
      assert BlockDone(now, was, w, start, half, half);
      BlockShifts(now, was, w, start, half, 0, mid);
      assert BlockDone(now, was, w, start + mid, half, half);
      BlockShifts(now, was, w, start, half, mid, 2 * mid);
    }
  }

  lemma BlockShifts(now: seq<Complex>, was: seq<Complex>, w: Complex, start: nat, half: nat, lo: nat, hi: nat)
    requires |now| == |was| && lo <= hi <= |was| && start + 2 * half <= hi - lo
    requires BlockDone(now, was, w, start + lo, half, half)
    ensures BlockDone(now[lo..hi], was[lo..hi], w, start, half, half)
    ensures now[lo..hi] == if hi == |now| then now[lo..] else if lo == 0 then now[..hi] else now[lo..hi]
    ensures was[lo..hi] == if hi == |was| then was[lo..] else if lo == 0 then was[..hi] else was[lo..hi]
  {
    hide Pow, Complex.Times, Complex.Plus, Complex.Minus;
    forall k | 0 <= k < half ensures Crossed(now[lo..hi], was[lo..hi], w, start, half, k) {
      assert Crossed(now, was, w, start + lo, half, k);
    }
  }

  /** A stage takes transforms of `2^e` samples to transforms of twice as many. */
  lemma {:induction false} StageTransforms(now: seq<Complex>, was: seq<Complex>, x: seq<Complex>,
                                           root: nat -> Complex, bits: nat, size: nat, e: nat)
    requires e < size <= bits && Roots(root, bits)
    requires |now| == |was| == |x| == Pow2(size)
    requires Transformed(was, x, Pow2(e), root)
    requires BlocksDone(now, was, root(Pow2(e + 1)), Pow2(e), |was|)
    ensures Transformed(now, x, Pow2(e + 1), root)
  {
    var mid := Pow2(size - 1);
    if size == e + 1 {
      WholeBlock(now, was, x, root, bits, e);
    } else {
      PowersDivide(e + 1, size - 1);
      PowersDivide(e + 1, size);
      HalvesDone(now, was, root(Pow2(e + 1)), Pow2(e), mid);
      assert Pow2(e) < Pow2(size);
      StageTransforms(now[..mid], was[..mid], Evens(x), root, bits, size - 1, e);
      StageTransforms(now[mid..], was[mid..], Odds(x), root, bits, size - 1, e);
    }
  }

  lemma WholeBlock(now: seq<Complex>, was: seq<Complex>, x: seq<Complex>,
                   root: nat -> Complex, bits: nat, e: nat)
    requires e < bits && Roots(root, bits)
    requires |now| == |was| == |x| == Pow2(e + 1)
    requires Transformed(was, x, Pow2(e), root)
    requires BlocksDone(now, was, root(Pow2(e + 1)), Pow2(e), |was|)
    ensures Transformed(now, x, Pow2(e + 1), root)
  {
    hide Complex.Times, Complex.Plus, Complex.Minus, Roots, Pow, Bin;
    var half := Pow2(e);
    var w := RootOf(root, 2 * half);
    assert BlockDone(now, was, w, 0, half, half);
    forall k | 0 <= k < 2 * half ensures now[k] == Bin(x, w, k) {
      HalvesGiveBins(now, was, x, root, bits, e, if k < half then k else k - half);
    }
  }

  lemma HalvesGiveBins(now: seq<Complex>, was: seq<Complex>, x: seq<Complex>,
                       root: nat -> Complex, bits: nat, e: nat, k: nat)
    requires e < bits && Roots(root, bits) && k < Pow2(e)
    requires |now| == |was| == |x| == 2 * Pow2(e)
    requires Transformed(was, x, Pow2(e), root)
    requires BlockDone(now, was, RootOf(root, Pow2(e + 1)), 0, Pow2(e), Pow2(e))
    ensures now[k] == Bin(x, RootOf(root, Pow2(e + 1)), k)
    ensures now[k + Pow2(e)] == Bin(x, RootOf(root, Pow2(e + 1)), k + Pow2(e))
  {
    hide Complex.Times, Complex.Plus, Complex.Minus, Roots, Pow, Bin;
    var half := Pow2(e);
    HalfTurn(root, bits, e);
    RootSquared(root, bits, e);
    Butterfly(x, RootOf(root, Pow2(e + 1)), k, half);
    assert Crossed(now, was, RootOf(root, Pow2(e + 1)), 0, half, k);
    assert was[..half][k] == was[k] && was[half..][k] == was[k + half];
    assert Transformed(was[..half], Evens(x), half, root) && Transformed(was[half..], Odds(x), half, root);
  }

  /** Bit-reversed order is where the stages start: transforms of one sample each. */
  lemma {:induction false} ReversedIsDecimated(z: seq<Complex>, x: seq<Complex>, root: nat -> Complex, bits: nat)
    requires |z| == |x| == Pow2(bits)
    requires forall k :: 0 <= k < |z| ==> z[k] == x[BitReversal.Rev(bits, k)]
    ensures Transformed(z, x, 1, root)
  {
    if bits == 0 {
      assert BitReversal.Rev(0, 0) == 0;
      SingleBin(x, ONE);
    } else {
      var mid := Pow2(bits - 1);
      forall k | 0 <= k < mid
        ensures z[..mid][k] == Evens(x)[BitReversal.Rev(bits - 1, k)]
        ensures z[mid..][k] == Odds(x)[BitReversal.Rev(bits - 1, k)]
      {
        BitReversal.RevOfTopBit(bits, k, false);
        BitReversal.RevOfTopBit(bits, k, true);
      }
      ReversedIsDecimated(z[..mid], Evens(x), root, bits - 1);
      ReversedIsDecimated(z[mid..], Odds(x), root, bits - 1);
    }
  }

  lemma SingleBin(x: seq<Complex>, w: Complex)
    requires |x| == 1
    ensures Bin(x, w, 0) == x[0]
  {
    assert Pow(w, 0) == ONE;
    assert PartialSum(x, w, 0, 1) == PartialSum(x, w, 0, 0).Plus(x[0].Times(Pow(w, 0)));
  }

  // ----- the loops -----

  function Zip(re: seq<real>, im: seq<real>): (z: seq<Complex>)
    requires |re| == |im|
    ensures |z| == |re|
    ensures forall i :: 0 <= i < |z| ==> z[i] == Complex(re[i], im[i])
  {
    seq(|re|, i requires 0 <= i < |re| => Complex(re[i], im[i]))
  }

  ghost function Samples(re: array<real>, im: array<real>): (z: seq<Complex>)
    requires re.Length == im.Length
    reads re, im
    ensures |z| == re.Length
  {
    Zip(re[..], im[..])
  }

  /** The two lines at the heart of it: b becomes a - t, a becomes a + t, t being the turned b. */
  method Cross(re: array<real>, im: array<real>, a: nat, b: nat, cr: real, ci: real)
    requires re != im && re.Length == im.Length && a < b < re.Length
    modifies re, im
    ensures var was := old(Samples(re, im)); var t := Complex(cr, ci).Times(was[b]);
      Samples(re, im) == was[a := was[a].Plus(t)][b := was[a].Minus(t)]
  {
    var tr, ti := re[b] * cr - im[b] * ci, re[b] * ci + im[b] * cr;
    ghost var was := Samples(re, im);
    ghost var t := Complex(cr, ci).Times(was[b]);
    assert t == Complex(tr, ti);
    re[b] := re[a] - tr;
    im[b] := im[a] - ti;
    re[a] := re[a] + tr;
    im[a] := im[a] + ti;
    assert Samples(re, im)[a] == was[a].Plus(t);
    assert Samples(re, im)[b] == was[a].Minus(t);
  }

  /** All but the samples of the first `count` butterflies of a block. */
  ghost predicate Untouched(now: seq<Complex>, was: seq<Complex>, start: nat, half: nat, count: nat)
    requires |now| == |was|
  {
    forall i :: 0 <= i < |was| && !(start <= i < start + count || start + half <= i < start + half + count) ==>
      now[i] == was[i]
  }

  lemma BlockStep(next: seq<Complex>, now: seq<Complex>, was: seq<Complex>, w: Complex,
                  start: nat, half: nat, k: nat)
    requires |next| == |now| == |was| && start + 2 * half <= |was| && k < half
    requires BlockDone(now, was, w, start, half, k) && Untouched(now, was, start, half, k)
    requires var a, b := start + k, start + k + half; var t := Pow(w, k).Times(now[b]);
      next == now[a := now[a].Plus(t)][b := now[a].Minus(t)]
    ensures BlockDone(next, was, w, start, half, k + 1) && Untouched(next, was, start, half, k + 1)
  {
    hide Pow, Complex.Times, Complex.Plus, Complex.Minus;
    forall j | 0 <= j < k ensures Crossed(next, was, w, start, half, j) {
      assert Crossed(now, was, w, start, half, j);
    }
  }

  method Block(re: array<real>, im: array<real>, start: nat, len: nat, wr: real, wi: real)
    requires re != im && re.Length == im.Length
    requires len % 2 == 0 && start + len <= re.Length
    modifies re, im
    ensures var was, now := old(Samples(re, im)), Samples(re, im);
      && BlockDone(now, was, Complex(wr, wi), start, len / 2, len / 2)
      && now[..start] == was[..start] && now[start + len..] == was[start + len..]
  {
    var cr, ci := 1.0, 0.0;
    ghost var was, w := Samples(re, im), Complex(wr, wi);
    ghost var half := len / 2;
    for k := 0 to len / 2
      invariant Complex(cr, ci) == Pow(w, k)
      invariant BlockDone(Samples(re, im), was, w, start, half, k)
      invariant Untouched(Samples(re, im), was, start, half, k)
    {
      hide Complex.Times, Complex.Plus, Complex.Minus, Pow, BlockDone, Untouched, Zip;
      ghost var now := Samples(re, im);
      var a, b := start + k, start + k + len / 2;
      Cross(re, im, a, b, cr, ci);
      BlockStep(Samples(re, im), now, was, w, start, half, k);
      cr, ci := Turned(cr, ci, wr, wi, k);
    }
  }

  /** The next twiddle factor. */
  method Turned(cr: real, ci: real, wr: real, wi: real, ghost k: nat) returns (nr: real, ni: real)
    requires Complex(cr, ci) == Pow(Complex(wr, wi), k)
    ensures Complex(nr, ni) == Pow(Complex(wr, wi), k + 1)
  {
    nr, ni := cr * wr - ci * wi, cr * wi + ci * wr;
    assert Complex(nr, ni) == Complex(cr, ci).Times(Complex(wr, wi));
  }

  lemma BlocksExtend(now: seq<Complex>, mid: seq<Complex>, was: seq<Complex>, w: Complex, half: nat, start: nat)
    requires |now| == |mid| == |was| && half >= 1 && start + 2 * half <= |was|
    requires BlocksDone(mid, was, w, half, start) && mid[start..] == was[start..]
    requires start % (2 * half) == 0
    requires BlockDone(now, mid, w, start, half, half)
    requires now[..start] == mid[..start] && now[start + 2 * half..] == mid[start + 2 * half..]
    ensures BlocksDone(now, was, w, half, start + 2 * half)
    ensures now[start + 2 * half..] == was[start + 2 * half..]
  {
    hide Pow, Complex.Times, Complex.Plus, Complex.Minus;
    SameTail(mid, was, start, start + 2 * half);
    forall s: nat | s + 2 * half <= start + 2 * half && s % (2 * half) == 0
      ensures BlockDone(now, was, w, s, half, half)
    {
      if s < start {
        MultiplesAdd(s, start, 2 * half);
        SameBlock(now, mid, was, was, w, s, half);
      } else {
        SameBlock(now, now, was, mid, w, s, half);
      }
    }
  }

  lemma SameTail(a: seq<Complex>, b: seq<Complex>, from: nat, later: nat)
    requires |a| == |b| && from <= later <= |a| && a[from..] == b[from..]
    ensures a[later..] == b[later..]
    ensures forall i :: from <= i < |a| ==> a[i] == b[i]
  {
    forall i | from <= i < |a| ensures a[i] == b[i] {
      assert a[i] == a[from..][i - from] && b[i] == b[from..][i - from];
    }
  }

  lemma SameBlock(now: seq<Complex>, now0: seq<Complex>, was: seq<Complex>, was0: seq<Complex>,
                  w: Complex, start: nat, half: nat)
    requires |now| == |was| == |now0| == |was0| && start + 2 * half <= |was|
    requires BlockDone(now0, was0, w, start, half, half)
    requires now == now0 || (exists hi :: start + 2 * half <= hi <= |now| && now[..hi] == now0[..hi])
    requires was == was0 || was[start..] == was0[start..]
    ensures BlockDone(now, was, w, start, half, half)
  {
    hide Pow, Complex.Times, Complex.Plus, Complex.Minus;
    if was != was0 {
      SameTail(was, was0, start, start);
    }
    if now != now0 {
      var hi :| start + 2 * half <= hi <= |now| && now[..hi] == now0[..hi];
      assert forall i :: 0 <= i < hi ==> now[i] == now[..hi][i] == now0[i];
    }
    forall k | 0 <= k < half ensures Crossed(now, was, w, start, half, k) {
      assert Crossed(now0, was0, w, start, half, k);
    }
  }

  method Stage(re: array<real>, im: array<real>, len: nat, wr: real, wi: real)
    requires re != im && re.Length == im.Length
    requires len >= 2 && len % 2 == 0 && re.Length % len == 0
    modifies re, im
    ensures BlocksDone(Samples(re, im), old(Samples(re, im)), Complex(wr, wi), len / 2, re.Length)
  {
    var n := re.Length;
    var start := 0;
    ghost var was, w := Samples(re, im), Complex(wr, wi);
    while start < n
      invariant start <= n && start % len == 0
      invariant BlocksDone(Samples(re, im), was, w, len / 2, start)
      invariant Samples(re, im)[start..] == was[start..]
    {
      hide BlockDone, BlocksDone, Complex.Times;
      MultiplesAdd(start, n, len);
      ghost var mid := Samples(re, im);
      Block(re, im, start, len, wr, wi);
      BlocksExtend(Samples(re, im), mid, was, w, len / 2, start);
      MultiplesAdd(start, len, len);
      start := start + len;
    }
  }

  /** The stages, from blocks of two to the whole. */
  method Stages(re: array<real>, im: array<real>, root: nat -> Complex, ghost bits: nat, ghost x: seq<Complex>)
    requires re != im && re.Length == im.Length == Pow2(bits)
    requires Roots(root, bits)
    requires Transformed(Samples(re, im), x, 1, root)
    modifies re, im
    ensures Transformed(Samples(re, im), x, Pow2(bits), root)
  {
    var n := re.Length;
    var len := 2;
    ghost var e := 0;
    StagesLeft(0, bits);
    while len <= n
      invariant e <= bits && len == Pow2(e + 1) && len % 2 == 0
      invariant len <= n <==> e < bits
      invariant Transformed(Samples(re, im), x, Pow2(e), root)
      decreases bits - e
    {
      hide BlockDone, BlocksDone, Transformed, Roots, Complex.Times, Pow2;
      var w := root(len);
      StagesLeft(e, bits);
      ghost var was := Samples(re, im);
      Stage(re, im, len, w.re, w.im);
      StageTransforms(Samples(re, im), was, x, root, bits, bits, e);
      len := len * 2;
      e := e + 1;
      StagesLeft(e, bits);
    }
  }

  lemma StagesLeft(e: nat, bits: nat)
    requires e <= bits
    ensures Pow2(0) == 1 && Pow2(e + 1) == 2 * Pow2(e)
    ensures Pow2(e + 1) <= Pow2(bits) <==> e < bits
    ensures e < bits ==> Pow2(bits) % Pow2(e + 1) == 0
  {
    if e < bits {
      PowersDivide(e + 1, bits);
    }
  }

  /** For every power of two length the arrays end up holding, in place, the discrete Fourier
      transform of what they held: X[k] = sum over m of x[m] * root(n)^(k*m). */
  method Transform(re: array<real>, im: array<real>, root: nat -> Complex, ghost bits: nat)
    requires re != im && re.Length == im.Length == Pow2(bits)
    requires Roots(root, bits)
    modifies re, im
    ensures forall k :: 0 <= k < re.Length ==>
      Complex(re[k], im[k]) == Bin(old(Samples(re, im)), RootOf(root, re.Length), k)
  {
    hide Complex.Times, Bin, Roots, Transformed;
    ghost var x := Samples(re, im);
    BitReversal.Reorder(re, im, bits);
    ReversedIsDecimated(Samples(re, im), x, root, bits);
    Stages(re, im, root, bits, x);
    BinsInPlace(Samples(re, im), x, root, bits);
    assert forall k :: 0 <= k < re.Length ==> Samples(re, im)[k] == Complex(re[k], im[k]);
  }

  lemma BinsInPlace(z: seq<Complex>, x: seq<Complex>, root: nat -> Complex, bits: nat)
    requires |x| == Pow2(bits) && Transformed(z, x, Pow2(bits), root)
    ensures |z| == |x| && forall k :: 0 <= k < |x| ==> z[k] == Bin(x, RootOf(root, |x|), k)
  {
  }
}
