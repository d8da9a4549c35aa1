/** What a recording is analyzed for: src-tauri/src/audio_tap.rs:256-307. */
module SignalAnalysis {
  import opened Wrappers
  import opened Bits
  import opened ComplexNumbers
  import Dft
  import Fft

  const FFT_WINDOW: nat := 65536
  const SHORTEST_WINDOW: nat := 64
  const SILENCE: real := 0.0001
  const DROPOUT_SECONDS: real := 0.0005
  const LEAST_POWER: real := 0.000000001

  // ----- the dominant frequency -----

  /** How many of `take` samples the transform looks at. */
  function WindowLength(take: nat): nat {
    NextPowerOfTwo(take) / (if IsPowerOfTwo(take) then 1 else 2)
  }

  /** The largest power of two not above what there is, and none for no samples. */
  lemma WindowIsLargestPowerOfTwo(take: nat) returns (bits: nat)
    requires take >= 1
    ensures WindowLength(take) == Pow2(bits)
    ensures Pow2(bits) <= take < Pow2(bits + 1)
    ensures take <= FFT_WINDOW ==> bits <= 16
  {
    bits := if IsPowerOfTwo(take) then Log2Up(take) else Log2Up(take) - 1;
    if !IsPowerOfTwo(take) {
      NextPowerOfTwoIsTight(take);
    }
    KnownPowers();
    if bits > 16 {
      Pow2IsMonotone(16, bits);
    }
  }

  /** The last `n` samples under the window. */
  function Windowed(signal: seq<real>, hann: (nat, nat) -> real, n: nat): (x: seq<Complex>)
    requires n <= |signal|
    ensures |x| == n
  {
    seq(n, i requires 0 <= i < n => Complex(signal[|signal| - n + i] * hann(i, n), 0.0))
  }

  ghost function Power(x: seq<Complex>, root: nat -> Complex, k: nat): real {
    NormSquared(Dft.Bin(x, Fft.RootOf(root, |x|), k))
  }

  /** `bin` is the first of the bins with the most energy, among those below half the length and
      without the constant part. */
  ghost predicate Strongest(x: seq<Complex>, root: nat -> Complex, bin: nat) {
    && 1 <= bin < |x| / 2
    && (forall k :: 1 <= k < |x| / 2 ==> Power(x, root, k) <= Power(x, root, bin))
    && (forall k :: 1 <= k < bin ==> Power(x, root, k) < Power(x, root, bin))
  }

  /** What the fold over the first bins comes to: none of them, with no power, or the strongest. */
  ghost predicate StrongestBelow(x: seq<Complex>, root: nat -> Complex, upto: nat, bin: nat, power: real) {
    && (forall k :: 1 <= k < upto ==> Power(x, root, k) <= power)
    && (forall k :: 1 <= k < bin ==> Power(x, root, k) < power)
    && (bin == 0 ==> power == 0.0)
    && (bin > 0 ==> bin < upto && power == Power(x, root, bin))
  }

  /** `n` is the largest power of two of samples there are, up to the window. */
  ghost predicate LargestWindow(samples: nat, n: nat, bits: nat) {
    n == Pow2(bits) && n <= samples && n <= FFT_WINDOW && (samples < 2 * n || n == FFT_WINDOW)
  }

  lemma WindowOf(samples: nat, take: nat) returns (bits: nat)
    requires take == if samples < FFT_WINDOW then samples else FFT_WINDOW
    requires take >= 1
    ensures LargestWindow(samples, WindowLength(take), bits) && bits <= 16
    ensures WindowLength(take) < SHORTEST_WINDOW <==> samples < SHORTEST_WINDOW
  {
    bits := WindowIsLargestPowerOfTwo(take);
    KnownPowers();
    if bits < 5 {
      Pow2IsMonotone(bits + 1, 6);
    } else if bits > 6 {
      Pow2IsMonotone(6, bits);
    }
    if bits < 15 {
      Pow2IsMonotone(bits + 1, 16);
    }
  }

  /** `frequency` is that of the strongest bin of `x`, or none if no bin has any energy to speak of. */
  ghost predicate Dominant(x: seq<Complex>, root: nat -> Complex, rate: real, frequency: Option<real>)
    requires |x| > 0
  {
    match frequency
    case Some(f) => exists bin: nat :: Strongest(x, root, bin) && Power(x, root, bin) > LEAST_POWER &&
                                       f == bin as real * rate / |x| as real
    case None => forall k :: 1 <= k < |x| / 2 ==> Power(x, root, k) <= LEAST_POWER
  }

  /** The bin with the most energy of the largest power of two of samples, over the exact transform;
      none for fewer than 64 samples or no more energy than 1e-9. The slice taken and the length
      transformed are always legal. */
  method DominantFrequency(signal: seq<real>, rate: real, hann: (nat, nat) -> real, root: nat -> Complex)
    returns (frequency: Option<real>)
    requires Fft.Roots(root, 16)
    ensures |signal| < SHORTEST_WINDOW ==> frequency == None
    ensures |signal| >= SHORTEST_WINDOW ==>
      exists n: nat, bits: nat :: LargestWindow(|signal|, n, bits) && n > 0 &&
        Dominant(Windowed(signal, hann, n), root, rate, frequency)
  {
    hide Dft.Bin, Fft.RootOf, Power, WindowLength, Pow2;
    var take := if |signal| < FFT_WINDOW then |signal| else FFT_WINDOW;
    var n := WindowLength(take);
    if take == 0 {
      return None;
    }
    ghost var bits := WindowOf(|signal|, take);
    if n < SHORTEST_WINDOW {
      return None;
    }
    frequency := DominantIn(signal, rate, hann, root, n, bits);
    assert LargestWindow(|signal|, n, bits);
  }

  method DominantIn(signal: seq<real>, rate: real, hann: (nat, nat) -> real, root: nat -> Complex,
                    n: nat, ghost bits: nat) returns (frequency: Option<real>)
    requires 2 <= n == Pow2(bits) && n <= |signal|
    requires Fft.Roots(root, bits)
    ensures Dominant(Windowed(signal, hann, n), root, rate, frequency)
  {
    hide Dft.Bin, Fft.RootOf, Fft.Roots, Power, Pow2;
    ghost var x := Windowed(signal, hann, n);
    var re := new real[n](i requires 0 <= i < n => signal[|signal| - n + i] * hann(i, n));
    var im := new real[n](_ => 0.0);
    assert Fft.Samples(re, im) == x;
    Fft.Transform(re, im, root, bits);
    var bin, power := StrongestBin(re, im, x, root);
    if power > LEAST_POWER {
      assert Strongest(x, root, bin);
      return Some(bin as real * rate / n as real);
    }
    return None;
  }

  method StrongestBin(re: array<real>, im: array<real>, ghost x: seq<Complex>, root: nat -> Complex)
    returns (bin: nat, power: real)
    requires re.Length == im.Length == |x| && |x| >= 2
    requires forall k :: 0 <= k < re.Length ==> Complex(re[k], im[k]) == Dft.Bin(x, Fft.RootOf(root, |x|), k)
    ensures StrongestBelow(x, root, |x| / 2, bin, power)
    ensures (exists k :: 1 <= k < |x| / 2 && Dft.Bin(x, Fft.RootOf(root, |x|), k) != ZERO) <==> power > 0.0
    ensures power > 0.0 ==> Strongest(x, root, bin)
  {
    bin, power := 0, 0.0;
    for k := 1 to re.Length / 2
      invariant StrongestBelow(x, root, k, bin, power)
      invariant bin > 0 ==> power > 0.0
    {
      hide Fft.RootOf, Dft.Bin;
      var next := re[k] * re[k] + im[k] * im[k];
      assert next == Power(x, root, k) by {
        assert Complex(re[k], im[k]) == Dft.Bin(x, Fft.RootOf(root, |x|), k);
      }
      if next > power {
        bin, power := k, next;
      }
    }
    PowerIsPositive(x, root);
  }

  lemma PowerIsPositive(x: seq<Complex>, root: nat -> Complex)
    ensures forall k: nat :: Power(x, root, k) >= 0.0 &&
                             (Power(x, root, k) > 0.0 <==> Dft.Bin(x, Fft.RootOf(root, |x|), k) != ZERO)
  {
    hide Dft.Bin, Fft.RootOf;
    forall k: nat
      ensures Power(x, root, k) >= 0.0 && (Power(x, root, k) > 0.0 <==> Dft.Bin(x, Fft.RootOf(root, |x|), k) != ZERO)
    {
      NormIsMagnitude(Dft.Bin(x, Fft.RootOf(root, |x|), k));
    }
  }

  // ----- dropouts -----

  function Abs(x: real): real {
    if x < 0.0 then -x else x
  }

  predicate Loud(sample: real) {
    Abs(sample) > SILENCE
  }

  /** signal[a..b] is a whole run of near-silence, a loud sample on either side of it. */
  predicate IsGap(signal: seq<real>, a: nat, b: nat) {
    && 0 < a <= b < |signal|
    && Loud(signal[a - 1]) && Loud(signal[b])
    && forall i :: a <= i < b ==> !Loud(signal[i])
  }

  /** The runs of near-silence at least `shortest` long between loud samples, the last of which is
      before `upto`. A run of no samples, between two loud ones in a row, is one of length 0. */
  function Gaps(signal: seq<real>, shortest: nat, upto: nat): set<(nat, nat)> {
    set a: nat, b: nat | 0 < a <= b < |signal| && b < upto && IsGap(signal, a, b) && b - a >= shortest :: (a, b)
  }

  /** (DROPOUT_SECONDS * rate) as usize: towards zero, and zero for what is below it. */
  function ShortestDropout(rate: real): nat {
    if DROPOUT_SECONDS * rate < 0.0 then 0 else (DROPOUT_SECONDS * rate).Floor
  }

  /** `position` and `rposition` of a loud sample. */
  method FirstAndLastLoud(signal: seq<real>) returns (found: bool, first: nat, last: nat)
    ensures found <==> exists i :: 0 <= i < |signal| && Loud(signal[i])
    ensures found ==> first <= last < |signal| && Loud(signal[first]) && Loud(signal[last])
    ensures found ==> forall i :: 0 <= i < |signal| && Loud(signal[i]) ==> first <= i <= last
  {
    found, first, last := false, 0, 0;
    for i := 0 to |signal|
      invariant found <==> exists j :: 0 <= j < i && Loud(signal[j])
      invariant found ==> first <= last < i && Loud(signal[first]) && Loud(signal[last])
      invariant found ==> forall j :: 0 <= j < i && Loud(signal[j]) ==> first <= j <= last
    {
      if Loud(signal[i]) {
        if !found {
          found, first := true, i;
        }
        last := i;
      }
    }
  }

  lemma GapsGrow(signal: seq<real>, shortest: nat, first: nat, e: nat, run: nat)
    requires first < e < |signal| && e - run > first
    requires Loud(signal[first]) && Loud(signal[e - run - 1])
    requires forall i :: e - run <= i < e ==> !Loud(signal[i])
    ensures Gaps(signal, shortest, e + 1)
         == Gaps(signal, shortest, e) + if Loud(signal[e]) && run >= shortest then {(e - run, e)} else {}
    ensures (e - run, e) !in Gaps(signal, shortest, e)
  {
    forall a: nat, b: nat | (a, b) in Gaps(signal, shortest, e + 1) && (a, b) !in Gaps(signal, shortest, e)
      ensures a == e - run && b == e && run >= shortest
    {
      assert b == e;
      assert Loud(signal[a - 1]);
    }
    if Loud(signal[e]) && run >= shortest {
      assert IsGap(signal, e - run, e);
      assert (e - run, e) in Gaps(signal, shortest, e + 1);
    }
    assert forall g :: g in Gaps(signal, shortest, e) ==> g in Gaps(signal, shortest, e + 1);
  }

  lemma NoGapsAt(signal: seq<real>, shortest: nat, upto: nat)
    requires forall i :: 0 <= i < upto - 1 && i < |signal| ==> !Loud(signal[i])
    ensures Gaps(signal, shortest, upto) == {}
  {
    forall a: nat, b: nat | 0 < a <= b < |signal| && b < upto ensures !IsGap(signal, a, b) {
      assert !Loud(signal[a - 1]);
    }
  }

  lemma GapsEnd(signal: seq<real>, shortest: nat, upto: nat)
    requires upto <= |signal|
    requires forall i :: upto <= i < |signal| ==> !Loud(signal[i])
    ensures Gaps(signal, shortest, upto) == Gaps(signal, shortest, |signal|)
  {
    forall a: nat, b: nat | (a, b) in Gaps(signal, shortest, |signal|)
      ensures (a, b) in Gaps(signal, shortest, upto)
    {
      assert Loud(signal[b]);
    }
  }

  ghost predicate AnyLoud(signal: seq<real>) {
    exists i :: 0 <= i < |signal| && Loud(signal[i])
  }

  /** What the counting loop knows before it looks at sample `e`: the near-silence just before it
      is `run` long, and `count` runs have ended. */
  ghost predicate Counting(signal: seq<real>, shortest: nat, first: nat, e: nat, run: nat, count: nat) {
    && first <= e <= |signal| && run <= e - first
    && (forall i :: e - run <= i < e ==> !Loud(signal[i]))
    && if e == first then run == 0 && count == 0
       else run < e - first && Loud(signal[e - run - 1]) &&
            count == |Gaps(signal, shortest, e)| + (if shortest == 0 then 1 else 0)
  }

  lemma CountingStep(signal: seq<real>, shortest: nat, first: nat, e: nat, run: nat, count: nat)
    requires Counting(signal, shortest, first, e, run, count)
    requires e < |signal| && Loud(signal[first])
    requires forall i :: 0 <= i < first ==> !Loud(signal[i])
    ensures if !Loud(signal[e]) then Counting(signal, shortest, first, e + 1, run + 1, count)
            else Counting(signal, shortest, first, e + 1, 0, if run >= shortest then count + 1 else count)
  {
    hide Loud, Gaps;
    if e == first {
      NoGapsAt(signal, shortest, first + 1);
    } else {
      GapsGrow(signal, shortest, first, e, run);
    }
  }

  /** The loop over the loud part of the signal. A limit of zero samples, below 2 kHz, counts the
      first loud sample as the end of a run as well. */
  method CountRuns(signal: seq<real>, shortest: nat) returns (count: nat)
    ensures !AnyLoud(signal) ==> count == 0
    ensures count == |Gaps(signal, shortest, |signal|)| + if AnyLoud(signal) && shortest == 0 then 1 else 0
  {
    hide Loud, Gaps;
    var found, first, last := FirstAndLastLoud(signal);
    if !found {
      NoGapsAt(signal, shortest, |signal|);
      return 0;
    }
    var run := 0;
    count := 0;
    for e := first to last + 1
      invariant Counting(signal, shortest, first, e, run, count)
    {
      hide Counting;
      CountingStep(signal, shortest, first, e, run, count);
      if !Loud(signal[e]) {
        run := run + 1;
      } else {
        if run >= shortest {
          count := count + 1;
        }
        run := 0;
      }
    }
    GapsEnd(signal, shortest, last + 1);
  }

  method Dropouts(signal: seq<real>, rate: real) returns (count: nat)
    ensures !AnyLoud(signal) ==> count == 0
    ensures count == |Gaps(signal, ShortestDropout(rate), |signal|)| <==>
              (ShortestDropout(rate) >= 1 || !AnyLoud(signal))
  {
    count := CountRuns(signal, ShortestDropout(rate));
  }

  /** The limit is at least one sample from 2 kHz up, so at every rate a device opens with. */
  lemma RatesWithALimit(rate: real)
    ensures ShortestDropout(rate) >= 1 <==> rate >= 2000.0
  {
  }
}
