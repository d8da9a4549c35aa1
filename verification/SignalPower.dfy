/** What the power of a bin does and does not depend on. */
module SignalPower {
  import opened Wrappers
  import opened Bits
  import opened ComplexNumbers
  import Dft
  import Fft
  import opened SignalAnalysis

  // ----- bins that are turned -----

  /** `y` has the bins of `x`, each turned by a number of magnitude 1. */
  ghost predicate IsTurned(x: seq<Complex>, y: seq<Complex>, root: nat -> Complex, turn: nat -> Complex) {
    && |y| == |x|
    && forall k: nat :: NormSquared(turn(k)) == 1.0 &&
         Dft.Bin(x, Fft.RootOf(root, |x|), k) == Dft.Bin(y, Fft.RootOf(root, |x|), k).Times(turn(k))
  }

  lemma TurnedHasThePower(x: seq<Complex>, y: seq<Complex>, root: nat -> Complex, turn: nat -> Complex, k: nat)
    requires IsTurned(x, y, root, turn)
    ensures Power(y, root, k) == Power(x, root, k)
  {
    hide Dft.Bin, Fft.RootOf, NormSquared;
    NormOfProduct(Dft.Bin(y, Fft.RootOf(root, |x|), k), turn(k));
  }

  /** Turning the bins changes neither which is the strongest nor the frequency. */
  lemma TurnedSoundsTheSame(x: seq<Complex>, y: seq<Complex>, root: nat -> Complex, turn: nat -> Complex,
                            bin: nat, rate: real, frequency: Option<real>)
    requires |x| > 0 && IsTurned(x, y, root, turn)
    ensures Strongest(y, root, bin) <==> Strongest(x, root, bin)
    ensures Dominant(y, root, rate, frequency) <==> Dominant(x, root, rate, frequency)
  {
    forall k: nat ensures Power(y, root, k) == Power(x, root, k) {
      TurnedHasThePower(x, y, root, turn, k);
    }
    hide Power, IsTurned;
    assert forall b: nat :: Strongest(y, root, b) <==> Strongest(x, root, b);
  }

  // ----- a signal that begins elsewhere -----

  /** The signal, played in a circle, from its second sample on. */
  function Rotated(x: seq<Complex>): seq<Complex>
    requires x != []
  {
    x[1..] + [x[0]]
  }

  lemma SameLength(x: seq<Complex>)
    requires x != []
    ensures |Rotated(x)| == |x|
  {
  }

  lemma {:induction false} RotatedSum(x: seq<Complex>, w: Complex, k: nat, count: nat)
    requires count < |x|
    ensures Dft.PartialSum(Rotated(x), w, k, count).Times(Pow(w, k)).Plus(x[0])
         == Dft.PartialSum(x, w, k, count + 1)
  {
    hide Complex.Times, Complex.Plus;
    if count == 0 {
      FirstTerm(x, w, k);
    } else {
      RotatedSum(x, w, k, count - 1);
      assert Rotated(x)[count - 1] == x[count];
      assert k * count == k * (count - 1) + k;
      PowAdds(w, k * (count - 1), k);
      OneMoreTerm(Dft.PartialSum(Rotated(x), w, k, count - 1), x[count], Pow(w, k * (count - 1)), Pow(w, k), x[0]);
    }
  }

  lemma FirstTerm(x: seq<Complex>, w: Complex, k: nat)
    requires x != []
    ensures ZERO.Times(Pow(w, k)).Plus(x[0]) == Dft.PartialSum(x, w, k, 1)
  {
    assert Pow(w, k * 0) == ONE;
    assert Dft.PartialSum(x, w, k, 1) == ZERO.Plus(x[0].Times(ONE));
  }

  lemma OneMoreTerm(sum: Complex, term: Complex, p: Complex, q: Complex, first: Complex)
    ensures sum.Plus(term.Times(p)).Times(q).Plus(first) == sum.Times(q).Plus(first).Plus(term.Times(p.Times(q)))
  {
    TimesCommutes(sum.Plus(term.Times(p)), q);
    TimesDistributes(q, sum, term.Times(p));
    TimesCommutes(q, sum);
    TimesCommutes(q, term.Times(p));
    TimesAssociates(term, p, q);
  }

  /** Beginning one sample later turns bin `k` by the root to the power `k`. */
  lemma RotationTurnsBins(x: seq<Complex>, w: Complex, k: nat)
    requires x != [] && Pow(w, |x|) == ONE
    ensures Dft.Bin(Rotated(x), w, k).Times(Pow(w, k)) == Dft.Bin(x, w, k)
  {
    hide Complex.Times, Complex.Plus;
    var n := |x| - 1;
    RotatedSum(x, w, k, n);
    assert Rotated(x)[n] == x[0];
    assert k * n + k == |x| * k;
    PowAdds(w, k * n, k);
    PowOfUnit(w, |x|, k);
    OneMoreTerm(Dft.PartialSum(Rotated(x), w, k, n), x[0], Pow(w, k * n), Pow(w, k), ZERO);
    LastTerm(Dft.PartialSum(Rotated(x), w, k, n).Times(Pow(w, k)), x[0],
             Dft.PartialSum(Rotated(x), w, k, n).Plus(x[0].Times(Pow(w, k * n))).Times(Pow(w, k)));
  }

  lemma LastTerm(sum: Complex, first: Complex, all: Complex)
    ensures sum.Plus(ZERO).Plus(first.Times(ONE)) == sum.Plus(first) && all.Plus(ZERO) == all
  {
  }

  // ----- roots of unity have magnitude 1 -----

  function RealPow(r: real, e: nat): real {
    if e == 0 then 1.0 else RealPow(r, e - 1) * r
  }

  lemma {:induction false} NormOfPower(w: Complex, e: nat)
    ensures NormSquared(Pow(w, e)) == RealPow(NormSquared(w), e)
  {
    hide Complex.Times;
    if e > 0 {
      NormOfPower(w, e - 1);
      NormOfProduct(Pow(w, e - 1), w);
    }
  }

  lemma {:induction false} PowerGrows(r: real, e: nat)
    requires r >= 0.0
    ensures r > 1.0 ==> RealPow(r, e) >= 1.0 && (e > 0 ==> RealPow(r, e) > 1.0)
    ensures r < 1.0 ==> 0.0 <= RealPow(r, e) <= 1.0 && (e > 0 ==> RealPow(r, e) < 1.0)
  {
    if e > 0 {
      PowerGrows(r, e - 1);
      var p := RealPow(r, e - 1);
      if r > 1.0 {
        assert p * r >= 1.0 * r;
      } else if r < 1.0 {
        assert 0.0 <= p * r <= 1.0 * r;
      }
    }
  }

  lemma OnlyOneHasThePowerOne(r: real, e: nat)
    requires r >= 0.0 && e > 0 && RealPow(r, e) == 1.0
    ensures r == 1.0
  {
    PowerGrows(r, e);
  }

  lemma UnityHasMagnitudeOne(w: Complex, order: nat, k: nat)
    requires order > 0 && Pow(w, order) == ONE
    ensures NormSquared(Pow(w, k)) == 1.0
  {
    hide Pow, RealPow;
    NormOfPower(w, order);
    assert NormSquared(ONE) == 1.0;
    hide NormSquared;
    NormIsMagnitude(w);
    OnlyOneHasThePowerOne(NormSquared(w), order);
    NormOfPower(w, k);
    OnesPower(k);
  }

  lemma {:induction false} OnesPower(e: nat)
    ensures RealPow(1.0, e) == 1.0
  {
    if e > 0 {
      OnesPower(e - 1);
    }
  }

  lemma RootIsUnity(root: nat -> Complex, bits: nat)
    requires Fft.Roots(root, bits)
    ensures Pow(Fft.RootOf(root, Pow2(bits)), Pow2(bits)) == ONE
  {
    hide Complex.Times;
    if bits == 0 {
      TimesOne(ONE);
      assert Pow(ONE, 1) == Pow(ONE, 0).Times(ONE);
    } else {
      Fft.HalfTurn(root, bits, bits - 1);
      PowAdds(Fft.RootOf(root, Pow2(bits)), Pow2(bits - 1), Pow2(bits - 1));
      MinusOneSquared();
    }
  }

  function PowersOf(w: Complex): nat -> Complex {
    (k: nat) => Pow(w, k)
  }

  lemma RotationTurnsOne(x: seq<Complex>, w: Complex, k: nat)
    requires x != [] && Pow(w, |x|) == ONE
    ensures NormSquared(PowersOf(w)(k)) == 1.0
    ensures Dft.Bin(x, w, k) == Dft.Bin(Rotated(x), w, k).Times(PowersOf(w)(k))
  {
    hide Pow, Rotated, Dft.Bin, NormSquared, Complex.Times;
    UnityHasMagnitudeOne(w, |x|, k);
    RotationTurnsBins(x, w, k);
  }

  lemma RotationTurns(x: seq<Complex>, root: nat -> Complex, bits: nat)
    requires |x| == Pow2(bits) && x != [] && Fft.Roots(root, bits)
    ensures IsTurned(x, Rotated(x), root, PowersOf(Fft.RootOf(root, |x|)))
  {
    hide Fft.Roots, Fft.RootOf, Dft.Bin, NormSquared, PowersOf, Pow;
    RootIsUnity(root, bits);
    forall k: nat ensures NormSquared(PowersOf(Fft.RootOf(root, |x|))(k)) == 1.0
      ensures Dft.Bin(x, Fft.RootOf(root, |x|), k)
           == Dft.Bin(Rotated(x), Fft.RootOf(root, |x|), k).Times(PowersOf(Fft.RootOf(root, |x|))(k))
    {
      RotationTurnsOne(x, Fft.RootOf(root, |x|), k);
    }
  }

  /** A tone has its frequency wherever in its course it begins: a signal played in a circle has the same
      bins by power, the same strongest bin and the same dominant frequency from any sample on. */
  lemma RotatedSoundsTheSame(x: seq<Complex>, root: nat -> Complex, bits: nat,
                             bin: nat, rate: real, frequency: Option<real>)
    requires |x| == Pow2(bits) && x != [] && Fft.Roots(root, bits)
    ensures forall k: nat :: Power(Rotated(x), root, k) == Power(x, root, k)
    ensures Strongest(Rotated(x), root, bin) <==> Strongest(x, root, bin)
    ensures |Rotated(x)| == |x| && (Dominant(Rotated(x), root, rate, frequency) <==> Dominant(x, root, rate, frequency))
  {
    RotationTurns(x, root, bits);
    SameLength(x);
    hide Rotated, Fft.Roots, Pow2, Fft.RootOf, Power, IsTurned, PowersOf, Strongest, Dominant;
    var turn := PowersOf(Fft.RootOf(root, |x|));
    forall k: nat ensures Power(Rotated(x), root, k) == Power(x, root, k) {
      TurnedHasThePower(x, Rotated(x), root, turn, k);
    }
    TurnedSoundsTheSame(x, Rotated(x), root, turn, bin, rate, frequency);
  }

  // ----- and what is analyzed -----

  /** Only the end of the signal is looked at, each sample of it by its own weight. */
  lemma OnlyTheEndIsHeard(before: seq<real>, end: seq<real>, hann: (nat, nat) -> real, i: nat)
    requires i < |end|
    ensures Windowed(before + end, hann, |end|)[i] == Complex(end[i] * hann(i, |end|), 0.0)
    ensures Windowed(before + end, hann, |end|) == Windowed(end, hann, |end|)
  {
    var whole, alone := Windowed(before + end, hann, |end|), Windowed(end, hann, |end|);
    forall j | 0 <= j < |end| ensures whole[j] == alone[j] {
      assert (before + end)[|before| + j] == end[j];
    }
  }
}
