/** The discrete Fourier transform as the textbook sum, and the step that halves it. */
module Dft {
  import opened ComplexNumbers

  /** The first `count` terms of X[k] = sum over m of x[m] * w^(k*m). */
  function PartialSum(x: seq<Complex>, w: Complex, k: nat, count: nat): Complex
    requires count <= |x|
  {
    if count == 0 then ZERO
    else PartialSum(x, w, k, count - 1).Plus(x[count - 1].Times(Pow(w, k * (count - 1))))
  }

  /** Bin `k` of the transform of `x`, `w` being the root of unity the transform turns by. */
  function Bin(x: seq<Complex>, w: Complex, k: nat): Complex {
    PartialSum(x, w, k, |x|)
  }

  function Evens(x: seq<Complex>): (r: seq<Complex>)
    ensures |r| == |x| / 2
    ensures forall i :: 0 <= i < |r| ==> r[i] == x[2 * i]
  {
    seq(|x| / 2, i requires 0 <= i < |x| / 2 => x[2 * i])
  }

  function Odds(x: seq<Complex>): (r: seq<Complex>)
    ensures |r| == |x| / 2
    ensures forall i :: 0 <= i < |r| ==> r[i] == x[2 * i + 1]
  {
    seq(|x| / 2, i requires 0 <= i < |x| / 2 => x[2 * i + 1])
  }

  lemma Regroup(a: Complex, b: Complex, c: Complex, e: Complex, o: Complex, q: Complex)
    ensures a.Plus(c.Times(b)).Plus(e).Plus(o.Times(c.Times(q))) == a.Plus(e).Plus(c.Times(b.Plus(o.Times(q))))
  {
    TimesDistributes(c, b, o.Times(q));
    TimesAssociates(o, c, q);
    TimesCommutes(o, c);
    TimesAssociates(c, o, q);
  }

  lemma PairOfTwiddles(w: Complex, k: nat, p: nat)
    ensures Pow(w, k * (2 * p)) == Pow(w.Times(w), k * p)
    ensures Pow(w, k * (2 * p + 1)) == Pow(w, k).Times(Pow(w.Times(w), k * p))
  {
    hide Complex.Times;
    PowOfSquare(w, k * p);
    assert k * (2 * p) == 2 * (k * p);
    assert k * (2 * p + 1) == k + k * (2 * p);
    PowAdds(w, k, k * (2 * p));
  }

  /** The sum over all samples is the sum over the even ones plus w^k times the sum over the odd ones. */
  lemma {:induction false} SplitSum(x: seq<Complex>, w: Complex, k: nat, pairs: nat)
    requires 2 * pairs <= |x|
    ensures PartialSum(x, w, k, 2 * pairs)
         == PartialSum(Evens(x), w.Times(w), k, pairs)
            .Plus(Pow(w, k).Times(PartialSum(Odds(x), w.Times(w), k, pairs)))
  {
    hide Complex.Plus, Complex.Times;
    if pairs > 0 {
      var p := pairs - 1;
      SplitSum(x, w, k, p);
      var q := Pow(w.Times(w), k * p);
      PairOfTwiddles(w, k, p);
      SumTwice(x, w, k, p);
      Regroup(PartialSum(Evens(x), w.Times(w), k, p), PartialSum(Odds(x), w.Times(w), k, p),
              Pow(w, k), x[2 * p].Times(q), x[2 * p + 1], q);
    } else {
      ZeroIsNeutral(Pow(w, k));
      ZeroIsNeutral(ZERO);
    }
  }

  lemma SumTwice(x: seq<Complex>, w: Complex, k: nat, p: nat)
    requires 2 * p + 1 < |x|
    ensures PartialSum(x, w, k, 2 * p + 2)
         == PartialSum(x, w, k, 2 * p).Plus(x[2 * p].Times(Pow(w, k * (2 * p))))
            .Plus(x[2 * p + 1].Times(Pow(w, k * (2 * p + 1))))
  {
    assert PartialSum(x, w, k, 2 * p + 2)
        == PartialSum(x, w, k, 2 * p + 1).Plus(x[2 * p + 1].Times(Pow(w, k * (2 * p + 1))));
  }

  /** The bins repeat with the order of the root. */
  lemma {:induction false} SumIsPeriodic(x: seq<Complex>, w: Complex, k: nat, order: nat, count: nat)
    requires count <= |x|
    requires Pow(w, order) == ONE
    ensures PartialSum(x, w, k + order, count) == PartialSum(x, w, k, count)
  {
    hide Complex.Plus, Complex.Times;
    if count > 0 {
      var m := count - 1;
      SumIsPeriodic(x, w, k, order, m);
      assert (k + order) * m == k * m + order * m;
      PowAdds(w, k * m, order * m);
      PowOfUnit(w, order, m);
      TimesOne(Pow(w, k * m));
    }
  }

  /** One butterfly: two bins of the whole from one bin of each half, `h` being half the length. */
  lemma {:induction false} Butterfly(x: seq<Complex>, w: Complex, k: nat, h: nat)
    requires |x| == 2 * h
    requires Pow(w, h) == MINUS_ONE
    ensures Bin(x, w, k) == Bin(Evens(x), w.Times(w), k).Plus(Pow(w, k).Times(Bin(Odds(x), w.Times(w), k)))
    ensures Bin(x, w, k + h) == Bin(Evens(x), w.Times(w), k).Minus(Pow(w, k).Times(Bin(Odds(x), w.Times(w), k)))
  {
    hide Complex.Plus, Complex.Minus, Complex.Times;
    SplitSum(x, w, k, h);
    SplitSum(x, w, k + h, h);
    assert Pow(w.Times(w), h) == ONE by {
      PowOfSquare(w, h);
      PowAdds(w, h, h);
      MinusOneSquared();
    }
    SumIsPeriodic(Evens(x), w.Times(w), k, h, h);
    SumIsPeriodic(Odds(x), w.Times(w), k, h, h);
    PowAdds(w, k, h);
    MinusOneNegates(Bin(Evens(x), w.Times(w), k), Pow(w, k), Bin(Odds(x), w.Times(w), k));
  }
}
