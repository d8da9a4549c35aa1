/** Exact complex arithmetic: what the analysis of src-tauri/src/audio_tap.rs does with pairs of
    floats, read over the reals. */
module ComplexNumbers {

  datatype Complex = Complex(re: real, im: real) {
    function Plus(other: Complex): Complex {
      Complex(re + other.re, im + other.im)
    }

    function Minus(other: Complex): Complex {
      Complex(re - other.re, im - other.im)
    }

    function Times(other: Complex): Complex {
      Complex(re * other.re - im * other.im, re * other.im + im * other.re)
    }
  }

  const ZERO := Complex(0.0, 0.0)
  const ONE := Complex(1.0, 0.0)
  const MINUS_ONE := Complex(-1.0, 0.0)

  function Pow(w: Complex, e: nat): Complex {
    if e == 0 then ONE else Pow(w, e - 1).Times(w)
  }

  lemma TimesCommutes(a: Complex, b: Complex)
    ensures a.Times(b) == b.Times(a)
  {
  }

  lemma TimesAssociates(a: Complex, b: Complex, c: Complex)
    ensures a.Times(b).Times(c) == a.Times(b.Times(c))
  {
  }

  lemma TimesOne(a: Complex)
    ensures a.Times(ONE) == a == ONE.Times(a)
  {
  }

  lemma ZeroIsNeutral(a: Complex)
    ensures a.Times(ZERO) == ZERO && ZERO.Plus(a) == a == a.Plus(ZERO)
  {
  }

  lemma MinusOneSquared()
    ensures MINUS_ONE.Times(MINUS_ONE) == ONE
  {
  }

  lemma MinusOneNegates(a: Complex, b: Complex, c: Complex)
    ensures a.Plus(b.Times(MINUS_ONE).Times(c)) == a.Minus(b.Times(c))
  {
  }

  lemma TimesDistributes(a: Complex, b: Complex, c: Complex)
    ensures a.Times(b.Plus(c)) == a.Times(b).Plus(a.Times(c))
  {
  }

  lemma {:induction false} PowAdds(w: Complex, a: nat, b: nat)
    ensures Pow(w, a + b) == Pow(w, a).Times(Pow(w, b))
  {
    if b == 0 {
      TimesOne(Pow(w, a));
    } else {
      PowAdds(w, a, b - 1);
      TimesAssociates(Pow(w, a), Pow(w, b - 1), w);
    }
  }

  lemma {:induction false} PowOfSquare(w: Complex, e: nat)
    ensures Pow(w.Times(w), e) == Pow(w, 2 * e)
  {
    if e > 0 {
      PowOfSquare(w, e - 1);
      TimesAssociates(Pow(w, 2 * e - 2), w, w);
      assert Pow(w, 2 * e) == Pow(w, 2 * e - 1).Times(w);
    }
  }

  lemma {:induction false} PowOfUnit(w: Complex, e: nat, times: nat)
    requires Pow(w, e) == ONE
    ensures Pow(w, e * times) == ONE
  {
    hide Complex.Times;
    if times > 0 {
      TimesOne(ONE);
      PowOfUnit(w, e, times - 1);
      assert e * times == e * (times - 1) + e;
      PowAdds(w, e * (times - 1), e);
    }
  }

  // ----- magnitudes -----

  function NormSquared(z: Complex): real {
    z.re * z.re + z.im * z.im
  }

  function Product(p: real, q: real): real {
    p * q
  }

  lemma SignOfProduct(p: real, q: real)
    ensures (p < 0.0 && q < 0.0) || (p > 0.0 && q > 0.0) ==> Product(p, q) > 0.0
    ensures p == 0.0 ==> Product(p, q) == 0.0
  {
  }

  lemma NormIsSum(z: Complex)
    ensures NormSquared(z) == Product(z.re, z.re) + Product(z.im, z.im)
  {
  }

  /** The squared magnitude: zero of zero only. */
  lemma NormIsMagnitude(z: Complex)
    ensures NormSquared(z) >= 0.0 && (NormSquared(z) == 0.0 <==> z == ZERO)
  {
    hide NormSquared, Product;
    NormIsSum(z);
    SignOfProduct(z.re, z.re);
    SignOfProduct(z.im, z.im);
  }

  /** Of a real number its square. */
  lemma NormOfReal(r: real)
    ensures NormSquared(Complex(r, 0.0)) == r * r
  {
  }

  /** And of a product the product. */
  lemma NormOfProduct(a: Complex, b: Complex)
    ensures NormSquared(a.Times(b)) == NormSquared(a) * NormSquared(b)
  {
    var re, im := a.re * b.re - a.im * b.im, a.re * b.im + a.im * b.re;
    var (p, q, r, s) := (a.re * b.re, a.im * b.im, a.re * b.im, a.im * b.re);
    assert re * re + im * im == p * p + q * q + r * r + s * s - 2.0 * (p * q) + 2.0 * (r * s);
    assert p * q == r * s;
    assert p * p == (a.re * a.re) * (b.re * b.re) && q * q == (a.im * a.im) * (b.im * b.im);
    assert r * r == (a.re * a.re) * (b.im * b.im) && s * s == (a.im * a.im) * (b.re * b.re);
  }
}
