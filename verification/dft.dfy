/**
  The discrete Fourier transform as a sum, and what holds of it for any
  family of twiddle factors with root(2) = -1, root(2m)^2 = root(m) and unit
  modulus.  No trigonometry is needed: cos and sin enter the analyser's
  routines only through these three facts.
 */
module Fourier {
  import opened Complexes

  function Pow2(n: nat): (p: nat)
    ensures p >= 1
  {
    if n == 0 then 1 else 2 * Pow2(n - 1)
  }

  /** root(len) stands for exp(-2 pi i / len), as computed for each butterfly length. */
  ghost predicate TwiddleAt(root: nat -> Complex, s: nat) {
    && Mul(root(Pow2(s + 1)), root(Pow2(s + 1))) == root(Pow2(s))
    && Mul(root(Pow2(s)), Conj(root(Pow2(s)))) == ONE
  }

  ghost predicate Twiddles(root: nat -> Complex) {
    && root(2) == Neg(ONE)
    && forall s: nat :: TwiddleAt(root, s)
  }

  function At(x: seq<Complex>, i: int): Complex {
    if 0 <= i < |x| then x[i] else ZERO
  }

  /** The k-th term of the transform of x with respect to w, term by term. */
  ghost function DftAt(x: seq<Complex>, w: Complex, k: int): Complex {
    Sum(n => Mul(At(x, n), Pow(w, n * k)), |x|)
  }

  ghost function Dft(x: seq<Complex>, w: Complex): (y: seq<Complex>)
    ensures |y| == |x|
  {
    seq(|x|, k => DftAt(x, w, k))
  }

  /** The transform of the len elements x[off], x[off + step], x[off + 2 step], ... */
  ghost function Strided(x: seq<Complex>, off: nat, step: nat, len: nat, w: Complex, k: int): Complex {
    Sum(StridedTerm(x, off, step, w, k), len)
  }

  ghost function StridedTerm(x: seq<Complex>, off: nat, step: nat, w: Complex, k: int): int -> Complex {
    m => Mul(At(x, off + m * step), Pow(w, m * k))
  }

  // ---------- twiddle factors ----------

  lemma RootSquare(root: nat -> Complex, s: nat)
    requires Twiddles(root)
    ensures Mul(root(Pow2(s + 1)), root(Pow2(s + 1))) == root(Pow2(s))
    ensures Mul(root(Pow2(s)), Conj(root(Pow2(s)))) == ONE
  {
    assert TwiddleAt(root, s);
  }

  /** Half way round the circle lies -1. */
  lemma {:induction false} RootHalf(root: nat -> Complex, s: nat)
    requires Twiddles(root)
    ensures Pow(root(Pow2(s + 1)), Pow2(s)) == Neg(ONE)
  {
    hide Mul;
    if s == 0 {
      PowBase(root(2));
    } else {
      RootHalf(root, s - 1);
      RootSquare(root, s);
      PowMul(root(Pow2(s + 1)), 2, Pow2(s - 1));
      PowBase(root(Pow2(s + 1)));
    }
  }

  lemma RootFull(root: nat -> Complex, s: nat)
    requires Twiddles(root)
    ensures Pow(root(Pow2(s)), Pow2(s)) == ONE
  {
    hide Mul, Neg;
    NegOneSquared();
    if s == 0 {
      RootSquare(root, 0);
      PowBase(root(1));
      assert Pow2(1) == 2;
    } else {
      RootHalf(root, s - 1);
      PowMul(root(Pow2(s)), Pow2(s - 1), 2);
      PowBase(Neg(ONE));
    }
  }

  lemma NegOneSquared()
    ensures Mul(Neg(ONE), Neg(ONE)) == ONE
  {
    hide Mul, Neg;
    MulNeg(Neg(ONE), ONE);
    MulUnits(Neg(ONE));
    NegNeg(ONE);
  }

  // ---------- halving a transform ----------

  lemma StridedEvenOdd(x: seq<Complex>, off: nat, step: nat, len: nat, w: Complex, k: nat)
    ensures Strided(x, off, step, 2 * len, w, k)
         == Add(Strided(x, off, 2 * step, len, Mul(w, w), k),
                Mul(Pow(w, k), Strided(x, off + step, 2 * step, len, Mul(w, w), k)))
  {
    hide Mul, Add, Pow, StridedTerm;
    var f := StridedTerm(x, off, step, w, k);
    var even := StridedTerm(x, off, 2 * step, Mul(w, w), k);
    var odd := StridedTerm(x, off + step, 2 * step, Mul(w, w), k);
    SumEvenOdd(f, len);
    forall m | 0 <= m < len
      ensures f(2 * m) == even(m)
      ensures f(2 * m + 1) == Mul(Pow(w, k), odd(m))
    {
      EvenOddTerm(x, off, step, w, k, m);
    }
    SumExt(m => f(2 * m), even, len);
    SumExt(m => f(2 * m + 1), m => Mul(Pow(w, k), odd(m)), len);
    SumMul(Pow(w, k), odd, len);
  }

  lemma DoubledIndex(m: int, c: int)
    ensures (2 * m) * c == 2 * (m * c)
    ensures m * (2 * c) == 2 * (m * c)
    ensures (2 * m + 1) * c == c + 2 * (m * c)
  {}

  lemma EvenOddTerm(x: seq<Complex>, off: nat, step: nat, w: Complex, k: nat, m: nat)
    ensures StridedTerm(x, off, step, w, k)(2 * m) == StridedTerm(x, off, 2 * step, Mul(w, w), k)(m)
    ensures StridedTerm(x, off, step, w, k)(2 * m + 1)
         == Mul(Pow(w, k), StridedTerm(x, off + step, 2 * step, Mul(w, w), k)(m))
  {
    hide Mul, Add, Pow, At;
    DoubledIndex(m, step);
    DoubledIndex(m, k);
    var a := At(x, off + step + m * (2 * step));
    var p := Pow(Mul(w, w), m * k);
    assert Pow(w, 2 * (m * k)) == p by {
      PowMul(w, 2, m * k);
      PowBase(w);
    }
    PowAdd(w, k, 2 * (m * k));
    MulAssoc(a, Pow(w, k), p);
    MulComm(a, Pow(w, k));
    MulAssoc(Pow(w, k), a, p);
  }

  lemma TimesSum(m: nat, k: nat, period: nat)
    ensures m * (k + period) == m * k + period * m
    ensures m * k >= 0 && period * m >= 0
  {
  }

  /** A transform repeats itself when k goes once round. */
  lemma PowPeriod(w: Complex, k: nat, period: nat, m: nat)
    requires Pow(w, period) == ONE
    ensures Pow(w, m * (k + period)) == Pow(w, m * k)
  {
    hide Mul, Pow;
    TimesSum(m, k, period);
    PowMultiple(w, period, m);
    PowShift(w, m * (k + period), m * k, period * m);
  }

  lemma PowMultiple(w: Complex, period: nat, m: nat)
    requires Pow(w, period) == ONE
    ensures Pow(w, period * m) == ONE
  {
    hide Mul, Pow;
    PowMul(w, period, m);
    PowOne(m);
  }

  lemma PowShift(w: Complex, n: nat, a: nat, b: nat)
    requires n == a + b && Pow(w, b) == ONE
    ensures Pow(w, n) == Pow(w, a)
  {
    hide Mul, Pow;
    PowAdd(w, a, b);
    MulUnits(Pow(w, a));
  }

  lemma StridedPeriod(x: seq<Complex>, off: nat, step: nat, len: nat, w: Complex, k: nat, period: nat)
    requires Pow(w, period) == ONE
    ensures Strided(x, off, step, len, w, k + period) == Strided(x, off, step, len, w, k)
  {
    hide Mul, Add;
    forall m: nat
      ensures Pow(w, m * (k + period)) == Pow(w, m * k)
    {
      PowPeriod(w, k, period, m);
    }
    hide Pow;
    SumExt(StridedTerm(x, off, step, w, k + period), StridedTerm(x, off, step, w, k), len);
  }

  /** The butterfly: two half-length transforms give a full-length one. */
  lemma Butterfly(x: seq<Complex>, off: nat, step: nat, s: nat, root: nat -> Complex, k: nat)
    requires Twiddles(root)
    ensures var w := root(Pow2(s + 1));
            var u := Strided(x, off, 2 * step, Pow2(s), root(Pow2(s)), k);
            var v := Mul(Strided(x, off + step, 2 * step, Pow2(s), root(Pow2(s)), k), Pow(w, k));
            && Strided(x, off, step, Pow2(s + 1), w, k) == Add(u, v)
            && Strided(x, off, step, Pow2(s + 1), w, k + Pow2(s)) == Sub(u, v)
  {
    hide Mul, Add, Sub, Strided, Pow;
    var w, half := root(Pow2(s + 1)), Pow2(s);
    var even := Strided(x, off, 2 * step, half, root(half), k);
    var odd := Strided(x, off + step, 2 * step, half, root(half), k);
    RootSquare(root, s);
    StridedEvenOdd(x, off, step, half, w, k);
    StridedEvenOdd(x, off, step, half, w, k + half);
    RootFull(root, s);
    StridedPeriod(x, off, 2 * step, half, root(half), k, half);
    StridedPeriod(x, off + step, 2 * step, half, root(half), k, half);
    assert Pow(w, k + half) == Neg(Pow(w, k)) by {
      PowAdd(w, k, half);
      RootHalf(root, s);
      MulNeg(Pow(w, k), ONE);
      MulUnits(Pow(w, k));
    }
    MulNeg(Pow(w, k), odd);
    MulComm(Pow(w, k), odd);
    SubIsAddNeg(even, Mul(Pow(w, k), odd));
  }
}
