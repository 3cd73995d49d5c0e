/**
  Exact complex arithmetic: pairs of reals, their powers and finite sums.
  Everything the Fourier modules need about the ring is stated here once, so
  that their own proofs never have to unfold a product into real parts.
 */
module Complexes {

  datatype Complex = Complex(re: real, im: real)

  const ZERO := Complex(0.0, 0.0)
  const ONE := Complex(1.0, 0.0)

  function Add(a: Complex, b: Complex): Complex {
    Complex(a.re + b.re, a.im + b.im)
  }

  function Sub(a: Complex, b: Complex): Complex {
    Complex(a.re - b.re, a.im - b.im)
  }

  function Neg(a: Complex): Complex {
    Complex(-a.re, -a.im)
  }

  function Mul(a: Complex, b: Complex): Complex {
    Complex(a.re * b.re - a.im * b.im, a.re * b.im + a.im * b.re)
  }

  function Scale(c: real, a: Complex): Complex {
    Complex(c * a.re, c * a.im)
  }

  function Conj(a: Complex): Complex {
    Complex(a.re, -a.im)
  }

  function Pow(w: Complex, n: int): Complex {
    if n <= 0 then ONE else Mul(Pow(w, n - 1), w)
  }

  /** f(0) + f(1) + ... + f(n - 1) */
  ghost function Sum(f: int -> Complex, n: nat): Complex {
    if n == 0 then ZERO else Add(Sum(f, n - 1), f(n - 1))
  }

  // ---------- ring laws ----------

  lemma AddComm(a: Complex, b: Complex)
    ensures Add(a, b) == Add(b, a)
  {}

  lemma AddAssoc(a: Complex, b: Complex, c: Complex)
    ensures Add(Add(a, b), c) == Add(a, Add(b, c))
  {}

  lemma AddSwap(a: Complex, b: Complex, c: Complex, d: Complex)
    ensures Add(Add(a, b), Add(c, d)) == Add(Add(a, c), Add(b, d))
  {}

  lemma AddZero(a: Complex)
    ensures Add(a, ZERO) == a && Add(ZERO, a) == a
  {}

  lemma SubIsAddNeg(a: Complex, b: Complex)
    ensures Sub(a, b) == Add(a, Neg(b))
    ensures Add(a, Neg(a)) == ZERO
  {}

  lemma MulComm(a: Complex, b: Complex)
    ensures Mul(a, b) == Mul(b, a)
  {}

  lemma MulAssoc(a: Complex, b: Complex, c: Complex)
    ensures Mul(Mul(a, b), c) == Mul(a, Mul(b, c))
  {}

  lemma MulAdd(a: Complex, b: Complex, c: Complex)
    ensures Mul(a, Add(b, c)) == Add(Mul(a, b), Mul(a, c))
  {}

  lemma MulUnits(a: Complex)
    ensures Mul(a, ONE) == a && Mul(ONE, a) == a
    ensures Mul(a, ZERO) == ZERO && Mul(ZERO, a) == ZERO
  {}

  lemma MulNeg(a: Complex, b: Complex)
    ensures Mul(a, Neg(b)) == Neg(Mul(a, b))
    ensures Mul(Neg(a), b) == Neg(Mul(a, b))
  {}

  lemma MulSwap(a: Complex, b: Complex, c: Complex, d: Complex)
    ensures Mul(Mul(a, b), Mul(c, d)) == Mul(Mul(a, c), Mul(b, d))
  {
    hide *;
    MulAssoc(a, b, Mul(c, d));
    MulAssoc(b, c, d);
    MulComm(b, c);
    MulAssoc(c, b, d);
    MulAssoc(a, c, Mul(b, d));
  }

  lemma ConjAdd(a: Complex, b: Complex)
    ensures Conj(Add(a, b)) == Add(Conj(a), Conj(b))
  {}

  lemma ConjMul(a: Complex, b: Complex)
    ensures Conj(Mul(a, b)) == Mul(Conj(a), Conj(b))
  {}

  /** The square of the modulus. */
  function Norm(a: Complex): real {
    a.re * a.re + a.im * a.im
  }

  lemma NormIsProduct(a: Complex)
    ensures Mul(a, Conj(a)) == Complex(Norm(a), 0.0)
  {}

  lemma RealProduct(x: real, y: real)
    ensures Mul(Complex(x, 0.0), Complex(y, 0.0)) == Complex(x * y, 0.0)
  {}

  /** Moduli multiply: a product turns and scales, and i turns by a quarter. */
  lemma NormOfProduct(a: Complex, b: Complex)
    ensures Norm(Mul(a, b)) == Norm(a) * Norm(b)
    ensures Mul(Complex(0.0, 1.0), Complex(0.0, 1.0)) == Neg(ONE)
  {
    hide Norm;
    NormIsProduct(Mul(a, b));
    NormIsProduct(a);
    NormIsProduct(b);
    ConjMul(a, b);
    MulSwap(a, b, Conj(a), Conj(b));
    RealProduct(Norm(a), Norm(b));
  }

  lemma NegNeg(a: Complex)
    ensures Neg(Neg(a)) == a
  {}

  lemma ConjReal(a: Complex)
    requires a.im == 0.0
    ensures Conj(a) == a
  {}

  lemma ConjUnits()
    ensures Conj(ONE) == ONE && Conj(ZERO) == ZERO
  {
    hide Conj;
    ConjReal(ONE);
    ConjReal(ZERO);
  }

  // ---------- powers ----------

  lemma {:induction false} PowAdd(w: Complex, m: nat, n: nat)
    ensures Pow(w, m + n) == Mul(Pow(w, m), Pow(w, n))
  {
    hide Mul, Add, Conj;
    if n == 0 {
      MulUnits(Pow(w, m));
    } else {
      PowAdd(w, m, n - 1);
      MulAssoc(Pow(w, m), Pow(w, n - 1), w);
    }
  }

  lemma {:induction false} PowMul(w: Complex, m: nat, n: nat)
    ensures Pow(w, m * n) == Pow(Pow(w, m), n)
  {
    hide Mul, Add, Conj;
    if n > 0 {
      PowMul(w, m, n - 1);
      assert m * n == m * (n - 1) + m;
      PowAdd(w, m * (n - 1), m);
    }
  }

  lemma {:induction false} PowProduct(v: Complex, w: Complex, n: nat)
    ensures Pow(Mul(v, w), n) == Mul(Pow(v, n), Pow(w, n))
  {
    hide Mul, Add, Conj;
    if n == 0 {
      MulUnits(ONE);
    } else {
      PowProduct(v, w, n - 1);
      MulSwap(Pow(v, n - 1), Pow(w, n - 1), v, w);
    }
  }

  lemma {:induction false} PowOne(n: nat)
    ensures Pow(ONE, n) == ONE
  {
    hide Mul, Add, Conj;
    if n > 0 {
      PowOne(n - 1);
      MulUnits(ONE);
    }
  }

  lemma {:induction false} PowConj(w: Complex, n: nat)
    ensures Conj(Pow(w, n)) == Pow(Conj(w), n)
  {
    hide Mul, Add, Conj;
    if n == 0 {
      ConjUnits();
    } else {
      PowConj(w, n - 1);
      ConjMul(Pow(w, n - 1), w);
    }
  }

  lemma PowBase(w: Complex)
    ensures Pow(w, 1) == w && Pow(w, 2) == Mul(w, w)
  {
    hide Mul, Add, Conj;
    MulUnits(w);
    assert Pow(w, 2) == Mul(Pow(w, 1), w);
  }

  // ---------- sums ----------

  lemma {:induction false} SumExt(f: int -> Complex, g: int -> Complex, n: nat)
    requires forall i | 0 <= i < n :: f(i) == g(i)
    ensures Sum(f, n) == Sum(g, n)
  {
    if n > 0 {
      SumExt(f, g, n - 1);
    }
  }

  lemma {:induction false} SumZero(f: int -> Complex, n: nat)
    requires forall i | 0 <= i < n :: f(i) == ZERO
    ensures Sum(f, n) == ZERO
  {
    if n > 0 {
      SumZero(f, n - 1);
    }
  }

  lemma {:induction false} SumAdd(f: int -> Complex, g: int -> Complex, n: nat)
    ensures Sum(i => Add(f(i), g(i)), n) == Add(Sum(f, n), Sum(g, n))
  {
    hide Mul, Add, Conj;
    if n == 0 {
      AddZero(ZERO);
    } else {
      SumAdd(f, g, n - 1);
      AddSwap(Sum(f, n - 1), Sum(g, n - 1), f(n - 1), g(n - 1));
    }
  }

  lemma {:induction false} SumMul(c: Complex, f: int -> Complex, n: nat)
    ensures Sum(i => Mul(c, f(i)), n) == Mul(c, Sum(f, n))
  {
    hide Mul, Add, Conj;
    if n == 0 {
      MulUnits(c);
    } else {
      SumMul(c, f, n - 1);
      MulAdd(c, Sum(f, n - 1), f(n - 1));
    }
  }

  lemma {:induction false} SumConj(f: int -> Complex, n: nat)
    ensures Conj(Sum(f, n)) == Sum(i => Conj(f(i)), n)
  {
    hide Mul, Add;
    if n > 0 {
      SumConj(f, n - 1);
      ConjAdd(Sum(f, n - 1), f(n - 1));
    }
  }

  /** A sum split into its even and its odd terms. */
  lemma {:induction false} SumEvenOdd(f: int -> Complex, n: nat)
    ensures Sum(f, 2 * n) == Add(Sum(i => f(2 * i), n), Sum(i => f(2 * i + 1), n))
  {
    hide Mul, Add, Conj;
    if n == 0 {
      AddZero(ZERO);
    } else {
      SumEvenOdd(f, n - 1);
      var even := (i: int) => f(2 * i);
      var odd := (i: int) => f(2 * i + 1);
      assert Sum(f, 2 * n) == Add(Add(Sum(f, 2 * n - 2), f(2 * n - 2)), f(2 * n - 1));
      assert Sum(even, n) == Add(Sum(even, n - 1), f(2 * (n - 1)));
      assert Sum(odd, n) == Add(Sum(odd, n - 1), f(2 * (n - 1) + 1));
      AddAssoc(Sum(f, 2 * n - 2), f(2 * n - 2), f(2 * n - 1));
      AddSwap(Sum(even, n - 1), Sum(odd, n - 1), f(2 * n - 2), f(2 * n - 1));
      SumExt(even, i => f(2 * i), n);
      SumExt(odd, i => f(2 * i + 1), n);
    }
  }

  /** A sum split at position m. */
  lemma {:induction false} SumSplit(f: int -> Complex, m: nat, n: nat)
    ensures Sum(f, m + n) == Add(Sum(f, m), Sum(i => f(m + i), n))
  {
    hide Mul, Add, Conj;
    if n == 0 {
      AddZero(Sum(f, m));
    } else {
      SumSplit(f, m, n - 1);
      AddAssoc(Sum(f, m), Sum(i => f(m + i), n - 1), f(m + n - 1));
    }
  }

  /** A sum read from its last term to its first. */
  lemma {:induction false} SumReverse(f: int -> Complex, n: nat)
    ensures Sum(f, n) == Sum(i => if 0 <= i < n then f(n - 1 - i) else ZERO, n)
  {
    hide Mul, Add, Conj;
    if n > 0 {
      var g := (i: int) => if 0 <= i < n then f(n - 1 - i) else ZERO;
      var h := (i: int) => if 0 <= i < n - 1 then f(n - 1 - 1 - i) else ZERO;
      var tail := (i: int) => g(1 + i);
      SumReverse(f, n - 1);
      assert Sum(f, n - 1) == Sum(h, n - 1);
      SumSplit(g, 1, n - 1);
      SumExt(h, tail, n - 1);
      assert Sum(g, 1) == g(0) by {
        assert Sum(g, 1) == Add(Sum(g, 0), g(0));
        AddZero(g(0));
      }
      AddComm(Sum(f, n - 1), f(n - 1));
      assert Sum(g, n) == Add(g(0), Sum(tail, n - 1));
    }
  }

  /** Two nested sums may be taken in either order. */
  lemma {:induction false} SumSwap(f: (int, int) -> Complex, m: nat, n: nat)
    ensures Sum(i => Sum(j => f(i, j), n), m) == Sum(j => Sum(i => f(i, j), m), n)
  {
    hide Mul, Add, Conj;
    var inner := (i: int) => Sum(j => f(i, j), n);
    var outer := (j: int) => Sum(i => f(i, j), m);
    if m == 0 {
      SumZero(outer, n);
    } else {
      SumSwap(f, m - 1, n);
      var left := (j: int) => Sum(i => f(i, j), m - 1);
      var right := (j: int) => f(m - 1, j);
      forall j | 0 <= j < n
        ensures outer(j) == Add(left(j), right(j))
      {
        var column := (i: int) => f(i, j);
        assert Sum(column, m) == Add(Sum(column, m - 1), column(m - 1));
      }
      SumExt(outer, j => Add(left(j), right(j)), n);
      SumAdd(left, right, n);
      assert Sum(inner, m) == Add(Sum(inner, m - 1), inner(m - 1));
    }
  }
}
