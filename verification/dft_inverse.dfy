/**
  Inverting the transform: the powers of a root of unity sum to zero, so
  conjugate - transform - conjugate, divided by the length, gives back the input.
 */
module FourierInverse {
  import opened Complexes
  import opened Fourier

  ghost function ConjAll(x: seq<Complex>): (y: seq<Complex>)
    ensures |y| == |x|
  {
    seq(|x|, k requires 0 <= k < |x| => Conj(x[k]))
  }

  /** conj(DFT(conj y)) / |y|, the form in which the analyser inverts a spectrum. */
  ghost function InverseDft(y: seq<Complex>, w: Complex): (x: seq<Complex>)
    ensures |x| == |y|
  {
    seq(|y|, m requires 0 <= m < |y| => Scale(1.0 / (|y| as real), Conj(DftAt(ConjAll(y), w, m))))
  }

  // ---------- sums of powers ----------

  lemma {:induction false} PowNegOne(d: nat)
    ensures Pow(Neg(ONE), d) == if d % 2 == 0 then ONE else Neg(ONE)
  {
    hide Mul, Neg;
    if d > 0 {
      PowNegOne(d - 1);
      MulUnits(Neg(ONE));
      NegOneSquared();
    }
  }

  ghost function Powers(w: Complex, d: nat): int -> Complex {
    k => Pow(w, d * k)
  }

  /** The powers of the N-th root, taken d at a time with 0 < d < N, cancel out. */
  lemma {:induction false} PowersCancel(root: nat -> Complex, n: nat, d: nat)
    requires Twiddles(root) && 0 < d < Pow2(n)
    ensures Sum(Powers(root(Pow2(n)), d), Pow2(n)) == ZERO
  {
    if d % 2 == 0 {
      PowersCancel(root, n - 1, d / 2);
      PowersCancelEven(root, n, d);
    } else {
      PowersCancelOdd(root, n, d);
    }
  }

  lemma PowersCancelEven(root: nat -> Complex, n: nat, d: nat)
    requires Twiddles(root) && n > 0 && d % 2 == 0
    requires Sum(Powers(root(Pow2(n - 1)), d / 2), Pow2(n - 1)) == ZERO
    ensures Sum(Powers(root(Pow2(n)), d), Pow2(n)) == ZERO
  {
    hide Mul, Add, Neg, Powers, Sum, Twiddles;
    var half := Pow2(n - 1);
    var f, g := Powers(root(Pow2(n)), d), Powers(root(half), d / 2);
    SumSplit(f, half, half);
    forall i | 0 <= i < half
      ensures f(i) == g(i) && f(half + i) == f(i)
    {
      PowersHalf(root, n, d, i);
    }
    SumExt(f, g, half);
    SumExt(i => f(half + i), f, half);
    AddZero(ZERO);
  }

  lemma PowersCancelOdd(root: nat -> Complex, n: nat, d: nat)
    requires Twiddles(root) && n > 0 && d % 2 == 1
    ensures Sum(Powers(root(Pow2(n)), d), Pow2(n)) == ZERO
  {
    hide Mul, Add, Neg, Powers, Sum, Twiddles;
    var half := Pow2(n - 1);
    var f := Powers(root(Pow2(n)), d);
    SumSplit(f, half, half);
    forall i | 0 <= i < half
      ensures f(half + i) == Mul(Neg(ONE), f(i))
    {
      PowersHalf(root, n, d, i);
    }
    SumExt(i => f(half + i), i => Mul(Neg(ONE), f(i)), half);
    SumMul(Neg(ONE), f, half);
    MulNeg(ONE, Sum(f, half));
    MulUnits(Sum(f, half));
    SubIsAddNeg(Sum(f, half), Sum(f, half));
  }

  lemma PowersHalf(root: nat -> Complex, n: nat, d: nat, i: nat)
    requires Twiddles(root) && n > 0
    ensures d % 2 == 0 ==> Powers(root(Pow2(n)), d)(i) == Powers(root(Pow2(n - 1)), d / 2)(i)
    ensures d % 2 == 0 ==> Powers(root(Pow2(n)), d)(Pow2(n - 1) + i) == Powers(root(Pow2(n)), d)(i)
    ensures d % 2 == 1 ==> Powers(root(Pow2(n)), d)(Pow2(n - 1) + i) == Mul(Neg(ONE), Powers(root(Pow2(n)), d)(i))
  {
    hide Mul, Neg, Pow;
    var w, half := root(Pow2(n)), Pow2(n - 1);
    assert Pow(w, d * (half + i)) == Mul(Pow(Neg(ONE), d), Pow(w, d * i)) by {
      DistributeLeft(d, half, i);
      PowAdd(w, half * d, d * i);
      PowMul(w, half, d);
      RootHalf(root, n - 1);
    }
    PowNegOne(d);
    MulUnits(Pow(w, d * i));
    if d % 2 == 0 {
      DoubledIndex(d / 2, i);
      PowMul(w, 2, (d / 2) * i);
      PowBase(w);
      RootSquare(root, n - 1);
    }
  }

  lemma DistributeLeft(d: int, a: int, b: int)
    ensures d * (a + b) == a * d + d * b
  {}

  lemma {:induction false} SumOnes(f: int -> Complex, n: nat)
    requires forall i | 0 <= i < n :: f(i) == ONE
    ensures Sum(f, n) == Complex(n as real, 0.0)
  {
    if n > 0 {
      SumOnes(f, n - 1);
    }
  }

  lemma {:induction false} SumSingle(f: int -> Complex, n: nat, m: nat)
    requires m < n && forall i | 0 <= i < n && i != m :: f(i) == ZERO
    ensures Sum(f, n) == f(m)
  {
    hide Add;
    if m == n - 1 {
      SumZero(f, n - 1);
    } else {
      SumSingle(f, n - 1, m);
    }
    AddZero(f(m));
  }

  // ---------- orthogonality ----------

  /** One term of the sum over k of conj(w)^(j k) w^(k m). */
  ghost function CrossTerm(w: Complex, j: int, m: int): int -> Complex {
    k => Mul(Pow(Conj(w), j * k), Pow(w, k * m))
  }

  lemma CrossTermLeft(w: Complex, j: nat, m: nat, k: nat)
    requires j <= m && Mul(w, Conj(w)) == ONE
    ensures CrossTerm(w, j, m)(k) == Powers(w, m - j)(k)
  {
    hide Mul, Pow, Conj;
    var u := Pow(Conj(w), j * k);
    assert k * m == j * k + (m - j) * k;
    PowAdd(w, j * k, (m - j) * k);
    MulAssoc(u, Pow(w, j * k), Pow(w, (m - j) * k));
    PowProduct(Conj(w), w, j * k);
    MulComm(w, Conj(w));
    PowOne(j * k);
    MulUnits(Pow(w, (m - j) * k));
  }

  lemma CrossTermRight(w: Complex, j: nat, m: nat, k: nat)
    requires m <= j && Mul(w, Conj(w)) == ONE
    ensures CrossTerm(w, j, m)(k) == Conj(Powers(w, j - m)(k))
  {
    hide Mul, Pow, Conj;
    var u := Pow(w, k * m);
    assert j * k == (j - m) * k + k * m;
    PowAdd(Conj(w), (j - m) * k, k * m);
    MulAssoc(Pow(Conj(w), (j - m) * k), Pow(Conj(w), k * m), u);
    PowProduct(Conj(w), w, k * m);
    MulComm(w, Conj(w));
    PowOne(k * m);
    MulUnits(Pow(Conj(w), (j - m) * k));
    PowConj(w, (j - m) * k);
  }

  lemma Orthogonal(root: nat -> Complex, n: nat, j: nat, m: nat)
    requires Twiddles(root) && j < Pow2(n) && m < Pow2(n)
    ensures Sum(CrossTerm(root(Pow2(n)), j, m), Pow2(n))
         == if j == m then Complex(Pow2(n) as real, 0.0) else ZERO
  {
    hide Mul, Pow, Conj, CrossTerm;
    var size, w := Pow2(n), root(Pow2(n));
    var f := CrossTerm(w, j, m);
    RootSquare(root, n);
    if j <= m {
      forall k | 0 <= k < size
        ensures f(k) == Powers(w, m - j)(k)
      {
        CrossTermLeft(w, j, m, k);
      }
      if j == m {
        forall k | 0 <= k < size
          ensures f(k) == ONE
        {
          PowOne(0);
          assert 0 * k == 0 && Pow(w, 0) == ONE by { PowZero(w); }
        }
        SumOnes(f, size);
      } else {
        SumExt(f, Powers(w, m - j), size);
        PowersCancel(root, n, m - j);
      }
    } else {
      var g := Powers(w, j - m);
      forall k | 0 <= k < size
        ensures f(k) == Conj(g(k))
      {
        CrossTermRight(w, j, m, k);
      }
      SumExt(f, k => Conj(g(k)), size);
      SumConj(g, size);
      PowersCancel(root, n, j - m);
      ConjUnits();
    }
  }

  lemma PowZero(w: Complex)
    ensures Pow(w, 0) == ONE
  {}

  // ---------- the inverse ----------

  /** The double sum behind transforming twice. */
  ghost function TwiceTerm(x: seq<Complex>, w: Complex, m: int): (int, int) -> Complex {
    (k, j) => Mul(Conj(At(x, j)), CrossTerm(w, j, m)(k))
  }

  lemma TwiceRow(x: seq<Complex>, w: Complex, m: nat, k: nat)
    ensures Mul(Conj(DftAt(x, w, k)), Pow(w, k * m)) == Sum(j => TwiceTerm(x, w, m)(k, j), |x|)
  {
    hide Mul, Pow, Conj, Add, At, Sum;
    var p := Pow(w, k * m);
    var f := (j: int) => Mul(At(x, j), Pow(w, j * k));
    var g := (j: int) => Conj(f(j));
    SumConj(f, |x|);
    SumMul(p, g, |x|);
    MulComm(p, Sum(g, |x|));
    forall j | 0 <= j < |x|
      ensures Mul(p, g(j)) == TwiceTerm(x, w, m)(k, j)
    {
      ConjMul(At(x, j), Pow(w, j * k));
      PowConj(w, j * k);
      MulComm(p, g(j));
      MulAssoc(Conj(At(x, j)), Pow(Conj(w), j * k), p);
      assert CrossTerm(w, j, m)(k) == Mul(Pow(Conj(w), j * k), p);
    }
    SumExt(j => Mul(p, g(j)), j => TwiceTerm(x, w, m)(k, j), |x|);
    SumExt(f, n => Mul(At(x, n), Pow(w, n * k)), |x|);
  }

  lemma TwiceColumn(root: nat -> Complex, n: nat, x: seq<Complex>, m: nat, j: nat)
    requires Twiddles(root) && |x| == Pow2(n) && m < |x| && j < |x|
    ensures Sum(k => TwiceTerm(x, root(|x|), m)(k, j), |x|)
         == if j == m then Mul(Conj(x[m]), Complex(|x| as real, 0.0)) else ZERO
  {
    hide Mul, Pow, Conj, Add, CrossTerm, Sum;
    var cross := CrossTerm(root(|x|), j, m);
    SumMul(Conj(x[j]), cross, |x|);
    forall k | 0 <= k < |x|
      ensures TwiceTerm(x, root(|x|), m)(k, j) == Mul(Conj(x[j]), cross(k))
    {
      assert At(x, j) == x[j];
    }
    SumExt(k => TwiceTerm(x, root(|x|), m)(k, j), k => Mul(Conj(x[j]), cross(k)), |x|);
    Orthogonal(root, n, j, m);
    MulUnits(Conj(x[j]));
  }

  /** Transforming the conjugated transform yields the conjugated input, N times over. */
  lemma TransformTwice(root: nat -> Complex, n: nat, x: seq<Complex>, m: nat)
    requires Twiddles(root) && |x| == Pow2(n) && m < |x|
    ensures var w := root(|x|);
            DftAt(ConjAll(Dft(x, w)), w, m) == Mul(Conj(x[m]), Complex(|x| as real, 0.0))
  {
    hide Mul, Pow, Conj, Add, TwiceTerm, Sum;
    var size, w := |x|, root(|x|);
    var y := ConjAll(Dft(x, w));
    var t := TwiceTerm(x, w, m);
    var rows := (k: int) => Sum(j => t(k, j), size);
    var columns := (j: int) => Sum(k => t(k, j), size);
    forall k | 0 <= k < size
      ensures Mul(At(y, k), Pow(w, k * m)) == rows(k)
    {
      TwiceRow(x, w, m, k);
    }
    SumExt(k => Mul(At(y, k), Pow(w, k * m)), rows, size);
    SumSwap(t, size, size);
    forall j | 0 <= j < size
      ensures columns(j) == if j == m then Mul(Conj(x[m]), Complex(size as real, 0.0)) else ZERO
    {
      TwiceColumn(root, n, x, m, j);
    }
    SumSingle(columns, size, m);
  }

  /** conj - transform - conj over N undoes the transform. */
  lemma InverseOfDft(root: nat -> Complex, n: nat, x: seq<Complex>)
    requires Twiddles(root) && |x| == Pow2(n)
    ensures InverseDft(Dft(x, root(|x|)), root(|x|)) == x
  {
    hide Dft, DftAt, ConjAll;
    var w, y := root(|x|), InverseDft(Dft(x, root(|x|)), root(|x|));
    forall m | 0 <= m < |x|
      ensures y[m] == x[m]
    {
      TransformTwice(root, n, x, m);
      Unscale(x[m], |x| as real);
    }
  }

  lemma ScaleIsMul(c: real, a: Complex)
    ensures Scale(c, a) == Mul(Complex(c, 0.0), a)
  {}

  /** The transform of a scaled sequence is the scaled transform. */
  lemma DftOfScaled(c: real, x: seq<Complex>, y: seq<Complex>, w: Complex, m: nat)
    requires |x| == |y| && forall k | 0 <= k < |x| :: y[k] == Scale(c, x[k])
    ensures DftAt(y, w, m) == Scale(c, DftAt(x, w, m))
  {
    hide Mul, Pow, Scale, Sum;
    var z := Complex(c, 0.0);
    var f, g := (n: int) => Mul(At(x, n), Pow(w, n * m)), (n: int) => Mul(At(y, n), Pow(w, n * m));
    forall k | 0 <= k < |x|
      ensures g(k) == Mul(z, f(k))
    {
      ScaleIsMul(c, x[k]);
      MulAssoc(z, x[k], Pow(w, k * m));
    }
    SumExt(g, k => Mul(z, f(k)), |x|);
    SumMul(z, f, |x|);
    SumExt(f, n => Mul(At(x, n), Pow(w, n * m)), |x|);
    SumExt(g, n => Mul(At(y, n), Pow(w, n * m)), |x|);
    ScaleIsMul(c, DftAt(x, w, m));
  }

  /** And transforming undoes the inverse. */
  lemma DftOfInverse(root: nat -> Complex, n: nat, y: seq<Complex>)
    requires Twiddles(root) && |y| == Pow2(n)
    ensures Dft(InverseDft(y, root(|y|)), root(|y|)) == y
  {
    hide Dft, DftAt, ConjAll, Mul, Scale;
    var w, z := root(|y|), ConjAll(y);
    var x, twice := InverseDft(y, w), ConjAll(Dft(z, w));
    InverseIsScaled(y, w);
    forall m | 0 <= m < |y|
      ensures Dft(x, w)[m] == y[m]
    {
      DftEntries(x, w, m);
      DftOfScaled(1.0 / (|y| as real), twice, x, w, m);
      TransformTwice(root, n, z, m);
      ConjAllAt(y, m);
      UnscaleBack(y[m], |y| as real);
    }
  }

  lemma DftEntries(x: seq<Complex>, w: Complex, m: nat)
    requires m < |x|
    ensures Dft(x, w)[m] == DftAt(x, w, m)
  {
    hide DftAt;
  }

  lemma InverseIsScaled(y: seq<Complex>, w: Complex)
    ensures var twice := ConjAll(Dft(ConjAll(y), w));
            |twice| == |y| && forall k | 0 <= k < |y| :: InverseDft(y, w)[k] == Scale(1.0 / (|y| as real), twice[k])
  {
    hide DftAt, Scale;
  }

  lemma ConjAllAt(y: seq<Complex>, m: nat)
    requires m < |y|
    ensures Conj(ConjAll(y)[m]) == y[m]
  {}

  lemma UnscaleBack(a: Complex, size: real)
    requires size > 0.0
    ensures Scale(1.0 / size, Mul(a, Complex(size, 0.0))) == a
  {
    Cancel(a.re, size);
    Cancel(a.im, size);
  }

  lemma Unscale(a: Complex, size: real)
    requires size > 0.0
    ensures Scale(1.0 / size, Conj(Mul(Conj(a), Complex(size, 0.0)))) == a
  {
    Cancel(a.re, size);
    Cancel(a.im, size);
  }

  lemma Cancel(a: real, size: real)
    requires size > 0.0
    ensures (1.0 / size) * (a * size) == a
  {}
}
