/**
  The analyser's round trips through the spectrum: FFTCut / FFTKeep, which
  silence the bins inside or outside a frequency band, and RFFTmag / RFFTphase
  with their inverse revertFFT.
 */
module Spectrum {
  import opened Complexes
  import opened Fourier
  import opened FourierInverse
  import opened FftRadix2

  datatype Result<T> = Ok(value: T) | Err(error: Error)

  datatype Error = BadBand | TooFewSamples | NoDuration | LengthMismatch

  /** The library functions the routines call, as parameters. */
  datatype Library = Library(
    root: nat -> Complex,
    modulus: Complex -> real,
    arg: Complex -> real,
    polar: (real, real) -> Complex)
  {
    ghost predicate Faithful() {
      && Twiddles(root)
      && forall z :: polar(modulus(z), arg(z)) == z
    }
  }

  // ---------- padding ----------

  /** The smallest power of two that is at least count. */
  ghost predicate IsPadding(size: nat, count: nat) {
    && IsPow2(size) && count <= size
    && forall n: nat | count <= Pow2(n) :: size <= Pow2(n)
  }

  ghost function PaddedSize(count: nat): (size: nat)
    ensures IsPadding(size, count)
  {
    SomePadding(count, 0);
    var size: nat :| IsPadding(size, count);
    size
  }

  lemma {:induction false} SomePadding(count: nat, n: nat)
    requires forall m: nat | m < n :: Pow2(m) < count
    ensures exists size: nat :: IsPadding(size, count)
    decreases count - Pow2(n)
  {
    if Pow2(n) >= count {
      forall m: nat | count <= Pow2(m)
        ensures Pow2(n) <= Pow2(m)
      {
        PowMonotone(n, m);
      }
      assert IsPadding(Pow2(n), count);
    } else {
      SomePadding(count, n + 1);
    }
  }

  method PaddedLength(count: nat) returns (size: nat)
    ensures size == PaddedSize(count)
  {
    size := 1;
    ghost var n: nat := 0;
    while size < count
      invariant size == Pow2(n)
      invariant forall m: nat | count <= Pow2(m) :: n <= m
      decreases count - size
    {
      forall m: nat | count <= Pow2(m)
        ensures n + 1 <= m
      {
        PowMonotone(m, n);
      }
      size := 2 * size;
      n := n + 1;
    }
    forall m: nat | count <= Pow2(m)
      ensures size <= Pow2(m)
    {
      PowMonotone(n, m);
    }
  }

  ghost function Padded(vs: seq<real>, size: nat): (x: seq<Complex>)
    ensures |x| == size
  {
    seq(size, i requires 0 <= i < size => if i < |vs| then Complex(vs[i], 0.0) else ZERO)
  }

  method LoadPadded(vs: seq<real>) returns (buf: array<Complex>)
    ensures fresh(buf) && buf.Length == PaddedSize(|vs|) && buf[..] == Padded(vs, buf.Length)
  {
    var size := PaddedLength(|vs|);
    buf := new Complex[size](_ => ZERO);
    for i := 0 to |vs|
      invariant forall j | 0 <= j < size :: buf[j] == if j < i then Complex(vs[j], 0.0) else ZERO
    {
      buf[i] := Complex(vs[i], 0.0);
    }
  }

  // ---------- the inverse in place ----------

  method ConjugateAll(x: array<Complex>)
    modifies x
    ensures x[..] == ConjAll(old(x[..]))
  {
    for i := 0 to x.Length
      invariant forall j | 0 <= j < x.Length :: x[j] == if j < i then Conj(old(x[j])) else old(x[j])
    {
      x[i] := Conj(x[i]);
    }
  }

  ghost function RealParts(x: seq<Complex>, count: nat): seq<real>
    requires count <= |x|
  {
    seq(count, i requires 0 <= i < count => x[i].re)
  }

  /** Conjugate, transform, conjugate and divide, keeping the real parts of the first count samples. */
  method InvertReal(x: array<Complex>, lib: Library, count: nat) returns (out: seq<real>)
    requires lib.Faithful() && IsPow2(x.Length) && count <= x.Length
    modifies x
    ensures out == RealParts(InverseDft(old(x[..]), lib.root(x.Length)), count)
  {
    assert x.Length > 0;
    hide InverseDft, Dft, ConjAll, IsPow2, Twiddles, Conj, Mul;
    ghost var y := x[..];
    ConjugateAll(x);
    Fft(x, lib.root);
    var invN := 1.0 / (x.Length as real);
    ghost var z := x[..];
    out := [];
    for i := 0 to count
      invariant |out| == i
      invariant forall j | 0 <= j < i :: out[j] == Times(z[j], invN)
    {
      out := out + [Times(x[i], invN)];
    }
    InverseEntries(y, lib.root(x.Length), z, invN);
  }

  /** std::conj(c).real() * invN */
  function Times(c: Complex, invN: real): real {
    Conj(c).re * invN
  }

  lemma InverseEntries(y: seq<Complex>, w: Complex, z: seq<Complex>, invN: real)
    requires z == Dft(ConjAll(y), w) && |y| > 0 && invN == 1.0 / (|y| as real)
    ensures forall m | 0 <= m < |z| :: InverseDft(y, w)[m].re == Times(z[m], invN)
  {
    hide DftAt, ConjAll, Mul;
    forall m | 0 <= m < |z|
      ensures InverseDft(y, w)[m].re == Times(z[m], invN)
    {
      assert InverseDft(y, w)[m] == Scale(invN, Conj(z[m]));
      TimesComm(invN, Conj(z[m]).re);
    }
  }

  lemma TimesComm(a: real, b: real)
    ensures a * b == b * a
  {}

  // ---------- FFTCut and FFTKeep ----------

  datatype Band = Band(lo: real, hi: real, df: real)
  {
    /** Bin k and its mirror bin share one frequency. */
    predicate Holds(k: nat, size: nat)
      requires k < size
    {
      var f := (if k <= size - k then k else size - k) as real * df;
      lo <= f <= hi
    }
  }

  ghost function Masked(x: seq<Complex>, band: Band, keep: bool): (y: seq<Complex>)
    ensures |y| == |x|
  {
    seq(|x|, k requires 0 <= k < |x| => if band.Holds(k, |x|) == keep then x[k] else ZERO)
  }

  ghost function BandEdited(vs: seq<real>, size: nat, lib: Library, band: Band, keep: bool): seq<Complex> {
    var w := lib.root(size);
    InverseDft(Masked(Dft(Padded(vs, size), w), band, keep), w)
  }

  /** Bins k and size - k of count samples taken over ns nanoseconds, in hertz. */
  ghost function Frequency(k: nat, size: nat, count: nat, ns: int): real
    requires k < size && ns > 0
  {
    var cycles := if 2 * k <= size then k else size - k;
    (cycles as real * (count as real - 1.0) * 1000000000.0) / (ns as real * size as real)
  }

  /** Of the transform of vs, e has kept the bins of the band, or all others, and nothing else. */
  ghost predicate IsEdit(e: seq<Complex>, vs: seq<real>, ns: int, lo: real, hi: real, keep: bool, lib: Library)
    requires ns > 0
  {
    var size := PaddedSize(|vs|);
    && |e| == size && IsReal(e)
    && forall k | 0 <= k < size ::
         var before, after := Dft(Padded(vs, size), lib.root(size))[k], Dft(e, lib.root(size))[k];
         if lo <= Frequency(k, size, |vs|, ns) <= hi then after == (if keep then before else ZERO)
         else after == (if keep then ZERO else before)
  }

  lemma BinFrequency(k: nat, size: nat, count: nat, ns: int)
    requires k < size && ns > 0
    ensures Frequency(k, size, count, ns)
         == (if k <= size - k then k else size - k) as real * BinWidth(count, Seconds(ns), size)
  {
    var cycles := if 2 * k <= size then k else size - k;
    var m, c, t, g, n := cycles as real, count as real - 1.0, ns as real, 1000000000.0, size as real;
    assert Frequency(k, size, count, ns) == (m * c * g) / (t * n);
    assert BinWidth(count, Seconds(ns), size) == (c / (t / g)) / n;
    ThreeQuotients(m, c, t, g, n);
  }

  lemma ThreeQuotients(m: real, c: real, t: real, g: real, n: real)
    requires t > 0.0 && g > 0.0 && n > 0.0
    ensures (m * c * g) / (t * n) == m * ((c / (t / g)) / n)
  {
    var u := t / g;
    var q := c / u;
    var r := q / n;
    assert u > 0.0 && u * g == t && q * u == c && r * n == q;
    Regroup(m, r, n, u, g);
    Quotient(m * r, t * n, m * c * g);
  }

  lemma Regroup(m: real, r: real, n: real, u: real, g: real)
    ensures (m * r) * ((u * g) * n) == m * ((r * n) * u) * g
  {
    assert (u * g) * n == (n * u) * g;
    assert (m * r) * ((n * u) * g) == ((m * r) * (n * u)) * g;
    assert (m * r) * (n * u) == m * ((r * n) * u);
  }

  lemma Quotient(a: real, d: real, b: real)
    requires d > 0.0 && a * d == b
    ensures b / d == a
  {
  }

  /** The code's edit is the one described. */
  lemma EditOf(vs: seq<real>, ns: int, lo: real, hi: real, keep: bool, lib: Library)
    requires lib.Faithful() && ns > 0
    ensures var size := PaddedSize(|vs|);
            IsEdit(BandEdited(vs, size, lib, Band(lo, hi, BinWidth(|vs|, Seconds(ns), size)), keep), vs, ns, lo, hi, keep, lib)
  {
    hide Dft, InverseDft, Frequency, BinWidth, Twiddles;
    var size := PaddedSize(|vs|);
    var band := Band(lo, hi, BinWidth(|vs|, Seconds(ns), size));
    var n: nat :| size == Pow2(n);
    var y := Dft(Padded(vs, size), lib.root(size));
    BandEditIsReal(vs, lib, band, keep);
    DftOfInverse(lib.root, n, Masked(y, band, keep));
    forall k | 0 <= k < size
      ensures Masked(y, band, keep)[k]
           == if (lo <= Frequency(k, size, |vs|, ns) <= hi) == keep then y[k] else ZERO
    {
      MaskedBin(y, k, |vs|, ns, lo, hi, keep);
    }
    hide Masked;
  }

  lemma MaskedBin(y: seq<Complex>, k: nat, count: nat, ns: int, lo: real, hi: real, keep: bool)
    requires k < |y| && ns > 0
    ensures Masked(y, Band(lo, hi, BinWidth(count, Seconds(ns), |y|)), keep)[k]
         == if (lo <= Frequency(k, |y|, count, ns) <= hi) == keep then y[k] else ZERO
  {
    hide Frequency, BinWidth, Band.Holds;
    BinFrequency(k, |y|, count, ns);
    HoldsBetween(Band(lo, hi, BinWidth(count, Seconds(ns), |y|)), k, |y|);
  }

  lemma HoldsBetween(band: Band, k: nat, size: nat)
    requires k < size
    ensures var f := (if k <= size - k then k else size - k) as real * band.df;
            band.Holds(k, size) <==> band.lo <= f <= band.hi
  {
  }

  /** There is only one. */
  lemma EditIsUnique(e: seq<Complex>, d: seq<Complex>, vs: seq<real>, ns: int, lo: real, hi: real, keep: bool, lib: Library)
    requires lib.Faithful() && ns > 0
    requires IsEdit(e, vs, ns, lo, hi, keep, lib) && IsEdit(d, vs, ns, lo, hi, keep, lib)
    ensures e == d
  {
    hide Dft, InverseDft, Frequency, Twiddles;
    var size := PaddedSize(|vs|);
    var n: nat :| size == Pow2(n);
    assert Dft(e, lib.root(size)) == Dft(d, lib.root(size));
    InverseOfDft(lib.root, n, e);
    InverseOfDft(lib.root, n, d);
  }

  /** Of a power of two samples the result itself has the edited transform. */
  lemma WholeEdit(e: seq<Complex>, vs: seq<real>, ns: int, lo: real, hi: real, keep: bool, lib: Library)
    requires ns > 0 && IsPow2(|vs|) && IsEdit(e, vs, ns, lo, hi, keep, lib)
    ensures PaddedSize(|vs|) == |vs| && Padded(RealParts(e, |vs|), |vs|) == e
  {
    hide Dft, Frequency;
    assert IsPadding(PaddedSize(|vs|), |vs|);
    forall i | 0 <= i < |e|
      ensures e[i] == Complex(e[i].re, 0.0)
    {
      SelfConjugate(e[i]);
    }
  }

  /** A band over every bin: FFTKeep leaves the signal, FFTCut nothing. */
  lemma FullBand(e: seq<Complex>, vs: seq<real>, ns: int, lo: real, hi: real, keep: bool, lib: Library)
    requires lib.Faithful() && ns > 0 && IsEdit(e, vs, ns, lo, hi, keep, lib)
    requires forall k | 0 <= k < PaddedSize(|vs|) :: lo <= Frequency(k, PaddedSize(|vs|), |vs|, ns) <= hi
    ensures RealParts(e, |vs|) == if keep then vs else seq(|vs|, _ => 0.0)
  {
    hide Dft, InverseDft, Frequency, Twiddles, PaddedSize;
    var size := PaddedSize(|vs|);
    var n: nat :| size == Pow2(n);
    InverseOfDft(lib.root, n, e);
    if keep {
      assert Dft(e, lib.root(size)) == Dft(Padded(vs, size), lib.root(size));
      InverseOfDft(lib.root, n, Padded(vs, size));
    } else {
      assert Dft(e, lib.root(size)) == seq(size, _ => ZERO);
      InverseOfZeros(size, lib.root(size));
    }
  }

  lemma InverseOfZeros(size: nat, w: Complex)
    ensures InverseDft(seq(size, _ => ZERO), w) == seq(size, _ => ZERO)
  {
    hide Mul, Pow, Sum;
    var zeros := seq(size, _ => ZERO);
    forall m | 0 <= m < size
      ensures DftAt(ConjAll(zeros), w, m) == ZERO
    {
      var f := (k: int) => Mul(At(ConjAll(zeros), k), Pow(w, k * m));
      forall k | 0 <= k < size
        ensures f(k) == ZERO
      {
        ConjUnits();
        MulUnits(Pow(w, k * m));
      }
      SumZero(f, size);
      SumExt(f, n => Mul(At(ConjAll(zeros), n), Pow(w, n * m)), size);
    }
    hide DftAt, Conj;
    ConjUnits();
    if size > 0 { ScaleZero(1.0 / (size as real)); }
  }

  lemma ScaleZero(c: real)
    ensures Scale(c, ZERO) == ZERO
  {
  }

  ghost function BinWidth(count: nat, durationSec: real, size: nat): real
    requires durationSec > 0.0 && size > 0
  {
    ((count as real - 1.0) / durationSec) / (size as real)
  }

  method FftBandEdit(ts: seq<int>, vs: seq<real>, lo: real, hi: real, keep: bool, lib: Library) returns (r: Result<seq<real>>)
    requires lib.Faithful() && |ts| == |vs|
    ensures lo < 0.0 || hi <= lo ==> r == Err(BadBand)
    ensures 0.0 <= lo < hi && |vs| < 2 ==> r == Err(TooFewSamples)
    ensures 0.0 <= lo < hi && |vs| >= 2 && ts[|ts| - 1] <= ts[0] ==> r == Err(NoDuration)
    ensures 0.0 <= lo < hi && |vs| >= 2 && ts[|ts| - 1] > ts[0] ==>
              exists e :: IsEdit(e, vs, ts[|ts| - 1] - ts[0], lo, hi, keep, lib) && r == Ok(RealParts(e, |vs|))
  {
    hide IsEdit, RealParts, InverseDft, Dft, Masked, Padded, Twiddles;
    if lo < 0.0 || hi <= lo {
      return Err(BadBand);
    }
    if |vs| < 2 {
      return Err(TooFewSamples);
    }
    var durationSec := Seconds(ts[|ts| - 1] - ts[0]);
    if durationSec <= 0.0 {
      return Err(NoDuration);
    }
    var fs := (|vs| as real - 1.0) / durationSec;
    var buf := LoadPadded(vs);
    Fft(buf, lib.root);
    var band := Band(lo, hi, fs / (buf.Length as real));
    MaskBins(buf, band, keep);
    var out := InvertReal(buf, lib, |vs|);
    r := Ok(out);
    EditOf(vs, ts[|ts| - 1] - ts[0], lo, hi, keep, lib);
  }

  function Seconds(ns: int): (s: real)
    ensures s > 0.0 <==> ns > 0
  {
    ns as real / 1000000000.0
  }

  method MaskBins(x: array<Complex>, band: Band, keep: bool)
    modifies x
    ensures x[..] == Masked(old(x[..]), band, keep)
  {
    for k := 0 to x.Length
      invariant forall j | 0 <= j < x.Length ::
                  x[j] == if j < k then Masked(old(x[..]), band, keep)[j] else old(x[j])
    {
      if band.Holds(k, x.Length) != keep {
        x[k] := ZERO;
      }
    }
  }

  // ---------- mirror symmetry of real signals ----------

  ghost predicate IsReal(x: seq<Complex>) {
    forall j | 0 <= j < |x| :: Conj(x[j]) == x[j]
  }

  /** Bin N - k holds the conjugate of bin k. */
  ghost predicate Mirrored(y: seq<Complex>) {
    && (|y| > 0 ==> Conj(y[0]) == y[0])
    && forall k | 0 < k < |y| :: y[|y| - k] == Conj(y[k])
  }

  lemma PaddedIsReal(vs: seq<real>, size: nat)
    ensures IsReal(Padded(vs, size))
  {}

  lemma MirrorPower(root: nat -> Complex, n: nat, j: nat, k: nat)
    requires Twiddles(root) && k <= Pow2(n)
    ensures var w := root(Pow2(n)); Pow(w, j * (Pow2(n) - k)) == Conj(Pow(w, j * k))
  {
    hide Mul, Pow, Conj;
    var size, w := Pow2(n), root(Pow2(n));
    var u, p := Pow(w, j * (size - k)), Pow(w, j * k);
    assert Mul(u, p) == ONE by {
      assert j * (size - k) + j * k == size * j by { DistributeLeft(j, size - k, k); }
      PowAdd(w, j * (size - k), j * k);
      PowMul(w, size, j);
      RootFull(root, n);
      PowOne(j);
    }
    assert Mul(p, Conj(p)) == ONE by {
      PowConj(w, j * k);
      PowProduct(w, Conj(w), j * k);
      RootSquare(root, n);
      PowOne(j * k);
    }
    MulAssoc(u, p, Conj(p));
    MulUnits(u);
    MulUnits(Conj(p));
  }

  /** The spectrum of a real signal is mirrored. */
  lemma RealIsMirrored(root: nat -> Complex, n: nat, x: seq<Complex>)
    requires Twiddles(root) && |x| == Pow2(n) && IsReal(x)
    ensures Mirrored(Dft(x, root(|x|)))
  {
    hide DftAt;
    var w := root(|x|);
    MirrorBin(root, n, x, 0);
    DftPeriod(root, n, x);
    forall k | 0 < k < |x|
      ensures DftAt(x, w, |x| - k) == Conj(DftAt(x, w, k))
    {
      MirrorBin(root, n, x, k);
    }
  }

  lemma DftPeriod(root: nat -> Complex, n: nat, x: seq<Complex>)
    requires Twiddles(root) && |x| == Pow2(n)
    ensures DftAt(x, root(|x|), |x|) == DftAt(x, root(|x|), 0)
  {
    hide Mul, Pow;
    var w := root(|x|);
    forall j | 0 <= j < |x|
      ensures Pow(w, j * |x|) == Pow(w, j * 0)
    {
      assert j * |x| == |x| * j && j * 0 == 0;
      PowMul(w, |x|, j);
      RootFull(root, n);
      PowOne(j);
      PowZero(w);
    }
    SumExt(j => Mul(At(x, j), Pow(w, j * |x|)), j => Mul(At(x, j), Pow(w, j * 0)), |x|);
  }

  lemma MirrorBin(root: nat -> Complex, n: nat, x: seq<Complex>, k: nat)
    requires Twiddles(root) && |x| == Pow2(n) && IsReal(x) && k <= |x|
    ensures DftAt(x, root(|x|), |x| - k) == Conj(DftAt(x, root(|x|), k))
  {
    hide Mul, Pow, Conj, Add;
    var size, w := |x|, root(|x|);
    var f, g := (j: int) => Mul(At(x, j), Pow(w, j * k)), (j: int) => Mul(At(x, j), Pow(w, j * (size - k)));
    SumConj(f, size);
    forall j | 0 <= j < size
      ensures g(j) == Conj(f(j))
    {
      MirrorPower(root, n, j, k);
      ConjMul(x[j], Pow(w, j * k));
    }
    SumExt(g, j => Conj(f(j)), size);
  }

  /** A mirrored spectrum comes back as a real signal: taking real parts discards nothing. */
  lemma MirroredInverseIsReal(root: nat -> Complex, n: nat, y: seq<Complex>)
    requires Twiddles(root) && |y| == Pow2(n) && Mirrored(y)
    ensures IsReal(InverseDft(y, root(|y|)))
  {
    var w := root(|y|);
    forall m | 0 <= m < |y|
      ensures Conj(InverseDft(y, w)[m]) == InverseDft(y, w)[m]
    {
      MirroredSumIsReal(root, n, y, m);
      hide DftAt;
    }
  }

  ghost function InverseTerm(y: seq<Complex>, w: Complex, m: int): int -> Complex {
    k => Mul(At(ConjAll(y), k), Pow(w, k * m))
  }

  lemma InverseTermMirror(root: nat -> Complex, n: nat, y: seq<Complex>, m: nat, k: nat)
    requires Twiddles(root) && |y| == Pow2(n) && Mirrored(y) && 0 < k < |y|
    ensures InverseTerm(y, root(|y|), m)(|y| - k) == Conj(InverseTerm(y, root(|y|), m)(k))
  {
    hide Mul, Pow, Conj;
    var size, w := |y|, root(|y|);
    assert m * k == k * m && m * (size - k) == (size - k) * m;
    MirrorPower(root, n, m, k);
    assert ConjAll(y)[size - k] == Conj(Conj(y[k]));
    ConjMul(Conj(y[k]), Pow(w, k * m));
  }

  lemma InverseTermZero(y: seq<Complex>, w: Complex, m: nat)
    requires |y| > 0 && Mirrored(y)
    ensures InverseTerm(y, w, m)(0) == y[0]
  {
    hide Mul, Conj;
    assert 0 * m == 0;
    MulUnits(y[0]);
  }

  lemma SumOne(f: int -> Complex)
    ensures Sum(f, 1) == f(0)
  {
    hide Add;
    assert Sum(f, 1) == Add(Sum(f, 0), f(0));
    AddZero(f(0));
  }

  /** A sequence that reads backwards as its conjugate has a self-conjugate sum. */
  lemma PalindromeSum(g: int -> Complex, n: nat)
    requires forall k | 0 <= k < n :: g(n - 1 - k) == Conj(g(k))
    ensures Conj(Sum(g, n)) == Sum(g, n)
  {
    hide Sum, Conj;
    SumReverse(g, n);
    SumExt(k => if 0 <= k < n then g(n - 1 - k) else ZERO, k => Conj(g(k)), n);
    SumConj(g, n);
  }

  lemma MirroredSum(f: int -> Complex, size: nat)
    requires size > 0 && Conj(f(0)) == f(0)
    requires forall k | 0 < k < size :: f(size - k) == Conj(f(k))
    ensures Sum(f, size).im == 0.0
  {
    hide Mul, Add, Conj, Sum;
    var tail := (i: int) => f(1 + i);
    SumSplit(f, 1, size - 1);
    SumOne(f);
    SumExt(tail, i => f(1 + i), size - 1);
    PalindromeSum(tail, size - 1);
    SelfConjugate(f(0));
    SelfConjugate(Sum(tail, size - 1));
    RealSum(f(0), Sum(tail, size - 1));
  }

  lemma MirroredSumIsReal(root: nat -> Complex, n: nat, y: seq<Complex>, m: nat)
    requires Twiddles(root) && |y| == Pow2(n) && Mirrored(y) && m < |y|
    ensures DftAt(ConjAll(y), root(|y|), m).im == 0.0
  {
    hide Mul, Pow, Conj, Add, Sum;
    var size, w := |y|, root(|y|);
    var f := InverseTerm(y, w, m);
    InverseTermZero(y, w, m);
    forall k | 0 < k < size
      ensures f(size - k) == Conj(f(k))
    {
      InverseTermMirror(root, n, y, m, k);
    }
    MirroredSum(f, size);
    SumExt(k => Mul(At(ConjAll(y), k), Pow(w, k * m)), f, size);
  }

  lemma SelfConjugate(a: Complex)
    requires Conj(a) == a
    ensures a.im == 0.0
  {}

  lemma RealSum(a: Complex, b: Complex)
    ensures Add(a, b).im == a.im + b.im
  {}

  // ---------- what FFTCut and FFTKeep promise ----------

  lemma MaskedIsMirrored(x: seq<Complex>, band: Band, keep: bool)
    requires Mirrored(x)
    ensures Mirrored(Masked(x, band, keep))
  {
    hide Conj;
    ConjUnits();
    forall k | 0 < k < |x|
      ensures Masked(x, band, keep)[|x| - k] == Conj(Masked(x, band, keep)[k])
    {
      MirrorBinsShareBand(band, k, |x|);
    }
  }

  lemma MirrorBinsShareBand(band: Band, k: nat, size: nat)
    requires 0 < k < size
    ensures band.Holds(size - k, size) == band.Holds(k, size)
  {}

  /** Both edits give a real signal, so keeping only real parts loses nothing. */
  lemma BandEditIsReal(vs: seq<real>, lib: Library, band: Band, keep: bool)
    requires lib.Faithful()
    ensures IsReal(BandEdited(vs, PaddedSize(|vs|), lib, band, keep))
  {
    var size := PaddedSize(|vs|);
    var n: nat :| size == Pow2(n);
    var x := Padded(vs, size);
    PaddedIsReal(vs, size);
    RealIsMirrored(lib.root, n, x);
    MaskedIsMirrored(Dft(x, lib.root(size)), band, keep);
    MirroredInverseIsReal(lib.root, n, Masked(Dft(x, lib.root(size)), band, keep));
  }

  lemma MaskedParts(x: seq<Complex>, band: Band, w: Complex, m: nat)
    requires m < |x|
    ensures Add(DftAt(ConjAll(Masked(x, band, false)), w, m), DftAt(ConjAll(Masked(x, band, true)), w, m))
         == DftAt(ConjAll(x), w, m)
  {
    hide Mul, Pow, Conj, Add;
    var f := InverseTerm(x, w, m);
    var cut := InverseTerm(Masked(x, band, false), w, m);
    var keep := InverseTerm(Masked(x, band, true), w, m);
    forall k | 0 <= k < |x|
      ensures Add(cut(k), keep(k)) == f(k)
    {
      ConjUnits();
      MulUnits(Pow(w, k * m));
      AddZero(f(k));
    }
    SumAdd(cut, keep, |x|);
    SumExt(k => Add(cut(k), keep(k)), f, |x|);
    SumExt(k => Mul(At(ConjAll(x), k), Pow(w, k * m)), f, |x|);
    SumExt(k => Mul(At(ConjAll(Masked(x, band, false)), k), Pow(w, k * m)), cut, |x|);
    SumExt(k => Mul(At(ConjAll(Masked(x, band, true)), k), Pow(w, k * m)), keep, |x|);
  }

  lemma ScaledParts(c: real, a: Complex, b: Complex)
    ensures Add(Scale(c, Conj(a)), Scale(c, Conj(b))) == Scale(c, Conj(Add(a, b)))
  {}

  /** FFTCut(x) + FFTKeep(x) = x, for every signal and every band. */
  lemma CutPlusKeep(
      cut: seq<Complex>, kept: seq<Complex>, vs: seq<real>, ns: int, lo: real, hi: real, lib: Library, i: nat)
    requires lib.Faithful() && ns > 0 && i < |vs|
    requires IsEdit(cut, vs, ns, lo, hi, false, lib) && IsEdit(kept, vs, ns, lo, hi, true, lib)
    ensures RealParts(cut, |vs|)[i] + RealParts(kept, |vs|)[i] == vs[i]
  {
    hide IsEdit, BandEdited, BinWidth;
    var size := PaddedSize(|vs|);
    var band := Band(lo, hi, BinWidth(|vs|, Seconds(ns), size));
    EditOf(vs, ns, lo, hi, false, lib);
    EditOf(vs, ns, lo, hi, true, lib);
    EditIsUnique(cut, BandEdited(vs, size, lib, band, false), vs, ns, lo, hi, false, lib);
    EditIsUnique(kept, BandEdited(vs, size, lib, band, true), vs, ns, lo, hi, true, lib);
    PartsAddUp(vs, lib, band, i);
  }

  lemma PartsAddUp(vs: seq<real>, lib: Library, band: Band, i: nat)
    requires lib.Faithful() && i < |vs|
    ensures var size := PaddedSize(|vs|);
            RealParts(BandEdited(vs, size, lib, band, false), |vs|)[i]
            + RealParts(BandEdited(vs, size, lib, band, true), |vs|)[i] == vs[i]
  {
    hide DftAt, ConjAll, Mul, Pow, Twiddles;
    var size := PaddedSize(|vs|);
    var n: nat :| size == Pow2(n);
    var w, x := lib.root(size), Padded(vs, size);
    var y := Dft(x, w);
    MaskedParts(y, band, w, i);
    ScaledParts(1.0 / (size as real), DftAt(ConjAll(Masked(y, band, false)), w, i),
                DftAt(ConjAll(Masked(y, band, true)), w, i));
    InverseOfDft(lib.root, n, x);
    assert InverseDft(y, w)[i] == x[i];
  }

  // ---------- RFFTmag, RFFTphase and revertFFT ----------

  method RfftSpectrum(ts: seq<int>, vs: seq<real>, wantPhase: bool, lib: Library) returns (r: Result<seq<real>>)
    requires lib.Faithful() && |ts| == |vs|
    ensures |vs| < 2 ==> r == Err(TooFewSamples)
    ensures |vs| >= 2 && ts[|ts| - 1] <= ts[0] ==> r == Err(NoDuration)
    ensures |vs| >= 2 && ts[|ts| - 1] > ts[0] ==>
              r == Ok(HalfSpectrum(vs, lib, if wantPhase then lib.arg else lib.modulus))
  {
    if |vs| < 2 {
      return Err(TooFewSamples);
    }
    if Seconds(ts[|ts| - 1] - ts[0]) <= 0.0 {
      return Err(NoDuration);
    }
    var buf := LoadPadded(vs);
    Fft(buf, lib.root);
    var bins := buf.Length / 2 + 1;
    PaddingIsEven(|vs|);
    var part := if wantPhase then lib.arg else lib.modulus;
    var out := MapBins(buf, bins, part);
    assert out == HalfSpectrum(vs, lib, part);
    r := Ok(out);
  }

  method MapBins(buf: array<Complex>, bins: nat, part: Complex -> real) returns (out: seq<real>)
    requires bins <= buf.Length
    ensures |out| == bins && forall k | 0 <= k < bins :: out[k] == part(buf[k])
  {
    out := [];
    for k := 0 to bins
      invariant |out| == k && forall j | 0 <= j < k :: out[j] == part(buf[j])
    {
      out := out + [part(buf[k])];
    }
  }

  ghost function HalfSpectrum(vs: seq<real>, lib: Library, part: Complex -> real): (r: seq<real>)
    requires |vs| >= 2
  {
    PaddingIsEven(|vs|);
    var size := PaddedSize(|vs|);
    var y := Dft(Padded(vs, size), lib.root(size));
    seq(size / 2 + 1, k requires 0 <= k < size => part(y[k]))
  }

  lemma PaddingIsEven(count: nat)
    requires count >= 2
    ensures PaddedSize(count) >= 2 && PaddedSize(count) % 2 == 0
    ensures IsPow2(PaddedSize(count) / 2)
  {
    var n: nat :| PaddedSize(count) == Pow2(n);
    assert IsPadding(PaddedSize(count), count);
    assert n == 0 ==> Pow2(n) == 1;
    assert n > 0;
    assert Pow2(n) == 2 * Pow2(n - 1);
  }

  /** The full spectrum rebuilt from magnitudes and phases of its first half. */
  ghost function Rebuilt(mag: seq<real>, ph: seq<real>, lib: Library): seq<Complex>
    requires |mag| == |ph| >= 2
  {
    var bins := |mag|;
    seq(2 * (bins - 1), k requires 0 <= k < 2 * (bins - 1) =>
      if k < bins then lib.polar(mag[k], ph[k])
      else Conj(lib.polar(mag[2 * (bins - 1) - k], ph[2 * (bins - 1) - k])))
  }

  method RevertFft(mag: seq<real>, ph: seq<real>, lib: Library) returns (r: Result<seq<real>>)
    requires lib.Faithful()
    requires |mag| == |ph| >= 2 ==> IsPow2(|mag| - 1)
    ensures |mag| < 2 || |mag| != |ph| ==> r == Err(LengthMismatch)
    ensures |mag| == |ph| >= 2 ==>
              var size := 2 * (|mag| - 1);
              r == Ok(RealParts(InverseDft(Rebuilt(mag, ph, lib), lib.root(size)), size))
  {
    if |mag| < 2 || |mag| != |ph| {
      return Err(LengthMismatch);
    }
    var bins := |mag|;
    var size := 2 * (bins - 1);
    DoublePow2(bins - 1);
    var x := new Complex[size](_ => ZERO);
    RebuildSpectrum(x, mag, ph, lib);
    var out := InvertReal(x, lib, size);
    r := Ok(out);
  }

  method RebuildSpectrum(x: array<Complex>, mag: seq<real>, ph: seq<real>, lib: Library)
    requires |mag| == |ph| >= 2 && x.Length == 2 * (|mag| - 1)
    modifies x
    ensures x[..] == Rebuilt(mag, ph, lib)
  {
    hide Conj;
    ghost var full := Rebuilt(mag, ph, lib);
    var bins, size := |mag|, x.Length;
    for k := 0 to bins
      invariant forall j | 0 <= j < k :: x[j] == full[j]
    {
      x[k] := lib.polar(mag[k], ph[k]);
    }
    var k := 1;
    while k + 1 < bins
      invariant 1 <= k < bins
      invariant forall j | 0 <= j < bins || size - k < j < size :: x[j] == full[j]
    {
      x[size - k] := Conj(x[k]);
      k := k + 1;
    }
  }

  lemma DoublePow2(m: nat)
    requires IsPow2(m)
    ensures IsPow2(2 * m)
  {
    var n: nat :| m == Pow2(n);
    assert 2 * m == Pow2(n + 1);
  }

  /** revertFFT(RFFTmag(x), RFFTphase(x)) is x followed by zeros up to the next power of two. */
  lemma RevertRestores(vs: seq<real>, lib: Library)
    requires lib.Faithful() && |vs| >= 2
    ensures var mag, ph := HalfSpectrum(vs, lib, lib.modulus), HalfSpectrum(vs, lib, lib.arg);
            var size := PaddedSize(|vs|);
            && |mag| == |ph| >= 2 && IsPow2(|mag| - 1) && 2 * (|mag| - 1) == size
            && RealParts(InverseDft(Rebuilt(mag, ph, lib), lib.root(size)), size)
               == vs + seq(size - |vs|, _ => 0.0)
  {
    hide DftAt, Twiddles, Mul, InverseDft;
    PaddingIsEven(|vs|);
    var size := PaddedSize(|vs|);
    var n: nat :| size == Pow2(n);
    var w, x := lib.root(size), Padded(vs, size);
    var mag, ph := HalfSpectrum(vs, lib, lib.modulus), HalfSpectrum(vs, lib, lib.arg);
    PaddedIsReal(vs, size);
    assert Mirrored(Dft(x, w)) by {
      RealIsMirrored(lib.root, n, x);
    }
    assert Rebuilt(mag, ph, lib) == Dft(x, w) by {
      hide Dft;
      var bins := size / 2 + 1;
      forall k | 0 <= k < size
        ensures Rebuilt(mag, ph, lib)[k] == Dft(x, w)[k]
      {
        if k >= bins {
          assert Dft(x, w)[size - (size - k)] == Conj(Dft(x, w)[size - k]);
        }
      }
    }
    InverseOfDft(lib.root, n, x);
  }
}
