/**
  The analyser's in-place radix-2 transform: a bit-reversal permutation driven
  by a reversed-carry counter, then log2(N) sweeps of butterflies.
 */
module FftRadix2 {
  import opened Arithmetic
  import opened Complexes
  import opened Fourier

  /** The bit c as the highest of n bits. */
  function TopBit(n: nat, c: nat): nat
    requires n > 0
  {
    if c == 1 then Pow2(n - 1) else 0
  }

  /** The n low bits of i in reverse order. */
  function BitRev(n: nat, i: nat): (r: nat)
    ensures r < Pow2(n)
  {
    if n == 0 then 0 else TopBit(n, i % 2) + BitRev(n - 1, i / 2)
  }

  lemma BitRevUnfold(n: nat, i: nat, c: nat, rest: nat)
    requires n > 0 && c < 2 && i == 2 * rest + c
    ensures BitRev(n, i) == TopBit(n, c) + BitRev(n - 1, rest)
  {}

  /** Reversing a number given by its top bit and the rest. */
  lemma {:induction false} BitRevTop(n: nat, c: nat, r: nat)
    requires n > 0 && c < 2 && r < Pow2(n - 1)
    ensures BitRev(n, TopBit(n, c) + r) == 2 * BitRev(n - 1, r) + c
  {
    if n == 1 {
      BitRevUnfold(1, c, c, 0);
    } else {
      BitRevTop(n - 1, c, r / 2);
      BitRevTopStep(n, c, r);
    }
  }

  lemma BitRevTopStep(n: nat, c: nat, r: nat)
    requires n > 1 && c < 2
    requires BitRev(n - 1, TopBit(n - 1, c) + r / 2) == 2 * BitRev(n - 2, r / 2) + c
    ensures BitRev(n, TopBit(n, c) + r) == 2 * BitRev(n - 1, r) + c
  {
    hide BitRev;
    BitRevUnfold(n, TopBit(n, c) + r, r % 2, TopBit(n - 1, c) + r / 2);
    BitRevUnfold(n - 1, r, r % 2, r / 2);
  }

  /** Bit reversal is its own inverse, hence a permutation of 0 .. 2^n - 1. */
  lemma {:induction false} BitRevInvolution(n: nat, i: nat)
    requires i < Pow2(n)
    ensures BitRev(n, BitRev(n, i)) == i
  {
    if n > 0 {
      BitRevInvolution(n - 1, i / 2);
      BitRevTop(n, i % 2, BitRev(n - 1, i / 2));
    }
  }

  /** Bit k of the reversal is bit n - 1 - k of the number. */
  lemma {:induction false} BitRevBit(n: nat, i: nat, k: nat)
    requires k < n
    ensures (BitRev(n, i) / Pow2(k)) % 2 == (i / Pow2(n - 1 - k)) % 2
  {
    if k == n - 1 {
      LastBit(n, i);
    } else {
      BitRevBit(n - 1, i / 2, k);
      LowerBit(n, i, k);
    }
  }

  lemma LastBit(n: nat, i: nat)
    requires n > 0
    ensures (BitRev(n, i) / Pow2(n - 1)) % 2 == i % 2
  {
    DivMod(i % 2, Pow2(n - 1), BitRev(n - 1, i / 2));
  }

  lemma LowerBit(n: nat, i: nat, k: nat)
    requires k + 1 < n
    ensures (BitRev(n, i) / Pow2(k)) % 2 == (BitRev(n - 1, i / 2) / Pow2(k)) % 2
    ensures i / Pow2(n - 1 - k) == (i / 2) / Pow2(n - 2 - k)
  {
    HalfDiv(i, Pow2(n - 2 - k));
    if i % 2 == 1 {
      PowSplit(n - 1 - k, k);
      EvenMultipleDropped(BitRev(n, i), Pow2(n - 2 - k), Pow2(k), BitRev(n - 1, i / 2));
    }
  }

  lemma {:induction false} PowSplit(m: nat, n: nat)
    ensures Pow2(m + n) == Pow2(m) * Pow2(n)
  {
    if m > 0 {
      PowSplit(m - 1, n);
    }
  }

  lemma EvenMultipleDropped(total: nat, c: nat, d: nat, rest: nat)
    requires d > 0 && total == (2 * c) * d + rest
    ensures (total / d) % 2 == (rest / d) % 2
  {
    var q := 2 * c + rest / d;
    Distribute(2 * c, rest / d, d);
    assert total == q * d + rest % d;
    DivMod(q, d, rest % d);
  }

  lemma Distribute(a: int, b: int, c: int)
    ensures (a + b) * c == a * c + b * c
  {}

  lemma HalfDiv(i: nat, d: nat)
    requires d > 0
    ensures i / (2 * d) == (i / 2) / d
  {
    var q := (i / 2) / d;
    assert i / 2 == q * d + (i / 2) % d;
    assert i == q * (2 * d) + (2 * ((i / 2) % d) + i % 2);
    DivMod(q, 2 * d, 2 * ((i / 2) % d) + i % 2);
  }

  /** Steps from the reversal of i - 1 to the reversal of i: a carry that runs downwards. */
  method NextReversed(ghost n: nat, size: nat, ghost i: nat, j0: nat) returns (j: nat)
    requires size == Pow2(n) && 0 < i < size
    requires j0 == BitRev(n, i - 1)
    ensures j == BitRev(n, i)
  {
    j := j0;
    var bit := size / 2;
    ghost var m: nat, rest: nat := n, i - 1;
    while (j / bit) % 2 == 1
      invariant m > 0 && bit == Pow2(m - 1)
      invariant rest + 1 < Pow2(m) && j == BitRev(m, rest)
      invariant BitRev(n, i) == BitRev(m, rest + 1)
      decreases m
    {
      TopBitSet(m, rest);
      j := j - bit;
      bit := bit / 2;
      m, rest := m - 1, rest / 2;
    }
    TopBitSet(m, rest);
    j := j + bit;
  }

  lemma TopBitSet(m: nat, i: nat)
    requires m > 0 && i + 1 < Pow2(m)
    ensures (BitRev(m, i) / Pow2(m - 1)) % 2 == i % 2
    ensures i % 2 == 1 ==> m > 1 && BitRev(m, i + 1) == BitRev(m - 1, i / 2 + 1) && i / 2 + 1 < Pow2(m - 1)
    ensures i % 2 == 0 ==> BitRev(m, i + 1) == BitRev(m, i) + Pow2(m - 1)
  {
    DivMod(i % 2, Pow2(m - 1), BitRev(m - 1, i / 2));
    if i % 2 == 1 {
      assert (i + 1) / 2 == i / 2 + 1;
    }
  }

  ghost function BitReversed(was: seq<Complex>, n: nat): (r: seq<Complex>)
    requires |was| == Pow2(n)
    ensures |r| == |was|
  {
    seq(|was|, p requires 0 <= p < |was| => was[BitRev(n, p)])
  }

  /** The array after the swaps for 0 .. i - 1: every pair whose smaller index is below i is exchanged. */
  ghost function Swapped(was: seq<Complex>, n: nat, i: nat): (r: seq<Complex>)
    requires |was| == Pow2(n)
    ensures |r| == |was|
  {
    seq(|was|, p requires 0 <= p < |was| => if p < i || BitRev(n, p) < i then was[BitRev(n, p)] else was[p])
  }

  lemma SwapStep(was: seq<Complex>, n: nat, i: nat)
    requires |was| == Pow2(n) && i < |was|
    ensures var j, x := BitRev(n, i), Swapped(was, n, i);
            Swapped(was, n, i + 1) == if i < j then x[i := x[j]][j := x[i]] else x
  {
    hide BitRev;
    var j, x := BitRev(n, i), Swapped(was, n, i);
    var y := if i < j then x[i := x[j]][j := x[i]] else x;
    BitRevInvolution(n, i);
    forall p | 0 <= p < |was|
      ensures Swapped(was, n, i + 1)[p] == y[p]
    {
      BitRevInvolution(n, p);
    }
  }

  lemma SwapEnds(was: seq<Complex>, n: nat)
    requires |was| == Pow2(n)
    ensures Swapped(was, n, 1) == was
  {
    BitRevZero(n);
    forall p | 0 <= p < |was|
      ensures Swapped(was, n, 1)[p] == was[p]
    {
      BitRevInvolution(n, p);
    }
  }

  method SwapPair(x: array<Complex>, ghost n: nat, ghost was: seq<Complex>, i: nat, j: nat)
    requires x.Length == |was| == Pow2(n) && i < x.Length && j == BitRev(n, i)
    requires x[..] == Swapped(was, n, i)
    modifies x
    ensures x[..] == Swapped(was, n, i + 1)
    ensures multiset(x[..]) == multiset(old(x[..]))
  {
    hide Swapped;
    SwapStep(was, n, i);
    if i < j {
      x[i], x[j] := x[j], x[i];
    }
  }

  /** The permutation phase: element p becomes the one at the reversal of p. */
  method BitReversePermute(x: array<Complex>, ghost n: nat)
    requires x.Length == Pow2(n)
    modifies x
    ensures x[..] == BitReversed(old(x[..]), n)
    ensures multiset(x[..]) == multiset(old(x[..]))
  {
    hide BitRev, Swapped, BitReversed, Pow2;
    ghost var was := x[..];
    var j, i := 0, 1;
    BitRevZero(n);
    SwapEnds(was, n);
    while i < x.Length
      invariant 1 <= i <= x.Length
      invariant j == BitRev(n, i - 1)
      invariant x[..] == Swapped(was, n, i)
      invariant multiset(x[..]) == multiset(was)
    {
      j := NextReversed(n, x.Length, i, j);
      SwapPair(x, n, was, i, j);
      i := i + 1;
    }
    SwapDone(was, n);
  }

  lemma SwapDone(was: seq<Complex>, n: nat)
    requires |was| == Pow2(n)
    ensures Swapped(was, n, |was|) == BitReversed(was, n)
  {}

  lemma {:induction false} BitRevZero(n: nat)
    ensures BitRev(n, 0) == 0
  {
    if n > 0 {
      BitRevZero(n - 1);
    }
  }

  /** What position p of the array holds once the sweeps up to length 2^s are done. */
  ghost function StageAt(x: seq<Complex>, root: nat -> Complex, n: nat, s: nat, p: nat): Complex
    requires s <= n
  {
    var len := Pow2(s);
    Quotient(p, len);
    Strided(x, BitRev(n - s, p / len), Pow2(n - s), len, root(len), p % len)
  }

  lemma StageZero(x: seq<Complex>, root: nat -> Complex, n: nat, p: nat)
    requires |x| == Pow2(n)
    ensures StageAt(x, root, n, 0, p) == x[BitRev(n, p)]
  {
    hide Mul, Add;
    var term := StridedTerm(x, BitRev(n, p), Pow2(n), root(1), 0);
    assert Pow2(0) == 1 && p / 1 == p && p % 1 == 0;
    assert Sum(term, 1) == Add(Sum(term, 0), term(0));
    AddZero(term(0));
    MulUnits(x[BitRev(n, p)]);
  }

  lemma StageLast(x: seq<Complex>, root: nat -> Complex, n: nat, p: nat)
    requires |x| == Pow2(n) && p < |x|
    ensures StageAt(x, root, n, n, p) == DftAt(x, root(|x|), p)
  {
    hide Mul, Add, Pow;
    DivMod(0, Pow2(n), p);
    SumExt(StridedTerm(x, 0, 1, root(|x|), p), m => Mul(At(x, m), Pow(root(|x|), m * p)), |x|);
  }

  lemma BitRevDoubled(n: nat, b: nat)
    requires n > 0
    ensures BitRev(n, 2 * b) == BitRev(n - 1, b)
    ensures BitRev(n, 2 * b + 1) == Pow2(n - 1) + BitRev(n - 1, b)
  {
    assert (2 * b) / 2 == b && (2 * b + 1) / 2 == b;
  }

  /** Where the elements i + k and i + k + half of block b lie among blocks of either length. */
  lemma BlockIndex(s: nat, b: nat, k: nat)
    requires k < Pow2(s)
    ensures var half, p := Pow2(s), b * Pow2(s + 1) + k;
            && p / Pow2(s + 1) == b && p % Pow2(s + 1) == k
            && (p + half) / Pow2(s + 1) == b && (p + half) % Pow2(s + 1) == k + half
            && p / half == 2 * b && p % half == k
            && (p + half) / half == 2 * b + 1 && (p + half) % half == k
  {
    var half := Pow2(s);
    DoubledIndex(b, half);
    DivMod(b, 2 * half, k);
    DivMod(b, 2 * half, k + half);
    DivMod(2 * b, half, k);
    DivMod(2 * b + 1, half, k);
  }

  lemma StageStep(x: seq<Complex>, root: nat -> Complex, n: nat, s: nat, b: nat, k: nat)
    requires Twiddles(root) && s < n && k < Pow2(s)
    ensures var i, half := b * Pow2(s + 1), Pow2(s);
            var u := StageAt(x, root, n, s, i + k);
            var v := Mul(StageAt(x, root, n, s, i + k + half), Pow(root(Pow2(s + 1)), k));
            && StageAt(x, root, n, s + 1, i + k) == Add(u, v)
            && StageAt(x, root, n, s + 1, i + k + half) == Sub(u, v)
  {
    hide Mul, Add, Sub, Pow, Strided, BitRev;
    BlockIndex(s, b, k);
    assert BitRev(n - s, 2 * b) == BitRev(n - s - 1, b) && BitRev(n - s, 2 * b + 1) == Pow2(n - s - 1) + BitRev(n - s - 1, b) by {
      BitRevDoubled(n - s, b);
    }
    Butterfly(x, BitRev(n - s - 1, b), Pow2(n - s - 1), s, root, k);
  }

  /** One sweep of butterflies of length len = 2^(s + 1) over the whole array. */
  method Sweep(x: array<Complex>, root: nat -> Complex, len: nat, ghost x0: seq<Complex>, ghost n: nat, ghost s: nat)
    requires Twiddles(root) && x.Length == |x0| == Pow2(n) && s < n && len == Pow2(s + 1)
    requires forall p | 0 <= p < x.Length :: x[p] == StageAt(x0, root, n, s, p)
    modifies x
    ensures forall p | 0 <= p < x.Length :: x[p] == StageAt(x0, root, n, s + 1, p)
  {
    hide Mul, Add, Sub, StageAt;
    var wlen := root(len);
    ghost var blocks := Pow2(n - s - 1);
    assert x.Length == blocks * len && len == 2 * Pow2(s) by { PowSplit(n - s - 1, s + 1); }
    var i := 0;
    ghost var b := 0;
    while i < x.Length
      invariant 0 <= b <= blocks && i == b * len
      invariant forall p | 0 <= p < i && p < x.Length :: x[p] == StageAt(x0, root, n, s + 1, p)
      invariant forall p | i <= p < x.Length :: x[p] == StageAt(x0, root, n, s, p)
      decreases x.Length - i
    {
      NextBlock(b, blocks, len);
      Block(x, root, wlen, i, len / 2, x0, n, s, b);
      i := i + len;
      b := b + 1;
    }
  }

  /** The butterflies of block b, which starts at i. */
  method Block(x: array<Complex>, root: nat -> Complex, wlen: Complex, i: nat, half: nat,
               ghost x0: seq<Complex>, ghost n: nat, ghost s: nat, ghost b: nat)
    requires Twiddles(root) && x.Length == |x0| == Pow2(n) && s < n && half == Pow2(s) && wlen == root(Pow2(s + 1))
    requires i == b * (2 * half) && i + 2 * half <= x.Length && b < Pow2(n - s - 1)
    requires forall p | 0 <= p < i :: x[p] == StageAt(x0, root, n, s + 1, p)
    requires forall p | i <= p < x.Length :: x[p] == StageAt(x0, root, n, s, p)
    modifies x
    ensures forall p | 0 <= p < i + 2 * half :: x[p] == StageAt(x0, root, n, s + 1, p)
    ensures forall p | i + 2 * half <= p < x.Length :: x[p] == StageAt(x0, root, n, s, p)
  {
    hide Mul, Add, Sub, StageAt;
    var w := ONE;
    var k := 0;
    while k < half
      invariant 0 <= k <= half && w == Pow(wlen, k)
      invariant forall p | 0 <= p < i + k || i + half <= p < i + half + k :: x[p] == StageAt(x0, root, n, s + 1, p)
      invariant forall p | i + k <= p < i + half || i + half + k <= p < x.Length :: x[p] == StageAt(x0, root, n, s, p)
    {
      StageStep(x0, root, n, s, b, k);
      var u := x[i + k];
      var v := Mul(x[i + k + half], w);
      x[i + k] := Add(u, v);
      x[i + k + half] := Sub(u, v);
      w := Mul(w, wlen);
      k := k + 1;
    }
  }

  lemma NextBlock(b: nat, blocks: nat, len: nat)
    requires b * len < blocks * len
    ensures b < blocks && (b + 1) * len <= blocks * len && (b + 1) * len == b * len + len
  {
    if blocks <= b { MulLe(blocks, b, len); }
    MulLe(b + 1, blocks, len);
  }

  /** All sweeps, for lengths 2, 4, ... up to the whole array. */
  method Butterflies(x: array<Complex>, root: nat -> Complex, ghost x0: seq<Complex>, ghost n: nat)
    requires Twiddles(root) && x.Length == |x0| == Pow2(n)
    requires forall p | 0 <= p < x.Length :: x[p] == StageAt(x0, root, n, 0, p)
    modifies x
    ensures forall p | 0 <= p < x.Length :: x[p] == StageAt(x0, root, n, n, p)
  {
    hide StageAt, Twiddles;
    var len := 2;
    ghost var s := 0;
    while len <= x.Length
      invariant s <= n && len == Pow2(s + 1)
      invariant forall p | 0 <= p < x.Length :: x[p] == StageAt(x0, root, n, s, p)
      decreases n - s
    {
      PowMonotone(s + 1, n);
      Sweep(x, root, len, x0, n, s);
      len := 2 * len;
      s := s + 1;
    }
    PowMonotone(s + 1, n);
  }

  /** The whole routine: the array is left holding the transform of its old contents. */
  method Fft(x: array<Complex>, root: nat -> Complex)
    requires Twiddles(root) && (x.Length == 0 || IsPow2(x.Length))
    modifies x
    ensures x[..] == Dft(old(x[..]), root(x.Length))
  {
    hide StageAt, BitRev, DftAt, Twiddles;
    ghost var x0 := x[..];
    if x.Length <= 1 {
      if x.Length == 1 {
        StageZero(x0, root, 0, 0);
        StageLast(x0, root, 0, 0);
      }
      return;
    }
    ghost var n: nat :| x.Length == Pow2(n);
    BitReversePermute(x, n);
    forall p | 0 <= p < x.Length
      ensures x[p] == StageAt(x0, root, n, 0, p)
    {
      assert x[p] == x[..][p];
      StageZero(x0, root, n, p);
    }
    Butterflies(x, root, x0, n);
    forall p | 0 <= p < x.Length
      ensures x[p] == DftAt(x0, root(x.Length), p)
    {
      StageLast(x0, root, n, p);
    }
  }

  ghost predicate IsPow2(m: nat) {
    exists n: nat :: m == Pow2(n)
  }

  lemma {:induction false} PowMonotone(m: nat, n: nat)
    ensures Pow2(m) <= Pow2(n) <==> m <= n
  {
    if m > 0 && n > 0 {
      PowMonotone(m - 1, n - 1);
    }
  }

  /** If block b of the sweep of length 2^(s + 1) is entered at all, it ends inside size elements. */
  ghost predicate BlockInside(size: nat, s: nat, b: nat) {
    var len := Pow2(s + 1);
    len <= size && b * len < size ==> b * len + len <= size
  }

  ghost predicate SweepsStayInside(size: nat) {
    forall s: nat, b: nat :: BlockInside(size, s, b)
  }

  /** The routine may be called exactly on lengths 0 and 2^n: any other length is overrun by its last sweep. */
  lemma SweepsStayInsideExactly(size: nat)
    ensures SweepsStayInside(size) <==> size == 0 || IsPow2(size)
  {
    if size > 0 {
      var n := Log2(size);
      if size == Pow2(n) {
        forall s: nat, b: nat
          ensures BlockInside(size, s, b)
        {
          BlocksFit(n, s, b);
        }
      } else {
        NotPow2(n, size);
        assert !BlockInside(size, n - 1, 1);
      }
    }
  }

  lemma BlocksFit(n: nat, s: nat, b: nat)
    ensures BlockInside(Pow2(n), s, b)
  {
    PowMonotone(s + 1, n);
    if s + 1 <= n && b * Pow2(s + 1) < Pow2(n) {
      PowSplit(n - s - 1, s + 1);
      NextBlock(b, Pow2(n - s - 1), Pow2(s + 1));
    }
  }

  ghost function Log2(size: nat): (n: nat)
    requires size > 0
    ensures Pow2(n) <= size < 2 * Pow2(n)
  {
    if size == 1 then 0 else 1 + Log2(size / 2)
  }

  lemma NotPow2(n: nat, size: nat)
    requires Pow2(n) < size < 2 * Pow2(n)
    ensures !IsPow2(size)
  {
    forall m: nat
      ensures size != Pow2(m)
    {
      PowMonotone(m, n);
      PowMonotone(n + 1, m);
    }
  }
}
