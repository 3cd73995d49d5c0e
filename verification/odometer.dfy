/**
  Array subscripts: the index vector that the expansion steps like an odometer
  (last dimension fastest) and the text it is written as.
 */
module Odometer {
  import opened Arithmetic

  function Product(counts: seq<nat>): nat {
    if counts == [] then 1 else Product(counts[..|counts| - 1]) * counts[|counts| - 1]
  }

  ghost predicate AllPositive(counts: seq<nat>) {
    forall d | 0 <= d < |counts| :: counts[d] > 0
  }

  lemma {:induction false} ProductPositive(counts: seq<nat>)
    ensures Product(counts) > 0 <==> AllPositive(counts)
  {
    if counts != [] {
      var head, c := counts[..|counts| - 1], counts[|counts| - 1];
      ProductPositive(head);
      PositiveProduct(Product(head), c);
    }
  }

  lemma PositiveProduct(a: nat, b: nat)
    ensures a * b > 0 <==> a > 0 && b > 0
  {}

  /** The mixed-radix digits of n, most significant first; what overflows the first is dropped. */
  function Digits(counts: seq<nat>, n: nat): (idx: seq<nat>)
    requires AllPositive(counts)
    ensures |idx| == |counts|
  {
    if counts == [] then []
    else
      var c := counts[|counts| - 1];
      Digits(counts[..|counts| - 1], n / c) + [n % c]
  }

  ghost predicate IsIndex(counts: seq<nat>, idx: seq<nat>) {
    |idx| == |counts| && forall d | 0 <= d < |idx| :: idx[d] < counts[d]
  }

  /** The position of an index vector in row-major order. */
  function RowMajor(counts: seq<nat>, idx: seq<nat>): nat
    requires |idx| == |counts|
  {
    if counts == [] then 0
    else RowMajor(counts[..|counts| - 1], idx[..|idx| - 1]) * counts[|counts| - 1] + idx[|idx| - 1]
  }

  lemma {:induction false} DigitsAreIndex(counts: seq<nat>, n: nat)
    requires AllPositive(counts)
    ensures IsIndex(counts, Digits(counts, n))
  {
    if counts != [] {
      DigitsAreIndex(counts[..|counts| - 1], n / counts[|counts| - 1]);
    }
  }

  /** Every element number below the product is recovered from its index vector ... */
  lemma {:induction false} RowMajorOfDigits(counts: seq<nat>, n: nat)
    requires AllPositive(counts) && n < Product(counts)
    ensures RowMajor(counts, Digits(counts, n)) == n
  {
    if counts != [] {
      var head, c := counts[..|counts| - 1], counts[|counts| - 1];
      QuotientBound(n, Product(head), c);
      RowMajorOfDigits(head, n / c);
      assert Digits(counts, n)[..|counts| - 1] == Digits(head, n / c);
    }
  }

  lemma QuotientBound(n: nat, p: nat, c: nat)
    requires c > 0 && n < p * c
    ensures n / c < p
  {
    if n / c >= p {
      MulLe(p, n / c, c);
    }
  }

  /** ... and every index vector is reached by exactly one element number below the product. */
  lemma {:induction false} DigitsOfRowMajor(counts: seq<nat>, idx: seq<nat>)
    requires AllPositive(counts) && IsIndex(counts, idx)
    ensures RowMajor(counts, idx) < Product(counts)
    ensures Digits(counts, RowMajor(counts, idx)) == idx
  {
    if counts != [] {
      var head, c := counts[..|counts| - 1], counts[|counts| - 1];
      var idx', r := idx[..|idx| - 1], idx[|idx| - 1];
      DigitsOfRowMajor(head, idx');
      assert idx == idx' + [r];
      DigitStep(RowMajor(head, idx'), Product(head), c, r);
    }
  }

  // ---------- stepping ----------

  /** One step: bump the last index, carrying leftwards. */
  function Next(counts: seq<nat>, idx: seq<nat>): (r: seq<nat>)
    requires |idx| == |counts|
    ensures |r| == |idx|
  {
    if counts == [] then []
    else
      var last := |counts| - 1;
      if idx[last] + 1 < counts[last] then idx[..last] + [idx[last] + 1]
      else Next(counts[..last], idx[..last]) + [0]
  }

  /** One more: the last digit steps, or starts again and carries. */
  lemma Carry(n: nat, c: nat)
    requires c > 0
    ensures (n + 1) / c == (if n % c + 1 < c then n / c else n / c + 1)
    ensures (n + 1) % c == (if n % c + 1 < c then n % c + 1 else 0)
  {
    var q, r := n / c, n % c;
    assert n == q * c + r;
    if r + 1 < c {
      DivMod(q, c, r + 1);
    } else {
      assert n + 1 == (q + 1) * c + 0;
      DivMod(q + 1, c, 0);
    }
  }

  lemma {:induction false} NextIsSuccessor(counts: seq<nat>, n: nat)
    requires AllPositive(counts)
    ensures Next(counts, Digits(counts, n)) == Digits(counts, n + 1)
  {
    if counts != [] {
      var last := |counts| - 1;
      var c := counts[last];
      var q := n / c;
      NextIsSuccessor(counts[..last], q);
      assert Digits(counts, n)[..last] == Digits(counts[..last], q);
      Carry(n, c);
    }
  }

  /** The in-place step of the source. */
  method Step(idx: array<nat>, counts: seq<nat>)
    requires idx.Length == |counts|
    modifies idx
    ensures idx[..] == Next(counts, old(idx[..]))
  {
    var d := idx.Length;
    ghost var was := idx[..];
    assert was[..d] == was && counts[..d] == counts && was + [] == was;
    while d > 0
      invariant 0 <= d <= idx.Length
      invariant idx[..d] == was[..d] && (forall k | d <= k < idx.Length :: idx[k] == 0)
      invariant Next(counts, was) == Next(counts[..d], was[..d]) + seq(idx.Length - d, _ => 0)
    {
      d := d - 1;
      assert counts[..d + 1][..d] == counts[..d] && was[..d + 1][..d] == was[..d];
      idx[d] := idx[d] + 1;
      if idx[d] < counts[d] {
        assert idx[..] == was[..d] + [was[d] + 1] + seq(idx.Length - d - 1, _ => 0);
        return;
      }
      idx[d] := 0;
      assert [0] + seq(idx.Length - d - 1, _ => 0) == seq(idx.Length - d, _ => 0);
      assert idx[..d] == was[..d];
    }
    assert idx[..] == seq(idx.Length, _ => 0);
  }

  // ---------- the subscript as text ----------

  function Decimal(n: nat): (s: string)
    ensures s != [] && forall c | c in s :: '0' <= c <= '9'
  {
    if n < 10 then [DigitChar(n)] else Decimal(n / 10) + [DigitChar(n % 10)]
  }

  function DigitChar(d: nat): (c: char)
    requires d < 10
    ensures '0' <= c <= '9'
  {
    "0123456789"[d]
  }

  lemma DigitCharInjective(a: nat, b: nat)
    requires a < 10 && b < 10 && DigitChar(a) == DigitChar(b)
    ensures a == b
  {}

  function Number(i: int): (s: string)
    ensures s != [] && forall c | c in s :: c == '-' || '0' <= c <= '9'
  {
    if i < 0 then ['-'] + Decimal(-i) else Decimal(i)
  }

  lemma {:induction false} DecimalInjective(a: nat, b: nat)
    requires Decimal(a) == Decimal(b)
    ensures a == b
  {
    if a < 10 && b < 10 {
      assert [DigitChar(a)][0] == [DigitChar(b)][0];
      DigitCharInjective(a, b);
    } else if a >= 10 && b >= 10 {
      var s, t := Decimal(a), Decimal(b);
      assert s[..|s| - 1] == Decimal(a / 10) && t[..|t| - 1] == Decimal(b / 10);
      assert s[|s| - 1] == DigitChar(a % 10) && t[|t| - 1] == DigitChar(b % 10);
      DigitCharInjective(a % 10, b % 10);
      DecimalInjective(a / 10, b / 10);
    }
  }

  lemma NumberParts(i: int)
    ensures Number(i)[0] == '-' <==> i < 0
    ensures i < 0 ==> Number(i)[1..] == Decimal(-i)
    ensures i >= 0 ==> Number(i) == Decimal(i)
  {
    hide Decimal;
    assert i >= 0 ==> Number(i)[0] in Decimal(i);
  }

  lemma NumberInjective(a: int, b: int)
    requires Number(a) == Number(b)
    ensures a == b
  {
    hide Number, Decimal;
    NumberParts(a);
    NumberParts(b);
    if a < 0 { DecimalInjective(-a, -b); } else { DecimalInjective(a, b); }
  }

  /** The numbers joined by commas. */
  function Joined(xs: seq<int>): (s: string)
    ensures forall c | c in s :: c == ',' || c == '-' || '0' <= c <= '9'
  {
    if xs == [] then "" else if |xs| == 1 then Number(xs[0])
    else Joined(xs[..|xs| - 1]) + "," + Number(xs[|xs| - 1])
  }

  function LastComma(s: string): int {
    if s == "" then -1 else if s[|s| - 1] == ',' then |s| - 1 else LastComma(s[..|s| - 1])
  }

  lemma {:induction false} LastCommaAt(a: string, x: string)
    requires ',' !in x
    ensures LastComma(a + "," + x) == |a|
  {
    var s := a + "," + x;
    if x == "" {
      assert s[|s| - 1] == ',';
    } else {
      assert s[|s| - 1] == x[|x| - 1];
      LastCommaAt(a, x[..|x| - 1]);
      assert s[..|s| - 1] == a + "," + x[..|x| - 1];
    }
  }

  lemma CommaSplits(a: string, x: string, b: string, y: string)
    requires ',' !in x && ',' !in y && a + "," + x == b + "," + y
    ensures a == b && x == y
  {
    LastCommaAt(a, x);
    LastCommaAt(b, y);
    var s := a + "," + x;
    assert s[..|a|] == a && s[|a| + 1..] == x;
    assert s == b + "," + y && s[..|b|] == b && s[|b| + 1..] == y;
  }

  lemma {:induction false} JoinedInjective(xs: seq<int>, ys: seq<int>)
    requires |xs| == |ys| && Joined(xs) == Joined(ys)
    ensures xs == ys
  {
    if |xs| == 1 {
      NumberInjective(xs[0], ys[0]);
    } else if |xs| > 1 {
      var last := |xs| - 1;
      CommaSplits(Joined(xs[..last]), Number(xs[last]), Joined(ys[..last]), Number(ys[last]));
      JoinedInjective(xs[..last], ys[..last]);
      NumberInjective(xs[last], ys[last]);
      assert xs == xs[..last] + [xs[last]] && ys == ys[..last] + [ys[last]];
    }
  }
}
