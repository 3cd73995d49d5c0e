/** The few facts of multiplication and division the index arithmetic rests on. */
module Arithmetic {

  lemma DivMod(q: int, d: nat, r: nat)
    requires r < d
    ensures (q * d + r) / d == q && (q * d + r) % d == r
  {
    var p := q * d + r;
    MultipleTooFar(p / d - q, d);
    assert (p / d - q) * d == r - p % d;
  }

  lemma MultipleTooFar(e: int, d: nat)
    ensures e >= 1 ==> e * d >= d
    ensures e <= -1 ==> e * d + d <= 0
  {}

  lemma Quotient(p: nat, d: nat)
    requires d > 0
    ensures p / d >= 0 && 0 <= p % d < d
  {}

  lemma MulLe(a: nat, b: nat, c: nat)
    requires a <= b
    ensures a * c <= b * c
  {}

  /** One digit more: the new number, its quotient and remainder, and its bound. */
  lemma DigitStep(q: nat, p: nat, c: nat, r: nat)
    requires q < p && r < c
    ensures (q * c + r) / c == q && (q * c + r) % c == r && q * c + r < p * c
  {
    DivMod(q, c, r);
    MulLe(q + 1, p, c);
    assert (q + 1) * c == q * c + c;
  }

  /** Equal remainders: a multiple of w apart. */
  lemma SameRemainder(a: nat, b: nat, w: nat)
    requires a <= b && w > 0
    ensures a % w == b % w <==> (b - a) % w == 0
  {
    var q, d := b / w - a / w, b % w - a % w;
    assert b - a == q * w + d by { Difference(a, b, w); }
    if d >= 0 {
      DivMod(q, w, d);
    } else {
      assert q * w + d == (q - 1) * w + (w + d);
      DivMod(q - 1, w, w + d);
    }
  }

  lemma Difference(a: nat, b: nat, w: nat)
    requires w > 0
    ensures b - a == (b / w - a / w) * w + (b % w - a % w)
  {
    assert a == (a / w) * w + a % w && b == (b / w) * w + b % w;
  }

  lemma NextRemainder(n: nat, w: nat)
    requires w > 1
    ensures (n % w + 1) % w == (n + 1) % w
  {
    var q, r := n / w, n % w;
    assert n == q * w + r;
    if r + 1 < w {
      DivMod(q, w, r + 1);
    } else {
      assert n + 1 == (q + 1) * w + 0;
      DivMod(q + 1, w, 0);
      DivMod(1, w, 0);
    }
  }

  lemma SmallRemainder(n: nat, w: nat)
    requires n < w && n % w == 0
    ensures n == 0
  {
  }
}
