/**
  The dimensions of an array declaration: their 64-bit product and its guard.
 */
module PlcDims {
  import opened Arithmetic
  import opened Options

  /** What the pattern finds in one part of the declaration: its bounds, or nothing it can read. */
  datatype Bounds = Bounds(lower: int, upper: int)

  const TWO_63: int := 0x8000_0000_0000_0000

  /** A 64-bit signed result, wrapped around. */
  function S64(n: int): (r: int)
    ensures -TWO_63 <= r < TWO_63
    ensures -TWO_63 <= n < TWO_63 ==> r == n
  {
    (n + TWO_63) % (2 * TWO_63) - TWO_63
  }

  function CountOf(b: Bounds): int { S64(S64(b.upper - b.lower) + 1) }

  function CountsOf(parts: seq<Bounds>): (counts: seq<int>)
    ensures |counts| == |parts|
  {
    seq(|parts|, i requires 0 <= i < |parts| => CountOf(parts[i]))
  }

  /** The product as the loop forms it, each step wrapped. */
  function WrappedProduct(counts: seq<int>): int {
    if counts == [] then 1 else S64(WrappedProduct(counts[..|counts| - 1]) * counts[|counts| - 1])
  }

  /** The loop's checks: every bound read and in order, every product so far positive. */
  predicate Accepts(parts: seq<Option<Bounds>>) {
    parts == [] || (
      var last := parts[|parts| - 1];
      && Accepts(parts[..|parts| - 1])
      && last.Some? && last.value.lower <= last.value.upper
      && WrappedProduct(CountsOf(Read(parts))) > 0)
  }

  function Read(parts: seq<Option<Bounds>>): (bounds: seq<Bounds>)
    ensures |bounds| == |parts|
  {
    seq(|parts|, i requires 0 <= i < |parts| => if parts[i].Some? then parts[i].value else Bounds(0, 0))
  }

  method ReadDimensions(parts: seq<Option<Bounds>>) returns (r: Option<(seq<Bounds>, int)>)
    requires parts != []
    ensures r == if Accepts(parts) then Some((Read(parts), WrappedProduct(CountsOf(Read(parts))))) else None
  {
    var dims: seq<Bounds> := [];
    var total := 1;
    for i := 0 to |parts|
      invariant dims == Read(parts[..i]) && total == WrappedProduct(CountsOf(dims)) && Accepts(parts[..i])
    {
      PrefixRead(parts, i);
      var part := parts[i];
      if part.None? || part.value.upper < part.value.lower {
        RejectedAt(parts, i + 1);
        return None;
      }
      dims := dims + [part.value];
      total := S64(total * CountOf(part.value));
      if total <= 0 {
        RejectedAt(parts, i + 1);
        return None;
      }
    }
    assert parts[..|parts|] == parts;
    return Some((dims, total));
  }

  lemma PrefixRead(parts: seq<Option<Bounds>>, i: nat)
    requires i < |parts|
    ensures parts[..i + 1][..i] == parts[..i] && parts[..i + 1][i] == parts[i]
    ensures parts[i].Some? ==> Read(parts[..i + 1]) == Read(parts[..i]) + [parts[i].value]
    ensures parts[i].Some? ==>
              WrappedProduct(CountsOf(Read(parts[..i + 1])))
              == S64(WrappedProduct(CountsOf(Read(parts[..i]))) * CountOf(parts[i].value))
  {
    if parts[i].Some? {
      var more := CountsOf(Read(parts[..i + 1]));
      assert Read(parts[..i + 1]) == Read(parts[..i]) + [parts[i].value];
      assert more[..i] == CountsOf(Read(parts[..i])) && more[i] == CountOf(parts[i].value);
    }
  }

  lemma {:induction false} RejectedAt(parts: seq<Option<Bounds>>, i: nat)
    requires i <= |parts| && !Accepts(parts[..i])
    ensures !Accepts(parts)
    decreases |parts| - i
  {
    if i == |parts| {
      assert parts[..i] == parts;
    } else {
      assert parts[..i + 1][..i] == parts[..i];
      RejectedAt(parts, i + 1);
    }
  }

  // ---------- when the product is the number of elements ----------

  /** A pair of 64-bit bounds the loop lets pass. */
  ghost predicate Declarable(b: Bounds) {
    -TWO_63 <= b.lower <= b.upper < TWO_63
  }

  /** How many elements bounds declare, with nothing wrapped. */
  function Elements(bs: seq<Bounds>): int {
    if bs == [] then 1 else Elements(bs[..|bs| - 1]) * (bs[|bs| - 1].upper - bs[|bs| - 1].lower + 1)
  }

  /** The product formed is the number of elements exactly when that fits 63 bits. */
  lemma {:induction false} ProductIsTrueExactly(bs: seq<Bounds>)
    requires forall i | 0 <= i < |bs| :: Declarable(bs[i])
    ensures Elements(bs) >= 1 && WrappedProduct(CountsOf(bs)) < TWO_63
    ensures WrappedProduct(CountsOf(bs)) == Elements(bs) <==> Elements(bs) < TWO_63
  {
    if bs != [] {
      var head, b := bs[..|bs| - 1], bs[|bs| - 1];
      var count := b.upper - b.lower + 1;
      ProductIsTrueExactly(head);
      assert Declarable(b);
      assert CountsOf(bs)[..|bs| - 1] == CountsOf(head);
      MulLe(1, count, Elements(head));
      MulLe(1, Elements(head), count);
      assert Elements(bs) == Elements(head) * count == count * Elements(head);
    }
  }

  /** A declaration whose elements fit 63 bits is accepted, with their number. */
  lemma {:induction false} FittingIsAccepted(bs: seq<Bounds>)
    requires (forall i | 0 <= i < |bs| :: Declarable(bs[i])) && Elements(bs) < TWO_63
    ensures Accepts(AllRead(bs)) && Read(AllRead(bs)) == bs && WrappedProduct(CountsOf(bs)) == Elements(bs)
  {
    ProductIsTrueExactly(bs);
    if bs == [] {
      assert AllRead(bs) == [] && Read([]) == [];
    } else {
      var head, b := bs[..|bs| - 1], bs[|bs| - 1];
      assert bs == head + [b] && Declarable(b);
      HeadFits(head, b);
      FittingIsAccepted(head);
      OneMoreDimension(head, b);
    }
  }

  lemma HeadFits(head: seq<Bounds>, b: Bounds)
    requires (forall i | 0 <= i < |head| :: Declarable(head[i])) && Declarable(b)
    ensures 1 <= Elements(head) <= Elements(head + [b])
  {
    var count := b.upper - b.lower + 1;
    ProductIsTrueExactly(head);
    assert (head + [b])[..|head|] == head;
    MulLe(1, count, Elements(head));
    assert Elements(head + [b]) == Elements(head) * count == count * Elements(head);
  }

  function AllRead(bs: seq<Bounds>): (parts: seq<Option<Bounds>>)
    ensures |parts| == |bs|
  {
    seq(|bs|, i requires 0 <= i < |bs| => Some(bs[i]))
  }

  /** The guard misses a product that wraps round to a positive number, and one with a count that itself wraps. */
  lemma GuardMissesOverflow()
    ensures var bs := [Bounds(1, 3), Bounds(1, 6148914691236517206)];
            Accepts(AllRead(bs)) && WrappedProduct(CountsOf(bs)) == 2 && Elements(bs) > 2 * TWO_63
    ensures var bs := [Bounds(0, 4611686018427387903), Bounds(-TWO_63, 9223372036854775804)];
            Accepts(AllRead(bs)) && WrappedProduct(CountsOf(bs)) == 4611686018427387904 && Elements(bs) > TWO_63
  {
    CountsThatWrap();
    hide Accepts, WrappedProduct, Elements, AllRead, CountsOf, S64, CountOf;
    TwoDimensions(Bounds(1, 3), Bounds(1, 6148914691236517206));
    TwoDimensions(Bounds(0, 4611686018427387903), Bounds(-TWO_63, 9223372036854775804));
  }

  lemma CountsThatWrap()
    ensures CountOf(Bounds(1, 3)) == 3 == S64(3) && CountOf(Bounds(1, 6148914691236517206)) == 6148914691236517206
    ensures CountOf(Bounds(0, 4611686018427387903)) == 4611686018427387904 == S64(4611686018427387904)
    ensures CountOf(Bounds(-TWO_63, 9223372036854775804)) == -3
    ensures S64(3 * 6148914691236517206) == 2 && S64(4611686018427387904 * -3) == 4611686018427387904
  {
  }

  lemma TwoDimensions(a: Bounds, b: Bounds)
    requires a.lower <= a.upper && b.lower <= b.upper && S64(CountOf(a)) > 0 && S64(S64(CountOf(a)) * CountOf(b)) > 0
    ensures var bs := [a, b];
            && Accepts(AllRead(bs)) && WrappedProduct(CountsOf(bs)) == S64(S64(CountOf(a)) * CountOf(b))
            && Elements(bs) == (a.upper - a.lower + 1) * (b.upper - b.lower + 1)
  {
    hide S64, CountOf;
    assert [] + [a] == [a] && [a] + [b] == [a, b];
    assert Accepts(AllRead([]));
    OneMoreDimension([], a);
    OneMoreDimension([a], b);
  }

  lemma OneMoreDimension(bs: seq<Bounds>, b: Bounds)
    ensures Read(AllRead(bs)) == bs && Read(AllRead(bs + [b])) == bs + [b]
    ensures WrappedProduct(CountsOf(bs + [b])) == S64(WrappedProduct(CountsOf(bs)) * CountOf(b))
    ensures Elements(bs + [b]) == Elements(bs) * (b.upper - b.lower + 1)
    ensures Accepts(AllRead(bs + [b]))
       <==> Accepts(AllRead(bs)) && b.lower <= b.upper && WrappedProduct(CountsOf(bs + [b])) > 0
  {
    hide S64, CountOf;
    var more := bs + [b];
    var n := |bs|;
    assert more[..n] == bs && more[n] == b;
    assert AllRead(more)[..n] == AllRead(bs) && AllRead(more)[n] == Some(b);
    assert Read(AllRead(bs)) == bs && Read(AllRead(more)) == more;
    assert CountsOf(more)[..n] == CountsOf(bs) && CountsOf(more)[n] == CountOf(b);
  }
}
