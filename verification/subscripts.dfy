/**
  What a subscript says: read as numbers it is an index vector inside the
  declared bounds, and that vector is where the element lies.
 */
module Subscripts {
  import opened Arithmetic
  import opened Options
  import opened Odometer
  import opened PlcNames
  import opened TypeTable
  import opened TypeTableLayout

  // ---------- reading subscripts ----------

  /** A decimal numeral, digit by digit. */
  function ReadDecimal(s: string): Option<nat> {
    if s == "" then None
    else
      var n := |s| - 1;
      if !('0' <= s[n] <= '9') then None
      else
        var d := s[n] as int - '0' as int;
        if n == 0 then Some(d)
        else match ReadDecimal(s[..n])
          case None => None
          case Some(head) => Some(10 * head + d)
  }

  function ReadNumber(s: string): Option<int> {
    var minus := s != "" && s[0] == '-';
    var n := ReadDecimal(if minus then s[1..] else s);
    if n == None then None
    else
      var i: int := n.value;
      Some(if minus then 0 - i else i)
  }

  /** Numbers between commas. */
  function ReadInts(s: string): Option<seq<int>>
    decreases |s|
  {
    var k := LastComma(s);
    if k < 0 || k >= |s| then
      match ReadNumber(s)
      case None => None
      case Some(i) => Some([i])
    else
      var head, last := ReadInts(s[..k]), ReadNumber(s[k + 1..]);
      if head.Some? && last.Some? then Some(head.value + [last.value]) else None
  }

  lemma {:induction false} DecimalReads(n: nat)
    ensures ReadDecimal(Decimal(n)) == Some(n)
  {
    if n >= 10 {
      DecimalReads(n / 10);
      DigitReads(n % 10);
      var s := Decimal(n);
      assert s[..|s| - 1] == Decimal(n / 10) && s[|s| - 1] == DigitChar(n % 10);
    } else {
      DigitReads(n);
    }
  }

  lemma DigitReads(d: nat)
    requires d < 10
    ensures DigitChar(d) as int - '0' as int == d
  {
  }

  lemma NumberReads(i: int)
    ensures ReadNumber(Number(i)) == Some(i)
  {
    hide Decimal, ReadDecimal;
    if i < 0 {
      DecimalReads(-i);
      assert Number(i)[1..] == Decimal(-i);
    } else {
      DecimalReads(i);
      assert Number(i)[0] in Number(i);
    }
  }

  lemma NoComma(i: int)
    ensures ',' !in Number(i)
  {
  }

  lemma {:induction false} CommaNowhere(s: string)
    requires ',' !in s
    ensures LastComma(s) == -1
  {
    if s != "" {
      assert s[|s| - 1] in s;
      CommaNowhere(s[..|s| - 1]);
    }
  }

  /** Written subscripts read back. */
  lemma {:induction false} JoinedReads(xs: seq<int>)
    requires xs != []
    ensures ReadInts(Joined(xs)) == Some(xs)
    decreases |xs|
  {
    hide LastComma, Number, ReadNumber;
    var n := |xs| - 1;
    NumberReads(xs[n]);
    NoComma(xs[n]);
    if n == 0 {
      CommaNowhere(Number(xs[0]));
      assert xs == [xs[0]];
    } else {
      var a, x := Joined(xs[..n]), Number(xs[n]);
      JoinedReads(xs[..n]);
      LastCommaAt(a, x);
      var s := a + "," + x;
      assert Joined(xs) == s && s[..|a|] == a && s[|a| + 1..] == x;
      assert xs == xs[..n] + [xs[n]];
    }
  }

  // ---------- index vectors ----------

  /** One index per dimension, from the declared lower bound on. */
  ghost predicate InBounds(dims: seq<Dim>, v: seq<int>) {
    |v| == |dims| && forall d | 0 <= d < |v| :: dims[d].lower <= v[d] < dims[d].lower + dims[d].count
  }

  /** How many elements come before that one: the last index runs fastest. */
  ghost function Position(dims: seq<Dim>, v: seq<int>): int
    requires |v| == |dims|
  {
    if dims == [] then 0
    else
      var n := |dims| - 1;
      Position(dims[..n], v[..n]) * dims[n].count + (v[n] - dims[n].lower)
  }

  ghost function Unshifted(dims: seq<Dim>, v: seq<int>): (idx: seq<nat>)
    requires InBounds(dims, v)
    ensures |idx| == |v|
  {
    seq(|v|, d requires 0 <= d < |v| => v[d] - dims[d].lower)
  }

  lemma {:induction false} PositionIsRowMajor(dims: seq<Dim>, v: seq<int>)
    requires InBounds(dims, v)
    ensures IsIndex(Counts(dims), Unshifted(dims, v))
    ensures Position(dims, v) == RowMajor(Counts(dims), Unshifted(dims, v))
    decreases |dims|
  {
    if dims != [] {
      var n := |dims| - 1;
      PositionIsRowMajor(dims[..n], v[..n]);
      assert Counts(dims)[..n] == Counts(dims[..n]);
      assert Unshifted(dims, v)[..n] == Unshifted(dims[..n], v[..n]);
    }
  }

  /** The element at a vector's position has it for its subscript, and no other element has. */
  lemma ElementAt(dims: seq<Dim>, v: seq<int>) returns (n: nat)
    requires dims != [] && AllPositive(Counts(dims)) && InBounds(dims, v)
    ensures n == Position(dims, v) < TotalElements(dims) && Shifted(dims, Digits(Counts(dims), n)) == v
  {
    hide Digits, RowMajor, Position, AllPositive, IsIndex, Product;
    var counts, idx := Counts(dims), Unshifted(dims, v);
    PositionIsRowMajor(dims, v);
    DigitsOfRowMajor(counts, idx);
    n := RowMajor(counts, idx);
    assert Shifted(dims, idx) == v;
  }

  /** Every element's subscript is a vector in bounds, at its position. */
  lemma VectorOf(dims: seq<Dim>, n: nat) returns (v: seq<int>)
    requires AllPositive(Counts(dims)) && n < TotalElements(dims)
    ensures v == Shifted(dims, Digits(Counts(dims), n)) && InBounds(dims, v) && Position(dims, v) == n
  {
    var counts := Counts(dims);
    var idx := Digits(counts, n);
    DigitsAreIndex(counts, n);
    RowMajorOfDigits(counts, n);
    hide Digits, RowMajor;
    v := Shifted(dims, idx);
    PositionIsRowMajor(dims, v);
    assert Unshifted(dims, v) == idx;
  }

  // ---------- names and addresses ----------

  /** base[v], in whatever spelling reads as v. */
  ghost predicate Labels(name: string, base: string, v: seq<int>) {
    exists t :: name == base + "[" + t + "]" && ReadInts(t) == Some(v)
  }

  lemma LabelText(name: string, base: string, v: seq<int>, w: seq<int>)
    requires Labels(name, base, v) && name == base + "[" + Joined(w) + "]" && w != []
    ensures v == w
  {
    hide ReadInts, Joined;
    var t :| name == base + "[" + t + "]" && ReadInts(t) == Some(v);
    JoinedReads(w);
    SameInner(base, t, Joined(w));
  }

  lemma SameInner(base: string, s: string, t: string)
    requires base + "[" + s + "]" == base + "[" + t + "]"
    ensures s == t
  {
    var a, b := base + "[" + s + "]", base + "[" + t + "]";
    assert a[|base| + 1..|a| - 1] == s && b[|base| + 1..|b| - 1] == t;
  }

  /** A recordable number of the element type, that many of its widths behind the symbol's start. */
  ghost predicate IsElementAt(names: Names, sym: Symbol, e: Symbol, position: int)
    requires names.parseArray(sym.typeName).Some?
  {
    var elementType := names.parseArray(sym.typeName).value.elementType;
    && e.typeName == elementType && e.dataType.Some? && e.dataType == names.ScalarOf(elementType) && !e.unsupported
    && e.group == sym.group && e.size == e.dataType.value.Size() && e.offset == sym.offset + position * e.size
  }

  /** For every index vector in bounds exactly one element of a declared array carries it, at its place. */
  lemma ElementByIndex(names: Names, sym: Symbol, maxElements: int, out: seq<Symbol>, v: seq<int>) returns (n: nat)
    requires names.Sound() && out == ArrayElements(names, sym, maxElements).0 && out != []
    requires sym.offset + sym.size <= 0x1_0000_0000
    requires InBounds(names.parseArray(sym.typeName).value.dims, v)
    ensures n < |out| && Labels(out[n].name, sym.name, v)
    ensures IsElementAt(names, sym, out[n], Position(names.parseArray(sym.typeName).value.dims, v))
    ensures forall m | 0 <= m < |out| && Labels(out[m].name, sym.name, v) :: m == n
  {
    var info := names.parseArray(sym.typeName).value;
    var dims := info.dims;
    assert AllPositive(Counts(dims)) && dims != [];
    n := ElementAt(dims, v);
    ElementNameIs(names, sym, maxElements, out, n);
    JoinedReads(v);
    ElementOffset(names, sym, maxElements, out, n);
    hide ReadInts, Joined, ArrayElements, Position, Digits, AllPositive, Counts, TotalElements;
    forall m | 0 <= m < |out| && Labels(out[m].name, sym.name, v)
      ensures m == n
    {
      ElementNameIs(names, sym, maxElements, out, m);
      var w := VectorOf(dims, m);
      LabelText(out[m].name, sym.name, v, w);
    }
  }

  /** And every element carries one. */
  lemma ElementHasIndex(names: Names, sym: Symbol, maxElements: int, out: seq<Symbol>, n: nat) returns (v: seq<int>)
    requires names.Sound() && out == ArrayElements(names, sym, maxElements).0 && n < |out|
    ensures InBounds(names.parseArray(sym.typeName).value.dims, v) && Labels(out[n].name, sym.name, v)
  {
    var dims := names.parseArray(sym.typeName).value.dims;
    assert AllPositive(Counts(dims)) && dims != [];
    ElementNameIs(names, sym, maxElements, out, n);
    v := VectorOf(dims, n);
    JoinedReads(v);
  }

  lemma ElementNameIs(names: Names, sym: Symbol, maxElements: int, out: seq<Symbol>, n: nat)
    requires names.Sound() && out == ArrayElements(names, sym, maxElements).0 && n < |out|
    ensures names.parseArray(sym.typeName).Some?
    ensures var dims := names.parseArray(sym.typeName).value.dims;
            && dims != [] && AllPositive(Counts(dims)) && |out| == TotalElements(dims)
            && out[n].name == sym.name + "[" + Joined(Shifted(dims, Digits(Counts(dims), n))) + "]"
  {
    hide Joined, Digits, TotalElements;
  }

  lemma ElementOffset(names: Names, sym: Symbol, maxElements: int, out: seq<Symbol>, n: nat)
    requires names.Sound() && out == ArrayElements(names, sym, maxElements).0 && n < |out|
    requires sym.offset + sym.size <= 0x1_0000_0000
    ensures IsElementAt(names, sym, out[n], n)
  {
    var info := names.parseArray(sym.typeName).value;
    var size := names.ScalarOf(info.elementType).value.Size();
    MulLe(n + 1, |out|, size);
    assert (n + 1) * size == n * size + size;
    hide Joined, Digits;
  }

  // ---------- arrays of the type table ----------

  lemma {:induction false} DecimalHasDigits(s: string)
    requires ReadDecimal(s).Some?
    ensures forall i | 0 <= i < |s| :: '0' <= s[i] <= '9'
  {
    var n := |s| - 1;
    if n > 0 { DecimalHasDigits(s[..n]); }
  }

  lemma NumberHasNoCloser(s: string)
    requires ReadNumber(s).Some?
    ensures ']' !in s
  {
    hide ReadDecimal;
    DecimalHasDigits(if s != "" && s[0] == '-' then s[1..] else s);
    if s != "" && s[0] == '-' { assert s == ['-'] + s[1..]; }
  }

  lemma {:induction false} ReadableHasNoCloser(s: string)
    requires ReadInts(s).Some?
    ensures ']' !in s
    decreases |s|
  {
    hide ReadNumber;
    var k := LastComma(s);
    if k < 0 || k >= |s| {
      NumberHasNoCloser(s);
    } else {
      ReadableHasNoCloser(s[..k]);
      NumberHasNoCloser(s[k + 1..]);
      CommaThere(s);
      assert s == s[..k] + [s[k]] + s[k + 1..];
    }
  }

  lemma {:induction false} CommaThere(s: string)
    ensures var k := LastComma(s); k < |s| && (k >= 0 ==> s[k] == ',')
  {
    if s != "" && s[|s| - 1] != ',' { CommaThere(s[..|s| - 1]); }
  }

  /** The name is base[v] or continues it, in whatever spelling reads as v. */
  ghost predicate LabelledUnder(name: string, base: string, v: seq<int>) {
    exists t :: Under(base + ("[" + t + "]"), name) && ReadInts(t) == Some(v)
  }

  lemma UnderLabel(name: string, base: string, v: seq<int>, w: seq<int>)
    requires w != [] && LabelledUnder(name, base, v) && Under(base + ("[" + Joined(w) + "]"), name)
    ensures v == w
  {
    hide ReadInts, Joined, Under;
    var t :| Under(base + ("[" + t + "]"), name) && ReadInts(t) == Some(v);
    JoinedReads(w);
    ReadableHasNoCloser(t);
    ReadableHasNoCloser(Joined(w));
    SubscriptText(base, t, name);
    SubscriptText(base, Joined(w), name);
  }

  ghost function Span(dims: seq<Dim>, size: nat): nat {
    TotalElements(dims) * size
  }

  /** The leaves of an array over a well-formed table. */
  ghost predicate AreElements(
      leaves: seq<Symbol>, c: Context, name: string, dims: seq<Dim>, elementType: string, size: nat, offset: nat)
  {
    && WellFormed(c) && size == SizeOf(c, elementType) && dims != []
    && Room(c, offset + Span(dims, size))
    && exists stack, depth: nat :: depth <= c.depthCap
         && leaves == ArrayOf(c, stack, name, dims, elementType, size, offset, depth).leaves
  }

  /** There, every leaf under name[v] lies in the bytes of the element at v's position. */
  lemma LeafInElement(
      leaves: seq<Symbol>, c: Context, name: string, dims: seq<Dim>, elementType: string, size: nat, offset: nat,
      l: Symbol, v: seq<int>) returns (at: nat)
    requires AreElements(leaves, c, name, dims, elementType, size, offset) && l in leaves && LabelledUnder(l.name, name, v)
    ensures InBounds(dims, v) && at == offset + Position(dims, v) * size && Within(l, 8 * at, 8 * (at + size))
  {
    hide AreElements, ReadInts, Joined, Position, Digits, TotalElements, Under, LabelledUnder, Within, InBounds;
    var m := ElementOf(leaves, c, name, dims, elementType, size, offset, l);
    var w := VectorOf(dims, m);
    NotEmpty(leaves, c, name, dims, elementType, size, offset);
    assert Subscript(dims, m) == "[" + Joined(w) + "]";
    UnderLabel(l.name, name, v, w);
    at := offset + m * size;
    PlaceOf(offset, m, size);
  }

  lemma NotEmpty(
      leaves: seq<Symbol>, c: Context, name: string, dims: seq<Dim>, elementType: string, size: nat, offset: nat)
    requires AreElements(leaves, c, name, dims, elementType, size, offset)
    ensures dims != []
  {
    hide WellFormed, SizeOf, ArrayOf;
  }

  lemma SoundThere(
      leaves: seq<Symbol>, c: Context, name: string, dims: seq<Dim>, elementType: string, size: nat, offset: nat)
    requires AreElements(leaves, c, name, dims, elementType, size, offset)
    ensures c.names.Sound()
  {
    hide SizeOf, ArrayOf;
  }

  lemma PlaceOf(offset: nat, m: nat, size: nat)
    ensures Place(offset, m, size) == 8 * (offset + m * size)
    ensures Place(offset, m + 1, size) == 8 * (offset + m * size + size)
  {
  }

  /** The leaf belongs to an element, by name and by place. */
  lemma ElementOf(
      leaves: seq<Symbol>, c: Context, name: string, dims: seq<Dim>, elementType: string, size: nat, offset: nat, l: Symbol)
    returns (m: nat)
    requires AreElements(leaves, c, name, dims, elementType, size, offset) && l in leaves
    ensures AllPositive(Counts(dims)) && m < TotalElements(dims) && Under(name + Subscript(dims, m), l.name)
    ensures Within(l, Place(offset, m, size), Place(offset, m + 1, size))
  {
    hide WellFormed, SizeOf, ElementsFrom, TotalElements, Place, Under, Subscript, Within, Room;
    SoundThere(leaves, c, name, dims, elementType, size, offset);
    var stack, depth: nat :| depth <= c.depthCap
      && leaves == ArrayOf(c, stack, name, dims, elementType, size, offset, depth).leaves;
    var total := TotalElements(dims);
    assert total > 0 && size > 0;
    PositiveDims(dims);
    PlaceEnds(offset, total, size, total * size);
    ElementsAreTidy(c, stack, name, dims, elementType, size, total, offset, offset + total * size, depth);
    assert FromElement(name, dims, offset, size, 0, l) by { hide FromElement; }
    m :| 0 <= m < total && Under(name + Subscript(dims, m), l.name)
         && Within(l, Place(offset, m, size), Place(offset, m + 1, size));
  }
}
