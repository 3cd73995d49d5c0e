/**
  PLC type names: which of them are single numbers, and the expansion of an
  array of such numbers from its declaration alone.
 */
module PlcNames {
  import opened Arithmetic
  import opened Options
  import opened Odometer

  datatype Scalar = Bool | Int8 | Uint8 | Int16 | Uint16 | Int32 | Uint32 | Int64 | Uint64 | Float32 | Float64
  {
    function Size(): (n: nat)
      ensures 1 <= n <= 8
    {
      match this
      case Bool | Int8 | Uint8 => 1
      case Int16 | Uint16 => 2
      case Int32 | Uint32 | Float32 => 4
      case Int64 | Uint64 | Float64 => 8
    }
  }

  /** One dimension [lower .. lower + count - 1]. */
  datatype Dim = Dim(lower: int, count: nat)

  datatype ArrayInfo = ArrayInfo(dims: seq<Dim>, elementType: string)

  function Counts(dims: seq<Dim>): (counts: seq<nat>)
    ensures |counts| == |dims|
  {
    seq(|dims|, d requires 0 <= d < |dims| => dims[d].count)
  }

  function TotalElements(dims: seq<Dim>): nat {
    Product(Counts(dims))
  }

  /** What the sources take from their string library: case folding, trimming and the array pattern. */
  datatype Names = Names(
    upper: string -> string,
    trim: string -> string,
    parseArray: string -> Option<ArrayInfo>)
  {
    /** A parsed declaration has at least one dimension and no empty one. */
    ghost predicate Sound() {
      forall s :: parseArray(s).Some? ==>
        var dims := parseArray(s).value.dims;
        dims != [] && AllPositive(Counts(dims))
    }

    function ScalarOf(typeName: string): Option<Scalar> {
      ScalarOfUpper(upper(trim(typeName)))
    }
  }

  function ScalarOfUpper(t: string): Option<Scalar> {
    if t == "BOOL" then Some(Bool)
    else if t == "SINT" then Some(Int8)
    else if t == "USINT" || t == "BYTE" then Some(Uint8)
    else if t == "INT" then Some(Int16)
    else if t == "UINT" || t == "WORD" then Some(Uint16)
    else if t == "DINT" then Some(Int32)
    else if t == "UDINT" || t == "DWORD" then Some(Uint32)
    else if t == "LINT" then Some(Int64)
    else if t == "ULINT" || t == "LWORD" then Some(Uint64)
    else if t == "REAL" then Some(Float32)
    else if t == "LREAL" then Some(Float64)
    else None
  }

  function ScalarOfCode(adst: nat): Option<Scalar> {
    match adst
    case 33 => Some(Bool)
    case 16 => Some(Int8)
    case 17 => Some(Uint8)
    case 2 => Some(Int16)
    case 18 => Some(Uint16)
    case 3 => Some(Int32)
    case 19 => Some(Uint32)
    case 20 => Some(Int64)
    case 21 => Some(Uint64)
    case 4 => Some(Float32)
    case 5 => Some(Float64)
    case _ => None
  }

  /** std::uint32_t arithmetic wraps. */
  function U32(n: nat): (r: nat)
    ensures r < 0x1_0000_0000
    ensures n < 0x1_0000_0000 ==> r == n
  {
    n % 0x1_0000_0000
  }

  datatype Symbol = Symbol(
    name: string, typeName: string, group: nat, offset: nat, size: nat,
    unsupported: bool, dataType: Option<Scalar>)

  /** The source's "[i,j]" for element n. */
  function Subscript(dims: seq<Dim>, n: nat): string
    requires AllPositive(Counts(dims))
  {
    "[" + Joined(Shifted(dims, Digits(Counts(dims), n))) + "]"
  }

  function Shifted(dims: seq<Dim>, idx: seq<nat>): (xs: seq<int>)
    requires |idx| == |dims|
    ensures |xs| == |dims|
  {
    seq(|dims|, d requires 0 <= d < |dims| => dims[d].lower + idx[d])
  }

  /** Different elements carry different subscripts. */
  lemma SubscriptInjective(dims: seq<Dim>, m: nat, n: nat)
    requires AllPositive(Counts(dims)) && m < TotalElements(dims) && n < TotalElements(dims)
    requires Subscript(dims, m) == Subscript(dims, n)
    ensures m == n
  {
    var counts := Counts(dims);
    var a, b := Digits(counts, m), Digits(counts, n);
    var s, t := Joined(Shifted(dims, a)), Joined(Shifted(dims, b));
    assert Subscript(dims, m)[1..|Subscript(dims, m)| - 1] == s;
    assert Subscript(dims, n)[1..|Subscript(dims, n)| - 1] == t;
    JoinedInjective(Shifted(dims, a), Shifted(dims, b));
    forall d | 0 <= d < |dims|
      ensures a[d] == b[d]
    {
      assert Shifted(dims, a)[d] == Shifted(dims, b)[d];
    }
    assert a == b;
    RowMajorOfDigits(counts, m);
    RowMajorOfDigits(counts, n);
  }

  // ---------- an array of scalars, from its declaration alone ----------

  datatype Warning = NoWarning | NotRecordable | TooMany | SizeMismatch

  /** Element n of the symbol, written with the index vector idx. */
  function ElementWith(sym: Symbol, info: ArrayInfo, dt: Scalar, n: nat, idx: seq<nat>): Symbol
    requires |idx| == |info.dims|
  {
    sym.(name := sym.name + "[" + Joined(Shifted(info.dims, idx)) + "]",
         typeName := info.elementType, dataType := Some(dt),
         unsupported := false, size := dt.Size(), offset := U32(sym.offset + U32(n * dt.Size())))
  }

  ghost function Elements(sym: Symbol, info: ArrayInfo, dt: Scalar): seq<Symbol>
    requires AllPositive(Counts(info.dims))
  {
    seq(TotalElements(info.dims), n requires 0 <= n => ElementWith(sym, info, dt, n, Digits(Counts(info.dims), n)))
  }

  ghost function ArrayElements(names: Names, sym: Symbol, maxElements: int): (seq<Symbol>, Warning)
    requires names.Sound()
  {
    match names.parseArray(sym.typeName)
    case None => ([], NoWarning)
    case Some(info) =>
      assert AllPositive(Counts(info.dims));
      match names.ScalarOf(info.elementType)
      case None => ([], NotRecordable)
      case Some(dt) =>
        var total := TotalElements(info.dims);
        if total > maxElements then ([], TooMany)
        else if sym.size != total * dt.Size() then ([], SizeMismatch)
        else (Elements(sym, info, dt), NoWarning)
  }

  method ExpandArraySymbol(names: Names, sym: Symbol, maxElements: int) returns (out: seq<Symbol>, warn: Warning)
    requires names.Sound()
    ensures (out, warn) == ArrayElements(names, sym, maxElements)
  {
    var info := names.parseArray(sym.typeName);
    if info == None {
      return [], NoWarning;
    }
    var dims, elementType := info.value.dims, info.value.elementType;
    assert AllPositive(Counts(dims));
    var dt := names.ScalarOf(elementType);
    if dt == None {
      return [], NotRecordable;
    }
    var total := TotalElements(dims);
    if total > maxElements {
      return [], TooMany;
    }
    var elemSize := dt.value.Size();
    if sym.size != total * elemSize {
      return [], SizeMismatch;
    }
    out := ListElements(sym, info.value, dt.value);
    warn := NoWarning;
  }

  method ListElements(sym: Symbol, info: ArrayInfo, dt: Scalar) returns (out: seq<Symbol>)
    requires AllPositive(Counts(info.dims))
    ensures out == Elements(sym, info, dt)
  {
    var counts, total := Counts(info.dims), TotalElements(info.dims);
    ghost var all := Elements(sym, info, dt);
    var idx := new nat[|counts|](_ => 0);
    out := [];
    DigitsOfZero(counts);
    hide Next, ElementWith, Counts, TotalElements, Digits, AllPositive;
    for n := 0 to total
      invariant idx[..] == Digits(counts, n)
      invariant out == all[..n]
    {
      out := out + [ElementWith(sym, info, dt, n, idx[..])];
      assert out == all[..n + 1];
      NextIsSuccessor(counts, n);
      Step(idx, counts);
    }
  }

  lemma {:induction false} DigitsOfZero(counts: seq<nat>)
    requires AllPositive(counts)
    ensures Digits(counts, 0) == seq(|counts|, _ => 0)
  {
    if counts != [] {
      DigitsOfZero(counts[..|counts| - 1]);
    }
  }

  /** The elements tile the array's own bytes, in order, without gap or overlap. */
  lemma ElementsTile(names: Names, sym: Symbol, maxElements: int, out: seq<Symbol>)
    requires names.Sound() && out == ArrayElements(names, sym, maxElements).0 && out != []
    requires sym.offset + sym.size <= 0x1_0000_0000
    ensures out[0].offset == sym.offset
    ensures forall n | 0 < n < |out| :: out[n].offset == out[n - 1].offset + out[n - 1].size
    ensures out[|out| - 1].offset + out[|out| - 1].size == sym.offset + sym.size
  {
    var info := names.parseArray(sym.typeName).value;
    var size := names.ScalarOf(info.elementType).value.Size();
    var total := TotalElements(info.dims);
    forall n | 0 <= n < total
      ensures out[n].offset == sym.offset + n * size && (n + 1) * size == n * size + size <= sym.size
    {
      MulLe(n + 1, total, size);
    }
  }

  /** ... and their names are pairwise different. */
  lemma ElementNamesDistinct(names: Names, sym: Symbol, maxElements: int, out: seq<Symbol>, m: nat, n: nat)
    requires names.Sound() && out == ArrayElements(names, sym, maxElements).0
    requires m < |out| && n < |out| && out[m].name == out[n].name
    ensures m == n
  {
    var info := names.parseArray(sym.typeName).value;
    ElementName(names, sym, maxElements, out, m);
    ElementName(names, sym, maxElements, out, n);
    hide ArrayElements, Subscript;
    SubscriptInjective(info.dims, m, n);
  }

  lemma ElementName(names: Names, sym: Symbol, maxElements: int, out: seq<Symbol>, n: nat)
    requires names.Sound() && out == ArrayElements(names, sym, maxElements).0 && n < |out|
    ensures names.parseArray(sym.typeName).Some?
    ensures var dims := names.parseArray(sym.typeName).value.dims;
            && AllPositive(Counts(dims)) && n < TotalElements(dims)
            && out[n].name[|sym.name|..] == Subscript(dims, n)
  {
    hide Digits, Joined;
    var dims := names.parseArray(sym.typeName).value.dims;
    assert sym.name + "[" + Joined(Shifted(dims, Digits(Counts(dims), n))) + "]" == sym.name + Subscript(dims, n);
  }
}
