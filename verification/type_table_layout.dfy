/**
  What the expansion over a well-formed type table promises: every leaf lies in
  the symbol's own bits, no two leaves share a bit, and no two share a name.
 */
module TypeTableLayout {
  import opened Arithmetic
  import opened Options
  import opened Odometer
  import opened PlcNames
  import opened TypeTable

  // ---------- well-formed tables ----------

  /** Bytes a type occupies, as far as the table and the declarations tell. */
  ghost function SizeOf(c: Context, typeName: string): nat
    requires c.names.Sound()
  {
    var key := c.names.upper(typeName);
    if key in c.types then c.types[key].size
    else match c.names.ScalarOf(typeName)
    case Some(dt) => dt.Size()
    case None =>
      match c.names.parseArray(typeName)
      case None => 0
      case Some(info) =>
        match SizeOfTypeName(c, info.elementType)
        case None => 0
        case Some(size) => TotalElements(info.dims) * size
  }

  ghost predicate NoBits(t: Entry) {
    forall i | 0 <= i < |t.members| :: !t.members[i].bit
  }

  /** A member's first bit and the bit after its last, from the parent's start. */
  ghost function FirstBit(m: Member): nat {
    if m.bit then m.offset else 8 * m.offset
  }

  ghost function EndBit(c: Context, m: Member): nat
    requires c.names.Sound()
  {
    if m.bit then m.offset + 1 else 8 * (m.offset + SizeOf(c, m.typeName))
  }

  /** No '.' and no '[' in it. */
  ghost predicate Plain(name: string) {
    '.' !in name && '[' !in name
  }

  ghost predicate MembersFit(c: Context, members: seq<Member>, size: nat)
    requires c.names.Sound()
  {
    && (forall i | 0 <= i < |members| :: EndBit(c, members[i]) <= 8 * size && Plain(members[i].name))
    && (forall i, j | 0 <= i < j < |members| ::
          && members[i].name != members[j].name
          && (EndBit(c, members[i]) <= FirstBit(members[j]) || EndBit(c, members[j]) <= FirstBit(members[i])))
  }

  ghost predicate WellFormedEntry(c: Context, t: Entry)
    requires c.names.Sound()
  {
    if t.dims != [] then t.size == TotalElements(t.dims) * SizeOf(c, t.elementType)
    else if t.members != [] then MembersFit(c, t.members, t.size)
    else ScalarOfEntry(c, t) != None ==> ScalarOfEntry(c, t).value.Size() <= t.size
  }

  ghost predicate WellFormed(c: Context) {
    && c.names.Sound()
    && c.root.group != BIT_GROUP
    && (forall key | key in c.types :: WellFormedEntry(c, c.types[key]))
    && forall s | c.names.ScalarOf(s) != None && c.names.upper(s) in c.types ::
         c.types[c.names.upper(s)].size == c.names.ScalarOf(s).value.Size()
  }

  ghost predicate BitFree(c: Context) {
    forall key, i | key in c.types && 0 <= i < |c.types[key].members| :: !c.types[key].members[i].bit
  }

  /** Addresses up to byte end fit the PLC's 32 bits, as bit addresses too where the table has bits. */
  ghost predicate Room(c: Context, end: nat) {
    end <= 0x1_0000_0000 && (8 * end <= 0x1_0000_0000 || BitFree(c))
  }

  /** A box: two points of two numbers each, and two bits in the byte behind them. */
  function Box(): map<string, Entry> {
    map["POINT" := Entry("POINT", "", 4, 65, [], [Member("x", "INT", 0, false), Member("y", "INT", 2, false)]),
        "EDGE" := Entry("EDGE", "POINT", 8, 65, [Dim(1, 2)], []),
        "BOX" := Entry("BOX", "", 9, 65, [],
                       [Member("edge", "EDGE", 0, false), Member("on", "BIT", 64, true), Member("off", "BIT", 65, true)])]
  }

  function BoxContext(root: Symbol): (c: Context)
    ensures c.names.Sound()
  {
    Context(Names(s => s, s => s, s => None), Box(), root, 64)
  }

  lemma BoxNames(root: Symbol)
    ensures var c := BoxContext(root);
            && c.names.ScalarOf("INT") == Some(Int16)
            && c.names.ScalarOf("POINT") == c.names.ScalarOf("EDGE") == c.names.ScalarOf("BOX") == None
  {
    hide Box;
    assert ScalarOfUpper("INT") == Some(Int16);
    NotScalar("POINT");
    NotScalar("EDGE");
    NotScalar("BOX");
  }

  /** No elementary type has one of these names. */
  lemma NotScalar(name: string)
    requires name == "POINT" || name == "EDGE" || name == "BOX"
    ensures ScalarOfUpper(name) == None
  {
    assert name[|name| - 1] == 'T' || name[|name| - 1] == 'E' || name[|name| - 1] == 'X';
    assert name[0] == 'P' || name[0] == 'E' || name == "BOX";
    assert "BOX"[2] == 'X' && "BOOL"[0] == 'B' && |"BYTE"| == 4;
  }

  lemma BoxSizes(root: Symbol)
    ensures var c := BoxContext(root);
            && SizeOf(c, "INT") == 2 && SizeOf(c, "POINT") == 4 && SizeOf(c, "EDGE") == 8
            && forall key | key in c.types :: c.names.ScalarOf(key) == None
  {
    hide ScalarOfUpper, Names.ScalarOf;
    BoxNames(root);
    assert "INT" !in Box() by { assert "INT"[0] == 'I' && "POINT"[0] == 'P' && "EDGE"[0] == 'E' && "BOX"[0] == 'B'; }
    assert "POINT"[0] == 'P' && "EDGE"[0] == 'E' && "BOX"[0] == 'B';
  }

  lemma BoxEntries(root: Symbol)
    ensures var c := BoxContext(root); forall key | key in c.types :: WellFormedEntry(c, c.types[key])
  {
    BoxSizes(root);
    hide SizeOf, Names.ScalarOf;
    var c := BoxContext(root);
    var dims := c.types["EDGE"].dims;
    assert Counts(dims) == [2] && [2][..0] == [] && Product([2]) == Product([]) * 2;
    assert WellFormedEntry(c, c.types["EDGE"]);
    assert MembersFit(c, c.types["POINT"].members, 4);
    assert MembersFit(c, c.types["BOX"].members, 9);
  }

  /** Structures, arrays and bits do nest in well-formed tables. */
  lemma BoxIsWellFormed(root: Symbol)
    requires root.group != BIT_GROUP
    ensures WellFormed(BoxContext(root)) && Room(BoxContext(root), 0x1000)
  {
    BoxSizes(root);
    BoxEntries(root);
    hide SizeOf, Box, WellFormedEntry, ScalarOfUpper;
  }

  // ---------- leaves as bit ranges ----------

  ghost function Lo(l: Symbol): nat {
    if l.group == BIT_GROUP then l.offset else 8 * l.offset
  }

  ghost function Hi(l: Symbol): nat {
    if l.group == BIT_GROUP then l.offset + 1 else 8 * (l.offset + l.size)
  }

  ghost predicate Within(l: Symbol, lo: nat, hi: nat) {
    lo <= Lo(l) < Hi(l) <= hi
  }

  /** name is prefix itself or continues it with a member or a subscript. */
  ghost predicate Under(prefix: string, name: string) {
    prefix <= name && (|prefix| < |name| ==> name[|prefix|] == '.' || name[|prefix|] == '[')
  }

  ghost predicate Separate(a: Symbol, b: Symbol) {
    a.name != b.name && (Hi(a) <= Lo(b) || Hi(b) <= Lo(a))
  }

  ghost predicate Apart(leaves: seq<Symbol>) {
    forall i, j | 0 <= i < j < |leaves| :: Separate(leaves[i], leaves[j])
  }

  ghost predicate Tidy(leaves: seq<Symbol>, prefix: string, lo: nat, hi: nat) {
    Apart(leaves) && forall l | l in leaves :: Within(l, lo, hi) && Under(prefix, l.name)
  }

  lemma ApartConcat(a: seq<Symbol>, b: seq<Symbol>)
    requires Apart(a) && Apart(b) && forall x, y | x in a && y in b :: Separate(x, y)
    ensures Apart(a + b)
  {
    var s := a + b;
    forall i, j | 0 <= i < j < |s|
      ensures Separate(s[i], s[j])
    {
      if i < |a| <= j {
        assert s[i] in a && s[j] in b;
      }
    }
  }

  lemma UnderExtends(prefix: string, suffix: string, name: string)
    requires suffix != "" && (suffix[0] == '.' || suffix[0] == '[') && Under(prefix + suffix, name)
    ensures Under(prefix, name) && prefix != name
  {
    assert (prefix + suffix)[|prefix|] == suffix[0];
  }

  /** The member names after a common prefix keep leaves of different members apart. */
  lemma MemberNamesSplit(prefix: string, m: string, n: string, a: string, b: string)
    requires Plain(m) && Plain(n) && m != n
    requires Under(prefix + "." + m, a) && Under(prefix + "." + n, b)
    ensures a != b
  {
    PlainEnd(prefix + ".", m, a);
    PlainEnd(prefix + ".", n, b);
  }

  /** Where the first separator after position |prefix| stands. */
  function Separator(s: string, i: nat): (j: nat)
    requires i <= |s|
    ensures i <= j <= |s|
    decreases |s| - i
  {
    if i == |s| || s[i] == '.' || s[i] == '[' then i else Separator(s, i + 1)
  }

  lemma PlainEnd(prefix: string, m: string, name: string)
    requires Plain(m) && Under(prefix + m, name)
    ensures Separator(name, |prefix|) == |prefix| + |m|
    ensures name[|prefix|..|prefix| + |m|] == m
  {
    var end := |prefix| + |m|;
    assert (prefix + m)[|prefix|..] == m;
    SeparatorAt(name, |prefix|, end);
  }

  lemma {:induction false} SeparatorAt(s: string, i: nat, end: nat)
    requires i <= end <= |s| && (end < |s| ==> s[end] == '.' || s[end] == '[')
    requires forall k | i <= k < end :: s[k] != '.' && s[k] != '['
    ensures Separator(s, i) == end
    decreases end - i
  {
    if i < end {
      SeparatorAt(s, i + 1, end);
    }
  }

  /** The text before the first ']'. */
  function BeforeCloser(s: string): string {
    if s == "" || s[0] == ']' then "" else [s[0]] + BeforeCloser(s[1..])
  }

  lemma {:induction false} BeforeCloserOf(inner: string, rest: string)
    requires ']' !in inner
    ensures BeforeCloser(inner + "]" + rest) == inner
  {
    var s := inner + "]" + rest;
    if inner != "" {
      BeforeCloserOf(inner[1..], rest);
      assert s[1..] == inner[1..] + "]" + rest;
      assert inner == [inner[0]] + inner[1..];
    }
  }

  lemma SubscriptText(prefix: string, inner: string, name: string)
    requires ']' !in inner && Under(prefix + ("[" + inner + "]"), name)
    ensures |prefix| < |name| && BeforeCloser(name[|prefix| + 1..]) == inner
  {
    var sub := "[" + inner + "]";
    var rest := name[|prefix + sub|..];
    assert name == (prefix + sub) + rest;
    assert name[|prefix| + 1..] == inner + "]" + rest;
    BeforeCloserOf(inner, rest);
  }

  lemma SubscriptsSplit(prefix: string, dims: seq<Dim>, m: nat, n: nat, a: string, b: string)
    requires AllPositive(Counts(dims)) && m < TotalElements(dims) && n < TotalElements(dims) && m != n
    requires Under(prefix + Subscript(dims, m), a) && Under(prefix + Subscript(dims, n), b)
    ensures a != b
  {
    var x := Joined(Shifted(dims, Digits(Counts(dims), m)));
    var y := Joined(Shifted(dims, Digits(Counts(dims), n)));
    SubscriptText(prefix, x, a);
    SubscriptText(prefix, y, b);
    if x == y {
      SubscriptInjective(dims, m, n);
    }
  }

  // ---------- the theorem ----------

  /** The leaves of an expansion lie in the bytes of its type, apart from each other, under its name. */
  lemma {:induction false} LeavesAreTidy(c: Context, stack: seq<string>, name: string, typeName: string, offset: nat, depth: nat)
    requires depth <= c.depthCap + 1 && WellFormed(c)
    requires Room(c, offset + SizeOf(c, typeName))
    ensures Tidy(Expand(c, stack, name, typeName, offset, depth).leaves, name, 8 * offset, 8 * (offset + SizeOf(c, typeName)))
    decreases c.depthCap + 1 - depth, 2, 0
  {
    hide ArrayOf, MembersFrom, ExpandUnlisted, ExpandScalarEntry, MembersFit, ScalarOfEntry, TotalElements, Tidy, WellFormed;
    assert c.names.Sound() by { SoundNames(c); }
    var key, hi := c.names.upper(typeName), 8 * (offset + SizeOf(c, typeName));
    var leaves := Expand(c, stack, name, typeName, offset, depth).leaves;
    NoLeavesTidy(name, 8 * offset, hi);
    if depth > c.depthCap {
      assert leaves == [];
    } else if key !in c.types {
      UnlistedIsTidy(c, stack, name, typeName, offset, depth);
    } else {
      var t := c.types[key];
      ListedWell(c, key);
      if !t.Composite() {
        ScalarIsTidy(c, name, t, offset);
        assert leaves == ExpandScalarEntry(c, name, t, offset).leaves;
      } else if key in stack {
        assert leaves == [];
      } else if t.dims == [] {
        StructureIsTidy(c, stack + [key], name, t, offset, depth);
        assert leaves == MembersFrom(c, stack + [key], name, t.members, 0, offset, depth).leaves;
      } else if TotalElements(t.dims) == 0 || t.size == 0 {
        assert leaves == [];
      } else {
        ExactQuotient(TotalElements(t.dims), SizeOf(c, t.elementType), t.size);
        ArrayIsTidy(c, stack + [key], name, t.dims, t.elementType, SizeOf(c, t.elementType), t.size, offset, depth);
        assert leaves
            == ArrayOf(c, stack + [key], name, t.dims, t.elementType, SizeOf(c, t.elementType), offset, depth).leaves;
      }
    }
  }

  lemma SoundNames(c: Context)
    requires WellFormed(c)
    ensures c.names.Sound()
  {
  }

  lemma ListedWell(c: Context, key: string)
    requires WellFormed(c) && key in c.types
    ensures WellFormedEntry(c, c.types[key])
    ensures BitFree(c) ==> NoBits(c.types[key])
  {
  }

  lemma NoLeavesTidy(name: string, lo: nat, hi: nat)
    ensures Tidy([], name, lo, hi)
  {
  }

  lemma ScalarIsTidy(c: Context, name: string, t: Entry, offset: nat)
    requires WellFormed(c) && !t.Composite() && WellFormedEntry(c, t) && Room(c, offset + t.size)
    ensures Tidy(ExpandScalarEntry(c, name, t, offset).leaves, name, 8 * offset, 8 * (offset + t.size))
  {
    assert c.names.Sound() by { SoundNames(c); }
    hide WellFormed;
    assert forall l | l in ExpandScalarEntry(c, name, t, offset).leaves :: Under(name, l.name) by { assert name + "" == name; }
  }

  lemma StructureIsTidy(c: Context, stack: seq<string>, name: string, t: Entry, offset: nat, depth: nat)
    requires depth <= c.depthCap && WellFormed(c) && MembersFit(c, t.members, t.size)
    requires Room(c, offset + t.size) && (BitFree(c) ==> NoBits(t))
    ensures Tidy(MembersFrom(c, stack, name, t.members, 0, offset, depth).leaves, name, 8 * offset, 8 * (offset + t.size))
    decreases c.depthCap + 1 - depth, 1, 0
  {
    assert c.names.Sound();
    hide MembersFrom, WellFormed, Under, SizeOf;
    MembersAreTidy(c, stack, name, t, 0, offset, depth);
    forall l | l in MembersFrom(c, stack, name, t.members, 0, offset, depth).leaves
      ensures Within(l, 8 * offset, 8 * (offset + t.size)) && Under(name, l.name)
    {
      assert FromMember(c, name, offset, t.members, 0, l);
      var j: nat :| j < |t.members| && OwnedBy(c, name, offset, t.members[j], l);
      assert EndBit(c, t.members[j]) <= 8 * t.size;
      MemberUnder(name, t.members[j].name, l.name);
    }
  }

  lemma MemberUnder(name: string, m: string, leaf: string)
    requires Under(name + "." + m, leaf)
    ensures Under(name, leaf)
  {
    assert name + "." + m == name + ("." + m);
    UnderExtends(name, "." + m, leaf);
  }

  lemma ExactQuotient(count: nat, size: nat, total: nat)
    requires total == count * size && count > 0
    ensures total / count == size
  {
    DivMod(size, count, 0);
    assert size * count == count * size;
  }

  lemma UnlistedIsTidy(c: Context, stack: seq<string>, name: string, typeName: string, offset: nat, depth: nat)
    requires depth <= c.depthCap && WellFormed(c) && c.names.upper(typeName) !in c.types
    requires Room(c, offset + SizeOf(c, typeName))
    ensures Tidy(ExpandUnlisted(c, stack, name, typeName, offset, depth).leaves, name,
                 8 * offset, 8 * (offset + SizeOf(c, typeName)))
    decreases c.depthCap + 1 - depth, 1, 0
  {
    if c.names.ScalarOf(typeName) == None && c.names.parseArray(typeName) != None {
      var info := c.names.parseArray(typeName).value;
      if SizeOfTypeName(c, info.elementType) != None {
        assert SizeOf(c, info.elementType) == SizeOfTypeName(c, info.elementType).value;
        ArrayIsTidy(c, stack, name, info.dims, info.elementType, SizeOf(c, info.elementType), SizeOf(c, typeName), offset, depth);
      }
    }
  }

  lemma ArrayIsTidy(c: Context, stack: seq<string>, name: string, dims: seq<Dim>, elementType: string,
                    size: nat, span: nat, offset: nat, depth: nat)
    requires depth <= c.depthCap && WellFormed(c) && size == SizeOf(c, elementType)
    requires span == TotalElements(dims) * size && Room(c, offset + span)
    ensures Tidy(ArrayOf(c, stack, name, dims, elementType, size, offset, depth).leaves, name, 8 * offset, 8 * (offset + span))
    decreases c.depthCap + 1 - depth, 0, TotalElements(dims) + 1
  {
    assert c.names.Sound();
    hide WellFormed, SizeOf, ElementsFrom, TidyElements, Tidy, Place, TotalElements;
    var total := TotalElements(dims);
    if total > 0 && size > 0 {
      assert AllPositive(Counts(dims)) by { PositiveDims(dims); }
      PlaceEnds(offset, total, size, span);
      ElementsAreTidy(c, stack, name, dims, elementType, size, total, offset, offset + span, depth);
      ElementsUnderName(ElementsFrom(c, stack, name, dims, elementType, size, 0, offset, depth).leaves, name, dims, offset, size,
                        8 * offset, 8 * (offset + span));
    } else {
      NoLeavesTidy(name, 8 * offset, 8 * (offset + span));
    }
  }

  lemma PositiveDims(dims: seq<Dim>)
    requires TotalElements(dims) > 0
    ensures AllPositive(Counts(dims))
  {
    ProductPositive(Counts(dims));
  }

  lemma PlaceEnds(offset: nat, total: nat, size: nat, span: nat)
    requires span == total * size
    ensures Place(offset, 0, size) == 8 * offset && Place(offset, total, size) == 8 * (offset + span)
  {
    assert 0 * size == 0;
  }

  lemma ElementsUnderName(leaves: seq<Symbol>, name: string, dims: seq<Dim>, offset: nat, size: nat, lo: nat, hi: nat)
    requires AllPositive(Counts(dims)) && TidyElements(leaves, name, dims, offset, size, 0, lo, hi)
    ensures Tidy(leaves, name, lo, hi)
  {
    hide Under;
    forall l | l in leaves
      ensures Under(name, l.name)
    {
      assert FromElement(name, dims, offset, size, 0, l);
      var m: nat :| m < TotalElements(dims) && Under(name + Subscript(dims, m), l.name);
      UnderExtends(name, Subscript(dims, m), l.name);
    }
  }

  /** The leaf is one of element number n or later, under that element's name and in its place. */
  ghost predicate FromElement(name: string, dims: seq<Dim>, offset: nat, size: nat, n: nat, l: Symbol)
    requires AllPositive(Counts(dims))
  {
    exists m: nat :: n <= m < TotalElements(dims) && Under(name + Subscript(dims, m), l.name)
                     && Within(l, Place(offset, m, size), Place(offset, m + 1, size))
  }

  /** The leaves of elements n and later, from bit lo on. */
  ghost predicate TidyElements(leaves: seq<Symbol>, name: string, dims: seq<Dim>, offset: nat, size: nat, n: nat, lo: nat, hi: nat)
    requires AllPositive(Counts(dims))
  {
    Apart(leaves) && forall l | l in leaves :: Within(l, lo, hi) && FromElement(name, dims, offset, size, n, l)
  }

  lemma JoinElement(first: seq<Symbol>, rest: seq<Symbol>, name: string, dims: seq<Dim>, offset: nat, size: nat, n: nat, hi: nat)
    requires AllPositive(Counts(dims)) && n < TotalElements(dims)
    requires Place(offset, n, size) <= Place(offset, n + 1, size) <= hi
    requires Tidy(first, name + Subscript(dims, n), Place(offset, n, size), Place(offset, n + 1, size))
    requires TidyElements(rest, name, dims, offset, size, n + 1, Place(offset, n + 1, size), hi)
    ensures TidyElements(first + rest, name, dims, offset, size, n, Place(offset, n, size), hi)
  {
    hide Subscript, Under, Counts, TotalElements, AllPositive, Place;
    var lo, mid := Place(offset, n, size), Place(offset, n + 1, size);
    forall x, y | x in first && y in rest
      ensures Separate(x, y)
    {
      assert FromElement(name, dims, offset, size, n + 1, y);
      var m: nat :| n + 1 <= m < TotalElements(dims) && Under(name + Subscript(dims, m), y.name);
      SubscriptsSplit(name, dims, n, m, x.name, y.name);
      assert Hi(x) <= mid <= Lo(y);
    }
    ApartConcat(first, rest);
    forall l | l in first + rest
      ensures Within(l, lo, hi) && FromElement(name, dims, offset, size, n, l)
    {
      if l in rest {
        assert FromElement(name, dims, offset, size, n + 1, l);
      }
    }
  }

  /** The first bit of element n of an array at byte offset. */
  ghost function Place(offset: nat, n: nat, size: nat): nat {
    8 * (offset + n * size)
  }

  lemma ElementPlace(offset: nat, n: nat, total: nat, size: nat)
    requires n < total && size > 0 && Place(offset, total, size) <= 8 * 0x1_0000_0000
    ensures U32(offset + U32(n * size)) == offset + n * size
    ensures 8 * (offset + n * size) == Place(offset, n, size)
    ensures 8 * (offset + n * size + size) == Place(offset, n + 1, size) <= Place(offset, total, size)
  {
    MulLe(n + 1, total, size);
    assert (n + 1) * size == n * size + size;
  }

  /** Element n, at byte here, and the elements after it. */
  lemma ElementSplit(c: Context, stack: seq<string>, name: string, dims: seq<Dim>, elementType: string,
                     size: nat, total: nat, n: nat, offset: nat, depth: nat) returns (here: nat)
    requires depth <= c.depthCap && c.names.Sound() && AllPositive(Counts(dims))
    requires total == TotalElements(dims) && n < total && size > 0 && Place(offset, total, size) <= 8 * 0x1_0000_0000
    ensures 8 * here == Place(offset, n, size) && 8 * (here + size) == Place(offset, n + 1, size) <= Place(offset, total, size)
    ensures ElementsFrom(c, stack, name, dims, elementType, size, n, offset, depth).leaves
         == Expand(c, stack, name + Subscript(dims, n), elementType, here, depth + 1).leaves
            + ElementsFrom(c, stack, name, dims, elementType, size, n + 1, offset, depth).leaves
  {
    hide Expand, Subscript, ElementsFrom, AllPositive, Counts, TotalElements;
    here := offset + n * size;
    ElementPlace(offset, n, total, size);
    ElementsFromStep(c, stack, name, dims, elementType, size, n, offset, depth);
  }

  lemma ElementsAreTidy(c: Context, stack: seq<string>, name: string, dims: seq<Dim>, elementType: string,
                        size: nat, total: nat, offset: nat, end: nat, depth: nat)
    requires depth <= c.depthCap && WellFormed(c) && size == SizeOf(c, elementType)
    requires AllPositive(Counts(dims)) && total == TotalElements(dims) && total > 0 && size > 0
    requires Place(offset, total, size) == 8 * end && Room(c, end)
    ensures TidyElements(ElementsFrom(c, stack, name, dims, elementType, size, 0, offset, depth).leaves, name, dims, offset, size, 0,
                         Place(offset, 0, size), Place(offset, total, size))
    decreases c.depthCap + 1 - depth, 0, total
  {
    assert c.names.Sound();
    hide Expand, Subscript, SizeOf, WellFormed, ElementsFrom, Tidy, TidyElements, AllPositive, Counts, TotalElements, Place;
    ghost var n := total;
    ghost var rest := ElementsFrom(c, stack, name, dims, elementType, size, n, offset, depth).leaves;
    ElementsFromEnd(c, stack, name, dims, elementType, size, offset, depth);
    NothingIsTidy(name, dims, offset, size, n, Place(offset, n, size), Place(offset, total, size));
    while n > 0
      invariant n <= total && rest == ElementsFrom(c, stack, name, dims, elementType, size, n, offset, depth).leaves
      invariant TidyElements(rest, name, dims, offset, size, n, Place(offset, n, size), Place(offset, total, size))
    {
      n := n - 1;
      var here := ElementSplit(c, stack, name, dims, elementType, size, total, n, offset, depth);
      var first := Expand(c, stack, name + Subscript(dims, n), elementType, here, depth + 1).leaves;
      LeavesAreTidy(c, stack, name + Subscript(dims, n), elementType, here, depth + 1);
      JoinElement(first, rest, name, dims, offset, size, n, Place(offset, total, size));
      rest := first + rest;
    }
  }

  lemma NothingIsTidy(name: string, dims: seq<Dim>, offset: nat, size: nat, n: nat, lo: nat, hi: nat)
    requires AllPositive(Counts(dims))
    ensures TidyElements([], name, dims, offset, size, n, lo, hi)
  {}

  /** The leaf belongs to member m of a structure at byte offset. */
  ghost predicate OwnedBy(c: Context, name: string, offset: nat, m: Member, l: Symbol)
    requires c.names.Sound()
  {
    Within(l, 8 * offset + FirstBit(m), 8 * offset + EndBit(c, m)) && Under(name + "." + m.name, l.name)
  }

  ghost predicate FromMember(c: Context, name: string, offset: nat, members: seq<Member>, i: nat, l: Symbol)
    requires c.names.Sound()
  {
    exists j: nat :: i <= j < |members| && OwnedBy(c, name, offset, members[j], l)
  }

  ghost predicate TidyMembers(leaves: seq<Symbol>, c: Context, name: string, offset: nat, members: seq<Member>, i: nat)
    requires c.names.Sound()
  {
    Apart(leaves) && forall l | l in leaves :: FromMember(c, name, offset, members, i, l)
  }

  lemma JoinMember(first: seq<Symbol>, rest: seq<Symbol>, c: Context, name: string, offset: nat, t: Entry, i: nat)
    requires c.names.Sound() && MembersFit(c, t.members, t.size) && i < |t.members|
    requires Apart(first) && forall l | l in first :: OwnedBy(c, name, offset, t.members[i], l)
    requires TidyMembers(rest, c, name, offset, t.members, i + 1)
    ensures TidyMembers(first + rest, c, name, offset, t.members, i)
  {
    hide Under, SizeOf, Plain;
    var members := t.members;
    forall x, y | x in first && y in rest
      ensures Separate(x, y)
    {
      assert FromMember(c, name, offset, members, i + 1, y);
      var j: nat :| i + 1 <= j < |members| && OwnedBy(c, name, offset, members[j], y);
      MemberNamesSplit(name, members[i].name, members[j].name, x.name, y.name);
    }
    ApartConcat(first, rest);
    forall l | l in first + rest
      ensures FromMember(c, name, offset, members, i, l)
    {
      if l in rest {
        assert FromMember(c, name, offset, members, i + 1, l);
      }
    }
  }

  lemma BitMemberOwned(c: Context, name: string, offset: nat, t: Entry, i: nat)
    requires c.names.Sound() && MembersFit(c, t.members, t.size) && i < |t.members| && t.members[i].bit
    requires Room(c, offset + t.size) && (BitFree(c) ==> NoBits(t))
    ensures OwnedBy(c, name, offset, t.members[i], BitLeaf(c, name, offset, t.members[i]))
  {
    var m := t.members[i];
    assert EndBit(c, m) <= 8 * t.size;
    assert BitLeaf(c, name, offset, m).offset == offset * 8 + m.offset;
  }

  lemma ByteMemberOwned(c: Context, name: string, offset: nat, m: Member, leaves: seq<Symbol>)
    requires c.names.Sound() && !m.bit
    requires Tidy(leaves, name + "." + m.name, 8 * (offset + m.offset), 8 * (offset + m.offset + SizeOf(c, m.typeName)))
    ensures forall l | l in leaves :: OwnedBy(c, name, offset, m, l)
  {
    hide SizeOf, Under;
  }

  lemma {:induction false} MembersAreTidy(c: Context, stack: seq<string>, name: string, t: Entry, i: nat, offset: nat, depth: nat)
    requires depth <= c.depthCap && WellFormed(c) && MembersFit(c, t.members, t.size) && i <= |t.members|
    requires Room(c, offset + t.size) && (BitFree(c) ==> NoBits(t))
    ensures TidyMembers(MembersFrom(c, stack, name, t.members, i, offset, depth).leaves, c, name, offset, t.members, i)
    decreases c.depthCap + 1 - depth, 0, |t.members| - i
  {
    hide Expand, SizeOf, Tidy, OwnedBy, BitLeaf;
    if i < |t.members| {
      var m := t.members[i];
      var rest := MembersFrom(c, stack, name, t.members, i + 1, offset, depth).leaves;
      assert EndBit(c, m) <= 8 * t.size;
      MembersAreTidy(c, stack, name, t, i + 1, offset, depth);
      if m.bit {
        BitMemberOwned(c, name, offset, t, i);
        JoinMember([BitLeaf(c, name, offset, m)], rest, c, name, offset, t, i);
      } else {
        var at := U32(offset + m.offset);
        var first := Expand(c, stack, name + "." + m.name, m.typeName, at, depth + 1).leaves;
        LeavesAreTidy(c, stack, name + "." + m.name, m.typeName, at, depth + 1);
        WrapsOnlyWhenEmpty(c, name, offset, m, at, first);
        ByteMemberOwned(c, name, offset, m, first);
        TidyIsApart(first, name + "." + m.name, 8 * (offset + m.offset), 8 * (offset + m.offset + SizeOf(c, m.typeName)));
        JoinMember(first, rest, c, name, offset, t, i);
      }
    }
  }

  /** Only an empty member can start at address 2^32, and such a member has no leaves. */
  lemma WrapsOnlyWhenEmpty(c: Context, name: string, offset: nat, m: Member, at: nat, leaves: seq<Symbol>)
    requires c.names.Sound() && at == U32(offset + m.offset)
    requires offset + m.offset + SizeOf(c, m.typeName) <= 0x1_0000_0000
    requires Tidy(leaves, name + "." + m.name, 8 * at, 8 * (at + SizeOf(c, m.typeName)))
    ensures Tidy(leaves, name + "." + m.name, 8 * (offset + m.offset), 8 * (offset + m.offset + SizeOf(c, m.typeName)))
  {
    hide SizeOf, Under;
    if offset + m.offset == 0x1_0000_0000 {
      assert at == 0;
      if leaves != [] {
        assert !Within(leaves[0], 0, 0);
        assert leaves[0] in leaves;
      }
    }
  }

  lemma TidyIsApart(leaves: seq<Symbol>, prefix: string, lo: nat, hi: nat)
    requires Tidy(leaves, prefix, lo, hi)
    ensures Apart(leaves)
  {}
}
