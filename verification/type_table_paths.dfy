/**
  What the expansion lists, said without expanding: one leaf for every way down
  from the symbol, over members and index vectors, to a single number or a bit.
 */
module TypeTablePaths {
  import opened Arithmetic
  import opened Options
  import opened Odometer
  import opened PlcNames
  import opened TypeTable
  import opened TypeTableListing
  import opened TypeTableDepth
  import opened TypeTableLayout
  import opened Subscripts

  /** A place the way leads over, at a byte, or a bit at the end of it, at a bit. */
  datatype Place = Place(name: string, typeName: string, at: nat) | BitPlace(name: string, bit: nat)

  const WRAP: nat := 0x1_0000_0000

  // ---------- ways down ----------

  /** inner is the element v of an array at outer. */
  ghost predicate IsElement(outer: Place, inner: Place, dims: seq<Dim>, elementType: string, size: nat, v: seq<int>)
    requires outer.Place?
  {
    && InBounds(dims, v) && Position(dims, v) >= 0
    && inner == Place(outer.name + ("[" + Joined(v) + "]"), elementType, (outer.at + Position(dims, v) * size) % WRAP)
  }

  ghost predicate IsSomeElement(outer: Place, inner: Place, dims: seq<Dim>, elementType: string, size: nat)
    requires outer.Place?
  {
    TotalElements(dims) > 0 && size > 0 && exists v :: IsElement(outer, inner, dims, elementType, size, v)
  }

  /** inner is that member of a structure at outer. */
  ghost predicate IsMember(outer: Place, inner: Place, m: Member)
    requires outer.Place?
  {
    inner == if m.bit then BitPlace(outer.name + "." + m.name, (outer.at * 8 + m.offset) % WRAP)
             else Place(outer.name + "." + m.name, m.typeName, (outer.at + m.offset) % WRAP)
  }

  /** One step down: into an element of an array, in the table or declared by its name, or into a member. */
  ghost predicate Descends(c: Context, outer: Place, inner: Place)
    requires c.names.Sound()
  {
    outer.Place? &&
    var key := c.names.upper(outer.typeName);
    if key in c.types then
      var t := c.types[key];
      if t.dims != [] then
        TotalElements(t.dims) > 0 && IsSomeElement(outer, inner, t.dims, t.elementType, t.size / TotalElements(t.dims))
      else exists m :: m in t.members && IsMember(outer, inner, m)
    else
      && c.names.ScalarOf(outer.typeName) == None && c.names.parseArray(outer.typeName).Some?
      && var info := c.names.parseArray(outer.typeName).value;
      && SizeOfTypeName(c, info.elementType).Some?
      && IsSomeElement(outer, inner, info.dims, info.elementType, SizeOfTypeName(c, info.elementType).value)
  }

  /** A table entry stands for a number by its code, else by its name, else by its element type. */
  ghost predicate StandsFor(c: Context, t: Entry, dt: Scalar) {
    || ScalarOfCode(t.adst) == Some(dt)
    || (ScalarOfCode(t.adst) == None && c.names.ScalarOf(t.name) == Some(dt))
    || (ScalarOfCode(t.adst) == None && c.names.ScalarOf(t.name) == None && c.names.ScalarOf(t.elementType) == Some(dt))
  }

  /** l is the single number at that place, with that type, width and address. */
  ghost predicate IsNumber(c: Context, at: Place, l: Symbol)
    requires at.Place?
  {
    var key := c.names.upper(at.typeName);
    exists dt ::
      && (if key in c.types
          then c.types[key].dims == [] && c.types[key].members == [] && StandsFor(c, c.types[key], dt)
          else c.names.ScalarOf(at.typeName) == Some(dt))
      && l == Symbol(at.name, if key in c.types then c.types[key].name else at.typeName,
                     c.root.group, at.at, dt.Size(), false, Some(dt))
  }

  /** l is the leaf at the end of a way. */
  ghost predicate IsLeafAt(c: Context, at: Place, l: Symbol) {
    match at
    case Place(_, _, _) => IsNumber(c, at, l)
    case BitPlace(name, bit) => l == Symbol(name, "BIT", BIT_GROUP, bit, 1, false, Some(Bool))
  }

  ghost predicate Listed(c: Context, at: Place) { at.Place? && c.names.upper(at.typeName) in c.types }

  /** A way down to l: no type of the table is entered twice, nor one that is on the stack. */
  ghost predicate IsWay(c: Context, stack: seq<string>, path: seq<Place>, l: Symbol)
    requires c.names.Sound()
  {
    && path != [] && IsLeafAt(c, path[|path| - 1], l)
    && (forall i | 0 <= i < |path| - 1 :: Descends(c, path[i], path[i + 1]))
    && (forall i, j | 0 <= i < j < |path| - 1 && Listed(c, path[i]) && Listed(c, path[j]) ::
          c.names.upper(path[i].typeName) != c.names.upper(path[j].typeName))
    && forall i | 0 <= i < |path| - 1 && Listed(c, path[i]) :: c.names.upper(path[i].typeName) !in stack
  }

  /** A way down from the symbol itself. */
  ghost predicate IsWayDown(c: Context, path: seq<Place>, l: Symbol)
    requires c.names.Sound()
  {
    IsWay(c, [], path, l) && path[0] == Place(c.root.name, c.root.typeName, c.root.offset)
  }

  /** How many levels a way goes over; a bit is on the level of its structure. */
  ghost function Levels(path: seq<Place>): int
    requires path != []
  {
    if path[|path| - 1].BitPlace? then |path| - 1 else |path|
  }

  ghost function Entered(c: Context, stack: seq<string>, at: Place): seq<string>
    requires at.Place?
  {
    var key := c.names.upper(at.typeName);
    if key in c.types then stack + [key] else stack
  }

  lemma WayTail(c: Context, stack: seq<string>, path: seq<Place>, l: Symbol)
    requires c.names.Sound() && IsWay(c, stack, path, l) && |path| > 1
    ensures Descends(c, path[0], path[1]) && IsWay(c, Entered(c, stack, path[0]), path[1..], l)
    ensures Listed(c, path[0]) ==> c.names.upper(path[0].typeName) !in stack
    ensures Levels(path[1..]) == Levels(path) - 1
  {
    var tail := path[1..];
    assert path[|path| - 1] == tail[|tail| - 1];
    assert forall i | 0 <= i < |tail| :: tail[i] == path[i + 1];
    hide Descends, IsLeafAt;
    forall i | 0 <= i < |tail| - 1
      ensures Descends(c, tail[i], tail[i + 1])
    {
      assert Descends(c, path[i + 1], path[i + 2]);
    }
  }

  lemma WayCons(c: Context, stack: seq<string>, outer: Place, path: seq<Place>, l: Symbol)
    requires c.names.Sound() && outer.Place? && IsWay(c, Entered(c, stack, outer), path, l) && Descends(c, outer, path[0])
    requires Listed(c, outer) ==> c.names.upper(outer.typeName) !in stack
    ensures IsWay(c, stack, [outer] + path, l) && Levels([outer] + path) == Levels(path) + 1
  {
    hide Descends, IsLeafAt;
    var whole := [outer] + path;
    assert whole[|whole| - 1] == path[|path| - 1];
    assert forall i | 0 < i < |whole| :: whole[i] == path[i - 1];
    forall i | 0 <= i < |whole| - 1
      ensures Descends(c, whole[i], whole[i + 1])
    {
      if i > 0 { assert Descends(c, path[i - 1], path[i]); }
    }
  }

  // ---------- every leaf has a way ----------

  lemma WrapOnce(a: nat, b: nat)
    ensures U32(a + U32(b)) == (a + b) % WRAP
  {
    assert b == (b / WRAP) * WRAP + b % WRAP;
    assert a + b == (b / WRAP) * WRAP + (a + b % WRAP);
    SumRemainder(b / WRAP, WRAP, a + b % WRAP);
  }

  lemma SumRemainder(q: nat, w: nat, r: nat)
    requires w > 0
    ensures (q * w + r) % w == r % w
  {
    var k := r / w;
    assert r == k * w + r % w;
    assert q * w + r == (q + k) * w + r % w;
    DivMod(q + k, w, r % w);
  }

  /** Element n, as its index vector. */
  lemma ElementPlace(outer: Place, dims: seq<Dim>, elementType: string, size: nat, n: nat) returns (inner: Place)
    requires outer.Place? && AllPositive(Counts(dims)) && n < TotalElements(dims) && size > 0
    ensures inner == Place(outer.name + Subscript(dims, n), elementType, U32(outer.at + U32(n * size)))
    ensures IsSomeElement(outer, inner, dims, elementType, size)
  {
    hide Joined, Digits, Position, TotalElements, InBounds, U32, AllPositive, Shifted, Counts;
    var v := VectorOf(dims, n);
    WrapOnce(outer.at, n * size);
    inner := Place(outer.name + Subscript(dims, n), elementType, U32(outer.at + U32(n * size)));
    assert Subscript(dims, n) == "[" + Joined(v) + "]";
    assert IsElement(outer, inner, dims, elementType, size, v);
  }

  lemma {:induction false} LeafHasWay(c: Context, stack: seq<string>, at: Place, depth: nat, l: Symbol) returns (path: seq<Place>)
    requires c.names.Sound() && depth <= c.depthCap + 1 && at.Place?
    requires l in Expand(c, stack, at.name, at.typeName, at.at, depth).leaves
    ensures IsWay(c, stack, path, l) && path[0] == at && Levels(path) <= c.depthCap + 1 - depth
    decreases c.depthCap + 1 - depth, 2, 0
  {
    hide ArrayOf, MembersFrom, TotalElements, IsWay, IsSomeElement, IsMember;
    var key := c.names.upper(at.typeName);
    if IsSingle(c, at) {
      NumberHere(c, stack, at, depth, l);
      path := [at];
      return;
    }
    var below;
    if key !in c.types {
      var info := c.names.parseArray(at.typeName).value;
      below := ArrayLeafHasWay(c, stack, at, info.dims, info.elementType,
                               SizeOfTypeName(c, info.elementType).value, depth, l);
    } else {
      var t := c.types[key];
      if t.dims != [] {
        below := ArrayLeafHasWay(c, stack + [key], at, t.dims, t.elementType, t.size / TotalElements(t.dims), depth, l);
      } else {
        below := MemberLeafHasWay(c, stack + [key], at, t.members, 0, depth, l);
      }
    }
    WayCons(c, stack, at, below, l);
    path := [at] + below;
  }

  /** The way ends here, whether or not in a number. */
  ghost predicate IsSingle(c: Context, at: Place)
    requires at.Place?
  {
    var key := c.names.upper(at.typeName);
    if key in c.types then !c.types[key].Composite() else c.names.ScalarOf(at.typeName).Some?
  }

  /** A number is a way of its own. */
  lemma NumberHere(c: Context, stack: seq<string>, at: Place, depth: nat, l: Symbol)
    requires c.names.Sound() && depth <= c.depthCap && at.Place?
    requires IsSingle(c, at)
    ensures l in Expand(c, stack, at.name, at.typeName, at.at, depth).leaves <==> IsWay(c, stack, [at], l)
  {
    var key := c.names.upper(at.typeName);
    if key in c.types {
      var t := c.types[key];
      assert forall dt :: StandsFor(c, t, dt) <==> ScalarOfEntry(c, t) == Some(dt);
    }
    assert IsWay(c, stack, [at], l) <==> IsNumber(c, at, l);
  }

  lemma {:induction false} ArrayLeafHasWay(
      c: Context, stack: seq<string>, outer: Place, dims: seq<Dim>, elementType: string, size: nat, depth: nat, l: Symbol)
    returns (path: seq<Place>)
    requires c.names.Sound() && depth <= c.depthCap && outer.Place?
    requires l in ArrayOf(c, stack, outer.name, dims, elementType, size, outer.at, depth).leaves
    ensures IsWay(c, stack, path, l) && Levels(path) <= c.depthCap - depth
    ensures IsSomeElement(outer, path[0], dims, elementType, size) && TotalElements(dims) > 0
    decreases c.depthCap + 1 - depth, 1, 0
  {
    hide Expand, ElementsFrom, Subscript, TotalElements, IsWay, IsSomeElement, U32;
    var n: nat := 0;
    ElementsFromEnd(c, stack, outer.name, dims, elementType, size, outer.at, depth);
    while true
      invariant n <= TotalElements(dims)
      invariant l in ElementsFrom(c, stack, outer.name, dims, elementType, size, n, outer.at, depth).leaves
      decreases TotalElements(dims) - n
    {
      ElementsFromStep(c, stack, outer.name, dims, elementType, size, n, outer.at, depth);
      var inner := ElementPlace(outer, dims, elementType, size, n);
      if l in Expand(c, stack, inner.name, elementType, inner.at, depth + 1).leaves {
        path := LeafHasWay(c, stack, inner, depth + 1, l);
        return;
      }
      n := n + 1;
    }
  }

  lemma {:induction false} MemberLeafHasWay(
      c: Context, stack: seq<string>, outer: Place, members: seq<Member>, i: nat, depth: nat, l: Symbol)
    returns (path: seq<Place>)
    requires c.names.Sound() && depth <= c.depthCap && i <= |members| && outer.Place?
    requires l in MembersFrom(c, stack, outer.name, members, i, outer.at, depth).leaves
    ensures IsWay(c, stack, path, l) && Levels(path) <= c.depthCap - depth
    ensures exists m :: m in members && IsMember(outer, path[0], m)
    decreases c.depthCap + 1 - depth, 1, |members| - i
  {
    hide Expand, IsWay;
    var m := members[i];
    var inner := MemberPlace(outer, m);
    if m.bit && l == BitLeaf(c, outer.name, outer.at, m) {
      path := [inner];
      assert IsWay(c, stack, path, l) by { BitHere(c, stack, inner, l); }
    } else if !m.bit && l in Expand(c, stack, inner.name, m.typeName, inner.at, depth + 1).leaves {
      path := LeafHasWay(c, stack, inner, depth + 1, l);
    } else {
      path := MemberLeafHasWay(c, stack, outer, members, i + 1, depth, l);
    }
  }

  lemma MemberPlace(outer: Place, m: Member) returns (inner: Place)
    requires outer.Place?
    ensures IsMember(outer, inner, m)
    ensures inner == if m.bit then BitPlace(outer.name + "." + m.name, U32(outer.at * 8 + m.offset))
                     else Place(outer.name + "." + m.name, m.typeName, U32(outer.at + m.offset))
  {
    inner := if m.bit then BitPlace(outer.name + "." + m.name, (outer.at * 8 + m.offset) % WRAP)
             else Place(outer.name + "." + m.name, m.typeName, (outer.at + m.offset) % WRAP);
  }

  lemma BitHere(c: Context, stack: seq<string>, at: Place, l: Symbol)
    requires c.names.Sound() && at.BitPlace?
    ensures IsWay(c, stack, [at], l) <==> l == Symbol(at.name, "BIT", BIT_GROUP, at.bit, 1, false, Some(Bool))
  {
  }

  // ---------- and every way a leaf ----------

  lemma {:induction false} WayHasLeaf(c: Context, stack: seq<string>, path: seq<Place>, depth: nat, l: Symbol)
    requires c.names.Sound() && path != [] && path[0].Place? && depth <= c.depthCap
    requires IsWay(c, stack, path, l) && Levels(path) <= c.depthCap + 1 - depth
    ensures var at := path[0]; l in Expand(c, stack, at.name, at.typeName, at.at, depth).leaves
    decreases c.depthCap + 1 - depth, 2, 0
  {
    hide ArrayOf, MembersFrom, TotalElements, IsWay, IsSomeElement, IsMember;
    var at := path[0];
    if |path| == 1 {
      OnlyNumber(c, stack, path, l);
      NumberHere(c, stack, at, depth, l);
      return;
    }
    WayTail(c, stack, path, l);
    var below, key := path[1..], c.names.upper(at.typeName);
    if key !in c.types {
      var info := c.names.parseArray(at.typeName).value;
      ArrayWayHasLeaf(c, stack, at, info.dims, info.elementType,
                      SizeOfTypeName(c, info.elementType).value, depth, below, l);
    } else {
      var t := c.types[key];
      if t.dims != [] {
        ElementSize(t.size, at, below[0], t.dims, t.elementType);
        ArrayWayHasLeaf(c, stack + [key], at, t.dims, t.elementType, t.size / TotalElements(t.dims), depth, below, l);
      } else {
        MemberWayHasLeaf(c, stack + [key], at, t.members, 0, depth, below, l);
      }
    }
  }

  lemma OnlyNumber(c: Context, stack: seq<string>, path: seq<Place>, l: Symbol)
    requires c.names.Sound() && |path| == 1 && path[0].Place? && IsWay(c, stack, path, l)
    ensures path == [path[0]] && IsSingle(c, path[0])
  {
    assert IsNumber(c, path[0], l);
  }

  lemma ElementSize(whole: nat, outer: Place, inner: Place, dims: seq<Dim>, elementType: string)
    requires outer.Place? && TotalElements(dims) > 0
    requires IsSomeElement(outer, inner, dims, elementType, whole / TotalElements(dims))
    ensures whole > 0
  {
    hide TotalElements, IsElement;
  }

  lemma {:induction false} ArrayWayHasLeaf(
      c: Context, stack: seq<string>, outer: Place, dims: seq<Dim>, elementType: string, size: nat, depth: nat,
      path: seq<Place>, l: Symbol)
    requires c.names.Sound() && depth <= c.depthCap && outer.Place? && path != [] && dims != []
    requires IsWay(c, stack, path, l) && Levels(path) <= c.depthCap - depth
    requires IsSomeElement(outer, path[0], dims, elementType, size)
    ensures l in ArrayOf(c, stack, outer.name, dims, elementType, size, outer.at, depth).leaves
    decreases c.depthCap + 1 - depth, 1, 0
  {
    hide Expand, ElementsFrom, Subscript, TotalElements, IsWay, U32;
    var k := ElementIndex(outer, path[0], dims, elementType, size);
    hide IsSomeElement;
    LevelsPositive(path);
    WayHasLeaf(c, stack, path, depth + 1, l);
    var n: nat := k;
    ElementsFromStep(c, stack, outer.name, dims, elementType, size, n, outer.at, depth);
    while n > 0
      invariant n < TotalElements(dims)
      invariant l in ElementsFrom(c, stack, outer.name, dims, elementType, size, n, outer.at, depth).leaves
    {
      n := n - 1;
      ElementsFromStep(c, stack, outer.name, dims, elementType, size, n, outer.at, depth);
    }
  }

  lemma LevelsPositive(path: seq<Place>)
    requires path != [] && path[0].Place?
    ensures Levels(path) >= 1
  {
  }

  /** The element a step goes to, by its number. */
  lemma ElementIndex(outer: Place, inner: Place, dims: seq<Dim>, elementType: string, size: nat) returns (n: nat)
    requires outer.Place? && dims != [] && IsSomeElement(outer, inner, dims, elementType, size)
    ensures AllPositive(Counts(dims)) && n < TotalElements(dims)
    ensures inner == Place(outer.name + Subscript(dims, n), elementType, U32(outer.at + U32(n * size)))
  {
    hide Joined, Digits, Position, TotalElements, InBounds, U32, AllPositive, Shifted, Counts;
    PositiveDims(dims);
    var v :| IsElement(outer, inner, dims, elementType, size, v);
    n := ElementAt(dims, v);
    WrapOnce(outer.at, n * size);
    assert Subscript(dims, n) == "[" + Joined(v) + "]";
  }

  lemma {:induction false} MemberWayHasLeaf(
      c: Context, stack: seq<string>, outer: Place, members: seq<Member>, i: nat, depth: nat, path: seq<Place>, l: Symbol)
    requires c.names.Sound() && depth <= c.depthCap && i <= |members| && outer.Place? && path != []
    requires IsWay(c, stack, path, l) && Levels(path) <= c.depthCap - depth
    requires exists m :: m in members[i..] && IsMember(outer, path[0], m)
    ensures l in MembersFrom(c, stack, outer.name, members, i, outer.at, depth).leaves
    decreases c.depthCap + 1 - depth, 1, |members| - i
  {
    hide Expand, IsWay;
    var m := members[i];
    if IsMember(outer, path[0], m) {
      if m.bit {
        OnlyBit(c, stack, path, l);
      } else {
        LevelsPositive(path);
        WayHasLeaf(c, stack, path, depth + 1, l);
      }
    } else {
      assert members[i..] == [m] + members[i + 1..];
      MemberWayHasLeaf(c, stack, outer, members, i + 1, depth, path, l);
    }
  }

  lemma OnlyBit(c: Context, stack: seq<string>, path: seq<Place>, l: Symbol)
    requires c.names.Sound() && path != [] && path[0].BitPlace? && IsWay(c, stack, path, l)
    ensures path == [path[0]] && l == Symbol(path[0].name, "BIT", BIT_GROUP, path[0].bit, 1, false, Some(Bool))
  {
    assert |path| > 1 ==> Descends(c, path[0], path[1]);
  }

  /**
    The expansion lists a leaf if and only if a way down leads to it that goes over no
    more levels than the depth cap allows.
   */
  lemma LeavesExactly(c: Context, l: Symbol)
    requires c.names.Sound()
    ensures l in FullExpansion(c).leaves
       <==> exists path :: IsWayDown(c, path, l) && Levels(path) <= c.depthCap + 1
  {
    hide Expand, Descends, IsLeafAt, Listed;
    var at := Place(c.root.name, c.root.typeName, c.root.offset);
    if l in FullExpansion(c).leaves {
      var path := LeafHasWay(c, [], at, 0, l);
    }
    if path :| IsWayDown(c, path, l) && Levels(path) <= c.depthCap + 1 {
      WayHasLeaf(c, [], path, 0, l);
    }
  }

  lemma StepNests(c: Context, outer: Place, inner: Place)
    requires c.names.Sound() && Descends(c, outer, inner) && inner.Place?
    ensures Nests(c, outer.typeName, inner.typeName)
  {
    hide TotalElements, InBounds, Position;
    var key := c.names.upper(outer.typeName);
    if key in c.types && c.types[key].dims == [] {
      var t := c.types[key];
      var m :| m in t.members && IsMember(outer, inner, m);
      var i :| 0 <= i < |t.members| && t.members[i] == m;
    }
  }

  /** A way over more levels than the cap is a nesting path that is too long. */
  lemma LongWayNests(c: Context, path: seq<Place>, l: Symbol) returns (types: seq<string>)
    requires c.names.Sound() && IsWay(c, [], path, l) && Levels(path) > c.depthCap + 1 && path[0].Place?
    ensures IsNestingPath(c, types) && |types| == c.depthCap + 2 && types[0] == path[0].typeName
  {
    hide Descends, IsLeafAt, Nests;
    var n := c.depthCap + 2;
    forall i | 0 <= i < n
      ensures path[i].Place?
    {
      if i < |path| - 1 { OnlyFromPlace(c, path[i], path[i + 1]); }
    }
    types := seq(n, i requires 0 <= i < n => path[i].typeName);
    forall i | 0 <= i < n - 1
      ensures Nests(c, types[i], types[i + 1])
    {
      assert Descends(c, path[i], path[i + 1]);
      StepNests(c, path[i], path[i + 1]);
    }
    forall i, j | 0 <= i < j < n - 1
      ensures c.names.upper(types[i]) in c.types ==> c.names.upper(types[i]) != c.names.upper(types[j])
    {
      assert Listed(c, path[i]) && Listed(c, path[j])
             ==> c.names.upper(path[i].typeName) != c.names.upper(path[j].typeName);
    }
  }

  lemma OnlyFromPlace(c: Context, outer: Place, inner: Place)
    requires c.names.Sound() && Descends(c, outer, inner)
    ensures outer.Place?
  {
  }

  /** Where nothing is reported as nested too deep, every way down has its leaf, and every leaf its way. */
  lemma EveryWayIsListed(c: Context, l: Symbol)
    requires c.names.Sound() && !FullExpansion(c).tooDeep
    ensures l in FullExpansion(c).leaves
       <==> exists path :: IsWayDown(c, path, l)
  {
    hide Expand, Descends, IsLeafAt, Listed, IsNestingPath;
    LeavesExactly(c, l);
    TooDeepExactly(c);
    if path :| IsWayDown(c, path, l) && Levels(path) > c.depthCap + 1 {
      var types := LongWayNests(c, path, l);
      assert false;
    }
  }

  // ---------- what is listed ----------

  lemma StepLengthens(c: Context, outer: Place, inner: Place)
    requires c.names.Sound() && Descends(c, outer, inner)
    ensures |inner.name| > |outer.name|
  {
    hide TotalElements, InBounds, Position, Joined;
  }

  /** A leaf's name is longer than where its way begins, unless the way is over there. */
  lemma {:induction false} WayLengthens(c: Context, stack: seq<string>, path: seq<Place>, l: Symbol)
    requires c.names.Sound() && IsWay(c, stack, path, l)
    ensures |l.name| >= |path[0].name| && (|path| > 1 ==> |l.name| > |path[0].name|)
    ensures |path| == 1 ==> l.name == path[0].name
    decreases |path|
  {
    if |path| > 1 {
      WayTail(c, stack, path, l);
      StepLengthens(c, path[0], path[1]);
      WayLengthens(c, Entered(c, stack, path[0]), path[1..], l);
    }
  }

  /** Where the symbol is a single number, there is no way further down, and at most that one leaf. */
  lemma SingleIsAll(c: Context, at: Place)
    requires c.names.Sound() && at.Place? && IsSingle(c, at)
    ensures |Expand(c, [], at.name, at.typeName, at.at, 0).leaves| <= 1
    ensures forall inner :: !Descends(c, at, inner)
  {
  }

  lemma UncutListing(c: Context, maxLeaves: nat, out: seq<Symbol>, end: Progress)
    requires c.names.Sound() && IsListing(c, maxLeaves, out, end) && !end.truncated && !end.tooDeep
    ensures out == UnlessItself(c, FullExpansion(c).leaves) && !FullExpansion(c).tooDeep
  {
    hide Expand;
    CutOrComplete(c, maxLeaves, out, end);
  }

  /** What begins and ends at the symbol is the symbol's only leaf. */
  lemma TrivialWay(c: Context, path: seq<Place>, l: Symbol)
    requires c.names.Sound() && IsWayDown(c, path, l) && |path| == 1
    ensures |FullExpansion(c).leaves| <= 1 && l.name == c.root.name
  {
    hide Expand, Descends;
    OnlyNumber(c, [], path, l);
    SingleIsAll(c, path[0]);
    WayLengthens(c, [], path, l);
  }

  /** No other leaf has the symbol's name. */
  lemma LongerWay(c: Context, path: seq<Place>, l: Symbol)
    requires c.names.Sound() && IsWayDown(c, path, l) && |path| > 1
    ensures l.name != c.root.name
  {
    hide Expand, Descends;
    WayLengthens(c, [], path, l);
  }

  /**
    A symbol's listing that nothing cut holds a leaf if and only if a way of at least one
    step leads down to it: a symbol that is a number itself is not listed again.
   */
  lemma ListedExactly(c: Context, maxLeaves: nat, out: seq<Symbol>, end: Progress, l: Symbol)
    requires c.names.Sound() && IsListing(c, maxLeaves, out, end) && !end.truncated && !end.tooDeep
    ensures l in out <==> exists path :: IsWayDown(c, path, l) && |path| > 1
  {
    hide FullExpansion, IsListing, IsWayDown;
    UncutListing(c, maxLeaves, out, end);
    EveryWayIsListed(c, l);
    var leaves := FullExpansion(c).leaves;
    if l in out {
      var path :| IsWayDown(c, path, l);
      if |path| <= 1 { WayNotEmpty(c, path, l); TrivialWay(c, path, l); }
    }
    if path :| IsWayDown(c, path, l) && |path| > 1 {
      LongerWay(c, path, l);
      if |leaves| == 1 { assert leaves[0] == l; }
    }
  }

  lemma WayNotEmpty(c: Context, path: seq<Place>, l: Symbol)
    requires c.names.Sound() && IsWayDown(c, path, l)
    ensures path != []
  {
  }
}
