/** Scalar block layout: sizes, alignments and member offsets of physical types. */
module Layout {
  datatype Type =
    | Scalar(width: nat)
    | Vector(component: Type, count: nat)
    | Array(element: Type, length: nat)
    | Struct(members: seq<Type>)
    | Pointer

  /** Scalars of 8, 16, 32 or 64 bits, and what is built from them; no empty aggregates. */
  predicate Physical(t: Type) {
    match t
    case Scalar(width) => width == 8 || width == 16 || width == 32 || width == 64
    case Vector(component, count) => component.Scalar? && Physical(component) && count >= 1
    case Array(element, length) => Physical(element) && length >= 1
    case Struct(members) => members != [] && forall m :: m in members ==> Physical(m)
    case Pointer => true
  }

  const WORD: nat := 0x1_0000_0000

  // ---------------------------------------------------------------- the layout, over unbounded integers

  function RoundUp(x: nat, a: nat): nat
    requires a > 0
  {
    (x + a - 1) / a * a
  }

  function Align(t: Type): nat
    decreases t, 0
  {
    match t
    case Scalar(width) => width / 8
    case Vector(component, _) => Align(component)
    case Array(element, _) => Align(element)
    case Struct(members) => MaxAlign(members)
    case Pointer => 8
  }

  function MaxAlign(members: seq<Type>): nat
    decreases members, 1
  {
    if members == [] then 0
    else
      var last := members[|members| - 1];
      assert last in members;
      var before := MaxAlign(members[..|members| - 1]);
      if Align(last) > before then Align(last) else before
  }

  /** Natural alignments are powers of two up to eight. */
  predicate Natural(a: nat) {
    a == 1 || a == 2 || a == 4 || a == 8
  }

  lemma {:induction false} AlignIsNatural(t: Type)
    requires Physical(t)
    ensures Natural(Align(t))
    decreases t, 0
  {
    match t
    case Vector(component, _) => AlignIsNatural(component);
    case Array(element, _) => AlignIsNatural(element);
    case Struct(members) => MaxAlignIsNatural(members);
    case _ =>
  }

  lemma {:induction false} MaxAlignIsNatural(members: seq<Type>)
    requires members != [] && forall m :: m in members ==> Physical(m)
    ensures Natural(MaxAlign(members)) && forall m :: m in members ==> Align(m) <= MaxAlign(members)
    decreases members, 1
  {
    var n := |members|;
    var last := members[n - 1];
    assert last in members;
    AlignIsNatural(last);
    if n > 1 {
      MaxAlignIsNatural(members[..n - 1]);
    }
    forall m | m in members ensures Align(m) <= MaxAlign(members) {
      if m != last {
        assert members == members[..n - 1] + [last];
        assert m in members[..n - 1];
      }
    }
  }

  function Size(t: Type): nat
    requires Physical(t)
    decreases t, 0
  {
    AlignIsNatural(t);
    match t
    case Scalar(width) => width / 8
    case Vector(component, count) => Size(component) * count
    case Array(element, length) => Size(element) * length
    case Struct(members) => RoundUp(End(members), MaxAlign(members))
    case Pointer => 8
  }

  /** Where the next member may start. */
  function End(members: seq<Type>): nat
    requires forall m :: m in members ==> Physical(m)
    decreases members, 1
  {
    if members == [] then 0
    else
      var last := members[|members| - 1];
      assert last in members;
      Offset(members, |members| - 1) + Size(last)
  }

  /** The offset of a member: the first naturally aligned one after its predecessors. */
  function Offset(members: seq<Type>, i: nat): nat
    requires i < |members| && forall m :: m in members ==> Physical(m)
    decreases members[..i], 2, i
  {
    assert members[i] in members;
    AlignIsNatural(members[i]);
    RoundUp(End(members[..i]), Align(members[i]))
  }

  lemma RoundUpFacts(x: nat, a: nat)
    requires Natural(a)
    ensures x <= RoundUp(x, a) <= x + a - 1 && RoundUp(x, a) % a == 0
    ensures RoundUp(x, a) == x + a - 1 - (x + a - 1) % a
  {}

  lemma TimesMod(m: nat, a: nat)
    requires Natural(a)
    ensures m * a % a == 0
  {
    if a == 1 {
      assert m * 1 % 1 == 0;
    } else if a == 2 {
      assert m * 2 % 2 == 0;
    } else if a == 4 {
      assert m * 4 % 4 == 0;
    } else {
      assert m * 8 % 8 == 0;
    }
  }

  lemma MultipleOf(n: nat, k: nat, a: nat)
    requires Natural(a) && n % a == 0
    ensures n * k % a == 0
  {
    var q := n / a;
    assert n == q * a;
    assert n * k == (q * k) * a;
    TimesMod(q * k, a);
  }

  lemma TimesGrows(n: nat, k: nat)
    requires k >= 1
    ensures n * k >= n
  {
    assert n * k == n + n * (k - 1);
  }

  /** A size is a positive multiple of the alignment. */
  lemma {:induction false} SizeFacts(t: Type)
    requires Physical(t)
    ensures Natural(Align(t)) && Size(t) >= Align(t) && Size(t) % Align(t) == 0
    decreases t, 0
  {
    AlignIsNatural(t);
    match t
    case Vector(component, count) =>
      SizeFacts(component);
      MultipleOf(Size(component), count, Align(component));
      TimesGrows(Size(component), count);
    case Array(element, length) =>
      SizeFacts(element);
      MultipleOf(Size(element), length, Align(element));
      TimesGrows(Size(element), length);
    case Struct(members) =>
      EndFacts(members);
      RoundUpFacts(End(members), MaxAlign(members));
    case _ =>
  }

  lemma {:induction false} EndFacts(members: seq<Type>)
    requires members != [] && forall m :: m in members ==> Physical(m)
    ensures End(members) >= 1
    decreases members, 1
  {
    var last := members[|members| - 1];
    assert last in members;
    SizeFacts(last);
  }

  /** Later members start behind earlier ones. */
  lemma EndGrows(members: seq<Type>, i: nat)
    requires i < |members| && forall m :: m in members ==> Physical(m)
    ensures End(members[..i + 1]) == Offset(members, i) + Size(members[i]) && Size(members[i]) >= Align(members[i])
    ensures End(members[..i]) <= Offset(members, i) <= End(members[..i]) + Align(members[i]) - 1
    ensures Natural(Align(members[i])) && Align(members[i]) >= 1 && Offset(members, i) % Align(members[i]) == 0
    ensures Offset(members, i) == RoundUp(End(members[..i]), Align(members[i]))
  {
    assert members[i] in members;
    AlignIsNatural(members[i]);
    SizeFacts(members[i]);
    RoundUpFacts(End(members[..i]), Align(members[i]));
    var head := members[..i + 1];
    assert head[|head| - 1] == members[i] && head[..i] == members[..i];
  }

  lemma {:induction false} EndMonotone(members: seq<Type>, i: nat, j: nat)
    requires i <= j <= |members| && forall m :: m in members ==> Physical(m)
    ensures End(members[..i]) <= End(members[..j])
    decreases j - i
  {
    if i < j {
      EndGrows(members, j - 1);
      EndMonotone(members, i, j - 1);
    }
  }

  // ---------------------------------------------------------------- thirty-two-bit arithmetic

  function Wrap(x: int): nat {
    x % WORD
  }

  /** `x & ~(a - 1)` for a power of two. */
  function MaskOff(x: nat, a: nat): nat
    requires a > 0
  {
    x - x % a
  }

  /** `(x + a - 1) & ~(a - 1)` in 32 bits, when nothing overflows. */
  lemma AlignUp(x: nat, a: nat)
    requires Natural(a) && x + a - 1 < WORD
    ensures MaskOff(Wrap(x + a - 1), a) == RoundUp(x, a)
  {
    RoundUpFacts(x, a);
  }

  lemma TopMultiple(x: nat, a: nat)
    requires Natural(a) && x % a == 0 && x < WORD
    ensures x + a - 1 < WORD
  {
    assert WORD % a == 0;
  }

  datatype SizeAlignment = SizeAlignment(size: nat, alignment: nat)

  /** `Converter::Impl::get_physical_size_for_type`: in 32 bits it computes the layout's size and alignment. */
  method GetPhysicalSizeForType(t: Type) returns (res: SizeAlignment)
    requires Physical(t) && Size(t) < WORD
    ensures res == SizeAlignment(Size(t), Align(t))
    decreases t, 0
  {
    hide RoundUp, MaskOff, Natural;
    match t {
      case Scalar(width) =>
        res := SizeAlignment(width / 8, width / 8);
      case Vector(component, count) =>
        ElementFits(component, count);
        res := GetPhysicalSizeForType(component);
        res := res.(size := Wrap(res.size * count));
      case Array(element, length) =>
        ElementFits(element, length);
        res := GetPhysicalSizeForType(element);
        res := res.(size := Wrap(res.size * length));
      case Struct(members) =>
        MaxAlignIsNatural(members);
        NaturalPositive(MaxAlign(members));
        StructFits(members);
        res := AddMembers(members);
        AlignUp(res.size, res.alignment);
        res := res.(size := MaskOff(Wrap(res.size + res.alignment - 1), res.alignment));
      case Pointer =>
        res := SizeAlignment(8, 8);
    }
  }

  lemma ElementFits(t: Type, n: nat)
    requires Physical(t) && n >= 1
    ensures Size(t) <= Size(t) * n
  {}

  /** The rounding of the final size does not overflow either. */
  lemma StructFits(members: seq<Type>)
    requires members != [] && (forall m :: m in members ==> Physical(m)) && MaxAlign(members) > 0
             && RoundUp(End(members), MaxAlign(members)) < WORD
    ensures Natural(MaxAlign(members)) && End(members) + MaxAlign(members) - 1 < WORD && End(members) < WORD
  {
    MaxAlignIsNatural(members);
    RoundUpFacts(End(members), MaxAlign(members));
    TopMultiple(RoundUp(End(members), MaxAlign(members)), MaxAlign(members));
  }

  lemma MaxAlignNext(members: seq<Type>, i: nat)
    requires i < |members|
    ensures MaxAlign(members[..i + 1]) == if Align(members[i]) > MaxAlign(members[..i]) then Align(members[i])
            else MaxAlign(members[..i])
  {
    var head := members[..i + 1];
    assert head[|head| - 1] == members[i] && head[..|head| - 1] == members[..i];
  }

  /** The loop over the members of a struct. */
  method AddMembers(members: seq<Type>) returns (res: SizeAlignment)
    requires (forall m :: m in members ==> Physical(m)) && End(members) < WORD
    ensures res == SizeAlignment(End(members), MaxAlign(members))
    decreases members, 1
  {
    hide RoundUp, MaskOff, Natural, Size, Align, MaxAlign, Offset;
    res := SizeAlignment(0, 0);
    assert members[..|members|] == members && members[..0] == [];
    NoMembers();
    for i := 0 to |members|
      invariant res == SizeAlignment(End(members[..i]), MaxAlign(members[..i]))
    {
      var m := members[i];
      assert m in members;
      EndGrows(members, i);
      EndMonotone(members, i + 1, |members|);
      MaxAlignNext(members, i);
      var member := GetPhysicalSizeForType(m);
      AlignUp(res.size, member.alignment);
      res := SizeAlignment(Wrap(MaskOff(Wrap(res.size + member.alignment - 1), member.alignment) + member.size),
                           if res.alignment > member.alignment then res.alignment else member.alignment);
    }
  }

  lemma NoMembers()
    ensures MaxAlign([]) == 0
  {}

  lemma NaturalPositive(a: nat)
    requires Natural(a)
    ensures a >= 1
  {}

  /** `Converter::Impl::decorate_physical_offsets`: the decorated offsets are the layout's. */
  method DecoratePhysicalOffsets(members: seq<Type>) returns (offsets: seq<nat>)
    requires members != [] && (forall m :: m in members ==> Physical(m)) && End(members) < WORD
    ensures |offsets| == |members| && forall i :: 0 <= i < |members| ==> offsets[i] == Offset(members, i)
  {
    hide RoundUp, MaskOff, Natural, Size, Align, Offset;
    var offset := 0;
    offsets := [];
    assert members[..0] == [] && members[..|members|] == members;
    for i := 0 to |members|
      invariant |offsets| == i && offset == End(members[..i])
      invariant forall k :: 0 <= k < i ==> offsets[k] == Offset(members, k)
    {
      var m := members[i];
      assert m in members;
      EndGrows(members, i);
      EndMonotone(members, i + 1, |members|);
      var sizeAlignment := GetPhysicalSizeForType(m);
      AlignUp(offset, sizeAlignment.alignment);
      offset := MaskOff(Wrap(offset + sizeAlignment.alignment - 1), sizeAlignment.alignment);
      offsets := offsets + [offset];
      offset := Wrap(offset + sizeAlignment.size);
    }
  }

  // ---------------------------------------------------------------- every scalar in its place

  /** A scalar or pointer and the bytes that it occupies. */
  datatype Leaf = Leaf(offset: nat, bytes: nat)

  /** All scalars of a value of the type placed at `base`, in order. */
  function Leaves(t: Type, base: nat): seq<Leaf>
    requires Physical(t)
    decreases t, 0, 0
  {
    match t
    case Scalar(width) => [Leaf(base, width / 8)]
    case Vector(component, count) => RepeatedLeaves(component, base, count)
    case Array(element, length) => RepeatedLeaves(element, base, length)
    case Struct(members) => MemberLeaves(members, base)
    case Pointer => [Leaf(base, 8)]
  }

  /** Elements at multiples of the element's size: the array stride. */
  function RepeatedLeaves(t: Type, base: nat, n: nat): seq<Leaf>
    requires Physical(t)
    decreases t, 1, n
  {
    if n == 0 then [] else RepeatedLeaves(t, base, n - 1) + Leaves(t, base + (n - 1) * Size(t))
  }

  function MemberLeaves(members: seq<Type>, base: nat): seq<Leaf>
    requires forall m :: m in members ==> Physical(m)
    decreases members, 1, 0
  {
    if members == [] then []
    else
      var n := |members|;
      assert members[n - 1] in members;
      MemberLeaves(members[..n - 1], base) + Leaves(members[n - 1], base + Offset(members, n - 1))
  }

  /** Naturally aligned, inside the range, and one behind the other. */
  ghost predicate Placed(leaves: seq<Leaf>, lo: nat, hi: nat) {
    && (forall i :: 0 <= i < |leaves| ==>
          leaves[i].bytes > 0 && leaves[i].offset % leaves[i].bytes == 0 && lo <= leaves[i].offset
          && leaves[i].offset + leaves[i].bytes <= hi)
    && (forall i, j :: 0 <= i < j < |leaves| ==> leaves[i].offset + leaves[i].bytes <= leaves[j].offset)
  }

  lemma PlacedConcat(a: seq<Leaf>, b: seq<Leaf>, lo: nat, mid: nat, mid': nat, hi: nat)
    requires Placed(a, lo, mid) && Placed(b, mid', hi) && lo <= mid <= mid' <= hi
    ensures Placed(a + b, lo, hi)
  {}

  lemma AlignedAt(base: nat, k: nat, size: nat, a: nat)
    requires Natural(a) && base % a == 0 && size % a == 0
    ensures (base + k * size) % a == 0
  {
    MultipleOf(size, k, a);
  }

  /** A natural alignment divides every larger one. */
  lemma AlignsDivide(base: nat, a: nat, b: nat)
    requires Natural(a) && Natural(b) && a <= b && base % b == 0
    ensures base % a == 0
  {
    if b == 8 {
      assert base % 8 == 0 && base % 4 == 0 && base % 2 == 0;
    } else if b == 4 {
      assert base % 4 == 0 && base % 2 == 0;
    }
  }

  lemma OnePlaced(base: nat, bytes: nat)
    requires bytes > 0 && base % bytes == 0
    ensures Placed([Leaf(base, bytes)], base, base + bytes)
  {}

  /** At a base with the type's alignment, every scalar is naturally aligned, inside the reported size,
      and disjoint from all others. */
  lemma {:induction false} LeavesPlaced(t: Type, base: nat)
    requires Physical(t) && Align(t) > 0 && base % Align(t) == 0
    ensures Placed(Leaves(t, base), base, base + Size(t))
    decreases t, 0, 0
  {
    hide RoundUp, Placed, End;
    match t
    case Scalar(width) => OnePlaced(base, width / 8);
    case Vector(component, count) => RepeatedPlaced(component, base, count);
    case Array(element, length) => RepeatedPlaced(element, base, length);
    case Struct(members) =>
      MaxAlignIsNatural(members);
      MembersPlaced(members, base, Align(t));
      RoundUpFacts(End(members), MaxAlign(members));
      PlacedWider(MemberLeaves(members, base), base, base + End(members), base + Size(t));
    case Pointer => OnePlaced(base, 8);
  }

  lemma NonePlaced(lo: nat, hi: nat)
    ensures Placed([], lo, hi)
  {}

  lemma PlacedWider(leaves: seq<Leaf>, lo: nat, hi: nat, hi': nat)
    requires Placed(leaves, lo, hi) && hi <= hi'
    ensures Placed(leaves, lo, hi')
  {}

  lemma {:induction false} RepeatedPlaced(t: Type, base: nat, n: nat)
    requires Physical(t) && Align(t) > 0 && base % Align(t) == 0
    ensures Placed(RepeatedLeaves(t, base, n), base, base + n * Size(t))
    decreases t, 1, n
  {
    hide Placed, Size, Align, RoundUp;
    if n == 0 {
      NonePlaced(base, base + n * Size(t));
    } else {
      RepeatedPlaced(t, base, n - 1);
      SizeFacts(t);
      AlignedAt(base, n - 1, Size(t), Align(t));
      LeavesPlaced(t, base + (n - 1) * Size(t));
      assert base + n * Size(t) == base + (n - 1) * Size(t) + Size(t);
      PlacedConcat(RepeatedLeaves(t, base, n - 1), Leaves(t, base + (n - 1) * Size(t)), base,
                   base + (n - 1) * Size(t), base + (n - 1) * Size(t), base + n * Size(t));
    }
  }

  lemma {:induction false} MembersPlaced(members: seq<Type>, base: nat, a: nat)
    requires (forall m :: m in members ==> Physical(m) && Align(m) <= a) && Natural(a) && base % a == 0
    ensures Placed(MemberLeaves(members, base), base, base + End(members))
    decreases members, 1, 0
  {
    hide Placed, Size, Align, RoundUp, Offset;
    if members == [] {
      NonePlaced(base, base);
    } else {
      var n := |members|;
      var last := members[n - 1];
      assert last in members;
      NaturalPositive(a);
      MembersPlaced(members[..n - 1], base, a);
      EndGrows(members, n - 1);
      assert members[..n] == members;
      AlignsDivide(base, Align(last), a);
      AlignedAt(base, 1, Offset(members, n - 1), Align(last));
      LeavesPlaced(last, base + Offset(members, n - 1));
      PlacedConcat(MemberLeaves(members[..n - 1], base), Leaves(last, base + Offset(members, n - 1)), base,
                   base + End(members[..n - 1]), base + Offset(members, n - 1), base + End(members));
    }
  }

  // ---------------------------------------------------------------- no byte too many

  /** The widths of the scalars and pointers of a type in bits, in order. */
  function Widths(t: Type): (r: seq<nat>)
    decreases t, 0, 0
  {
    match t
    case Scalar(width) => [width]
    case Vector(component, count) => Times(Widths(component), count)
    case Array(element, length) => Times(Widths(element), length)
    case Struct(members) => AllWidths(members)
    case Pointer => [64]
  }

  function AllWidths(members: seq<Type>): (r: seq<nat>)
    decreases members, 1, 0
  {
    if members == [] then []
    else
      assert members[0] in members;
      Widths(members[0]) + AllWidths(members[1..])
  }

  function Times(xs: seq<nat>, n: nat): (r: seq<nat>) {
    if n == 0 then [] else xs + Times(xs, n - 1)
  }

  /** The bytes of the leaves are the widths of the type's scalars: none is missing, and none is added. */
  ghost predicate OfWidths(leaves: seq<Leaf>, widths: seq<nat>) {
    |leaves| == |widths| && forall i :: 0 <= i < |leaves| ==> leaves[i].bytes * 8 == widths[i]
  }

  lemma OfWidthsConcat(a: seq<Leaf>, b: seq<Leaf>, v: seq<nat>, w: seq<nat>)
    requires OfWidths(a, v) && OfWidths(b, w)
    ensures OfWidths(a + b, v + w)
  {}

  lemma {:induction false} TimesSnoc(xs: seq<nat>, n: nat)
    ensures Times(xs, n) + xs == xs + Times(xs, n)
  {
    if n > 0 {
      TimesSnoc(xs, n - 1);
      assert Times(xs, n) + xs == xs + (Times(xs, n - 1) + xs);
    }
  }

  lemma {:induction false} AllWidthsSnoc(members: seq<Type>, m: Type)
    ensures AllWidths(members + [m]) == AllWidths(members) + Widths(m)
  {
    if members == [] {
      assert members + [m] == [m] && [m][1..] == [];
      assert AllWidths([m]) == Widths(m) + AllWidths([]);
    } else {
      assert (members + [m])[1..] == members[1..] + [m] && (members + [m])[0] == members[0];
      AllWidthsSnoc(members[1..], m);
    }
  }

  lemma {:induction false} LeavesOfWidths(t: Type, base: nat)
    requires Physical(t)
    ensures OfWidths(Leaves(t, base), Widths(t))
    decreases t, 0, 0
  {
    hide OfWidths;
    match t
    case Scalar(width) => OneOfWidth(base, width);
    case Vector(component, count) => RepeatedOfWidths(component, base, count);
    case Array(element, length) => RepeatedOfWidths(element, base, length);
    case Struct(members) => MembersOfWidths(members, base);
    case Pointer => OneOfWidth(base, 64);
  }

  lemma OneOfWidth(base: nat, width: nat)
    requires width == 8 || width == 16 || width == 32 || width == 64
    ensures OfWidths([Leaf(base, width / 8)], [width])
  {}

  lemma NoneOfWidth()
    ensures OfWidths([], [])
  {}

  lemma {:induction false} RepeatedOfWidths(t: Type, base: nat, n: nat)
    requires Physical(t)
    ensures OfWidths(RepeatedLeaves(t, base, n), Times(Widths(t), n))
    decreases t, 1, n
  {
    hide OfWidths, Leaves, Widths, Size;
    if n == 0 {
      NoneOfWidth();
    } else {
      RepeatedOfWidths(t, base, n - 1);
      LeavesOfWidths(t, base + (n - 1) * Size(t));
      OfWidthsConcat(RepeatedLeaves(t, base, n - 1), Leaves(t, base + (n - 1) * Size(t)), Times(Widths(t), n - 1),
                     Widths(t));
      TimesSnoc(Widths(t), n - 1);
    }
  }

  lemma {:induction false} MembersOfWidths(members: seq<Type>, base: nat)
    requires forall m :: m in members ==> Physical(m)
    ensures OfWidths(MemberLeaves(members, base), AllWidths(members))
    decreases members, 1, 0
  {
    hide OfWidths, Leaves, Widths, Offset;
    if members == [] {
      NoneOfWidth();
    } else {
      var n := |members|;
      var last := members[n - 1];
      assert last in members;
      MembersOfWidths(members[..n - 1], base);
      LeavesOfWidths(last, base + Offset(members, n - 1));
      OfWidthsConcat(MemberLeaves(members[..n - 1], base), Leaves(last, base + Offset(members, n - 1)),
                     AllWidths(members[..n - 1]), Widths(last));
      assert members == members[..n - 1] + [last];
      AllWidthsSnoc(members[..n - 1], last);
    }
  }

  /** The alignment is the width of the widest scalar. */
  lemma {:induction false} AlignIsWidest(t: Type)
    requires Physical(t)
    ensures Widths(t) != [] && Align(t) * 8 in Widths(t) && forall w :: w in Widths(t) ==> w <= Align(t) * 8
    decreases t, 0, 0
  {
    match t
    case Vector(component, count) =>
      AlignIsWidest(component);
      TimesMembers(Widths(component), count);
    case Array(element, length) =>
      AlignIsWidest(element);
      TimesMembers(Widths(element), length);
    case Struct(members) => MaxAlignIsWidest(members);
    case _ =>
  }

  lemma {:induction false} TimesMembers(xs: seq<nat>, n: nat)
    ensures n > 0 ==> forall x :: x in Times(xs, n) <==> x in xs
  {
    if n > 1 {
      TimesMembers(xs, n - 1);
    }
  }

  lemma {:induction false} MaxAlignIsWidest(members: seq<Type>)
    requires members != [] && forall m :: m in members ==> Physical(m)
    ensures AllWidths(members) != [] && MaxAlign(members) * 8 in AllWidths(members)
    ensures forall w :: w in AllWidths(members) ==> w <= MaxAlign(members) * 8
    decreases members, 1, 0
  {
    var n := |members|;
    var last := members[n - 1];
    assert last in members;
    AlignIsWidest(last);
    assert members == members[..n - 1] + [last];
    AllWidthsSnoc(members[..n - 1], last);
    if n > 1 {
      MaxAlignIsWidest(members[..n - 1]);
    }
  }

  /** The first leaf is at the base, less than `a` bytes are between two leaves, and less than `b` behind the last. */
  ghost predicate Tight(leaves: seq<Leaf>, lo: nat, hi: nat, a: nat, b: nat) {
    && leaves != [] && leaves[0].offset == lo
    && (forall i :: 0 < i < |leaves| ==> leaves[i].offset < leaves[i - 1].offset + leaves[i - 1].bytes + a)
    && lo <= LastEnd(leaves) <= hi < LastEnd(leaves) + b
  }

  function LastEnd(leaves: seq<Leaf>): nat
    requires leaves != []
  {
    leaves[|leaves| - 1].offset + leaves[|leaves| - 1].bytes
  }

  lemma TightConcat(x: seq<Leaf>, y: seq<Leaf>, lo: nat, mid: nat, mid': nat, hi: nat, a: nat, a': nat, b: nat, b': nat)
    requires Tight(x, lo, mid, a, b) && Tight(y, mid', hi, a', b') && a' <= a && mid <= mid' < LastEnd(x) + a
    ensures Tight(x + y, lo, hi, a, b')
  {
    forall i | 0 < i < |x + y| ensures (x + y)[i].offset < (x + y)[i - 1].offset + (x + y)[i - 1].bytes + a {
      if i > |x| {
        assert (x + y)[i] == y[i - |x|] && (x + y)[i - 1] == y[i - |x| - 1];
      }
    }
  }

  lemma OneTight(base: nat, bytes: nat)
    requires bytes > 0
    ensures Tight([Leaf(base, bytes)], base, base + bytes, bytes, bytes)
  {}

  lemma AboutTight(leaves: seq<Leaf>, lo: nat, hi: nat, a: nat, b: nat)
    requires Tight(leaves, lo, hi, a, b)
    ensures leaves != [] && lo <= LastEnd(leaves) <= hi < LastEnd(leaves) + b
  {}

  lemma TightRounded(leaves: seq<Leaf>, lo: nat, hi: nat, hi': nat, a: nat, b: nat, b': nat)
    requires Tight(leaves, lo, hi, a, b) && hi <= hi' < LastEnd(leaves) + b'
    ensures Tight(leaves, lo, hi', a, b')
  {}

  /** The leaves are laid out from the base on, with less than one alignment between two of them and behind the last:
      together with their natural alignment this fixes the size, and the strides of arrays. */
  lemma {:induction false} LeavesTight(t: Type, base: nat)
    requires Physical(t) && Align(t) > 0 && base % Align(t) == 0
    ensures Tight(Leaves(t, base), base, base + Size(t), Align(t), Align(t))
    decreases t, 0, 0
  {
    hide RoundUp, Tight, End, LastEnd;
    match t
    case Scalar(width) => OneTight(base, width / 8);
    case Vector(component, count) => RepeatedTight(component, base, count);
    case Array(element, length) => RepeatedTight(element, base, length);
    case Struct(members) =>
      MaxAlignIsNatural(members);
      var last := members[|members| - 1];
      assert last in members;
      MembersTight(members, base, Align(t));
      StructTight(members, base);
    case Pointer => OneTight(base, 8);
  }

  lemma StructTight(members: seq<Type>, base: nat)
    requires members != [] && (forall m :: m in members ==> Physical(m)) && MaxAlign(members) > 0
    requires members[|members| - 1] in members
    requires Tight(MemberLeaves(members, base), base, base + End(members), MaxAlign(members),
                   Align(members[|members| - 1]))
    ensures Tight(MemberLeaves(members, base), base, base + RoundUp(End(members), MaxAlign(members)), MaxAlign(members),
                  MaxAlign(members))
  {
    hide RoundUp, Tight, End, LastEnd, MemberLeaves;
    var leaves, last, a := MemberLeaves(members, base), members[|members| - 1], MaxAlign(members);
    AboutTight(leaves, base, base + End(members), a, Align(last));
    MaxAlignIsNatural(members);
    EndAligned(members);
    RoundUpFacts(End(members), a);
    RoundUpTwice(LastEnd(leaves) - base, End(members), Align(last), a);
    TightRounded(leaves, base, base + End(members), base + RoundUp(End(members), a), a, Align(last), a);
  }

  lemma EndAligned(members: seq<Type>)
    requires members != [] && forall m :: m in members ==> Physical(m)
    ensures var last := members[|members| - 1];
            last in members && Natural(Align(last)) && Align(last) > 0 && End(members) % Align(last) == 0
  {
    hide RoundUp, Size, Align, End, Offset, Natural;
    var n := |members|;
    var last := members[n - 1];
    assert last in members && members[..n] == members;
    EndGrows(members, n - 1);
    SizeFacts(last);
    SumAligned(Offset(members, n - 1), Size(last), Align(last));
  }

  lemma SumAligned(x: nat, y: nat, a: nat)
    requires Natural(a) && x % a == 0 && y % a == 0
    ensures (x + y) % a == 0 && a > 0
  {}

  lemma {:induction false} RepeatedTight(t: Type, base: nat, n: nat)
    requires Physical(t) && Align(t) > 0 && base % Align(t) == 0 && n >= 1
    ensures Tight(RepeatedLeaves(t, base, n), base, base + Size(t) * n, Align(t), Align(t))
    decreases t, 1, n
  {
    hide Tight, Size, Align, RoundUp, LastEnd;
    SizeFacts(t);
    AlignedAt(base, n - 1, Size(t), Align(t));
    LeavesTight(t, base + (n - 1) * Size(t));
    assert base + Size(t) * n == base + (n - 1) * Size(t) + Size(t);
    if n == 1 {
      assert RepeatedLeaves(t, base, 0) == [];
      assert [] + Leaves(t, base) == Leaves(t, base);
    } else {
      RepeatedTight(t, base, n - 1);
      AboutTight(RepeatedLeaves(t, base, n - 1), base, base + Size(t) * (n - 1), Align(t), Align(t));
      TightConcat(RepeatedLeaves(t, base, n - 1), Leaves(t, base + (n - 1) * Size(t)), base, base + Size(t) * (n - 1),
                  base + (n - 1) * Size(t), base + Size(t) * n, Align(t), Align(t), Align(t), Align(t));
    }
  }

  lemma {:induction false} MembersTight(members: seq<Type>, base: nat, a: nat)
    requires members != [] && (forall m :: m in members ==> Physical(m) && Align(m) <= a) && Natural(a) && base % a == 0
    ensures members[|members| - 1] in members
    ensures Tight(MemberLeaves(members, base), base, base + End(members), a, Align(members[|members| - 1]))
    decreases members, 1, 0
  {
    hide Tight, Size, Align, RoundUp, Offset, LastEnd, Natural, End;
    var n := |members|;
    var last := members[n - 1];
    assert last in members && members[..n] == members;
    EndGrows(members, n - 1);
    NaturalPositive(a);
    AlignsDivide(base, Align(last), a);
    AlignedAt(base, 1, Offset(members, n - 1), Align(last));
    LeavesTight(last, base + Offset(members, n - 1));
    var here := Leaves(last, base + Offset(members, n - 1));
    if n == 1 {
      FirstOffset(members);
      assert MemberLeaves(members[..0], base) == [] && [] + here == here;
      AboutTight(here, base, base + End(members), Align(last), Align(last));
      TightWider(here, base, base + End(members), Align(last), a, Align(last));
    } else {
      MembersTight(members[..n - 1], base, a);
      MemberBehind(members, base, a);
    }
  }

  /** One more member, as close as its alignment allows. */
  lemma MemberBehind(members: seq<Type>, base: nat, a: nat)
    requires |members| > 1 && (forall m :: m in members ==> Physical(m) && Align(m) <= a) && Natural(a)
    requires base % a == 0 && members[|members| - 1] in members && members[|members| - 2] in members
    requires var head, last := members[..|members| - 1], members[|members| - 1];
             && Tight(MemberLeaves(head, base), base, base + End(head), a, Align(head[|head| - 1]))
             && Tight(Leaves(last, base + Offset(members, |members| - 1)), base + Offset(members, |members| - 1),
                      base + End(members), Align(last), Align(last))
    ensures Tight(MemberLeaves(members, base), base, base + End(members), a, Align(members[|members| - 1]))
  {
    hide Tight, Size, Align, RoundUp, Offset, LastEnd, Natural, End;
    var n, head := |members|, members[..|members| - 1];
    var last, before := members[n - 1], head[n - 2];
    assert before == members[n - 2];
    EndAligned(head);
    EndGrows(members, n - 1);
    SizeFacts(last);
    var leaves := MemberLeaves(head, base);
    AboutTight(leaves, base, base + End(head), a, Align(before));
    RoundUpTwice(LastEnd(leaves) - base, End(head), Align(before), Align(last));
    TightConcat(leaves, Leaves(last, base + Offset(members, n - 1)), base, base + End(head),
                base + Offset(members, n - 1), base + End(members), a, Align(last), Align(before), Align(last));
  }

  lemma TightWider(leaves: seq<Leaf>, lo: nat, hi: nat, a: nat, a': nat, b: nat)
    requires Tight(leaves, lo, hi, a, b) && a <= a'
    ensures Tight(leaves, lo, hi, a', b)
  {}

  lemma FirstOffset(members: seq<Type>)
    requires members != [] && forall m :: m in members ==> Physical(m)
    ensures Offset(members, 0) == 0
  {
    assert members[0] in members && members[..0] == [];
    AlignIsNatural(members[0]);
    RoundUpFacts(0, Align(members[0]));
  }

  /** A member's offset is the first one behind its predecessor that its alignment allows. */
  lemma OffsetLeast(members: seq<Type>, i: nat, x: nat)
    requires i < |members| && (forall m :: m in members ==> Physical(m)) && members[i] in members
    requires Align(members[i]) > 0 && x % Align(members[i]) == 0
    requires i > 0 ==> members[i - 1] in members && x >= Offset(members, i - 1) + Size(members[i - 1])
    ensures Offset(members, i) <= x
  {
    hide Size, Align, Offset, Natural;
    EndGrows(members, i);
    if i > 0 {
      EndGrows(members, i - 1);
    } else {
      assert members[..0] == [];
    }
    AlignIsNatural(members[i]);
    LeastMultiple(End(members[..i]), x, Align(members[i]));
  }

  /** Rounding up to a larger alignment does not depend on having rounded up to a smaller one. */
  lemma RoundUpTwice(end: nat, x: nat, a: nat, b: nat)
    requires Natural(a) && Natural(b) && end <= x < end + a && x % a == 0
    ensures end <= RoundUp(x, b) < end + if a >= b then a else b
  {
    RoundUpFacts(x, b);
    if a >= b {
      AlignsDivide(x, b, a);
      assert RoundUp(x, b) == x;
    } else {
      RoundUpFacts(end, b);
      AlignsDivide(RoundUp(end, b), a, b);
      MultiplesApart(x, RoundUp(end, b), end, a);
      LeastMultiple(x, RoundUp(end, b), b);
    }
  }

  /** There is one multiple of `a` from `end` on, within `a`. */
  lemma MultiplesApart(x: nat, y: nat, end: nat, a: nat)
    requires Natural(a) && x % a == 0 && y % a == 0 && end <= x < end + a && end <= y
    ensures x <= y
  {}

  lemma LeastMultiple(x: nat, y: nat, b: nat)
    requires Natural(b) && x <= y && y % b == 0
    ensures RoundUp(x, b) <= y
  {
    RoundUpFacts(x, b);
  }
}
