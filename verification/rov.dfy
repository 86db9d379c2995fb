/** Interlock brackets around raster-ordered accesses, and stretching them over a whole region. */
module Rov {
  import opened IR

  /** OpBeginInvocationInterlockEXT and OpEndInvocationInterlockEXT. */
  const BEGIN: nat := 5364
  const END: nat := 5365

  // ---------------------------------------------------------------- traces

  /** How far a run has come: the lock not yet taken, held, or released. */
  datatype Phase = Unlocked | Held | Released | Broken

  /** `rov` tells which operations are raster-ordered accesses. */
  ghost function After(rov: Op -> bool, op: Op, ph: Phase): Phase {
    if op.op == BEGIN then (if ph == Unlocked then Held else Broken)
    else if op.op == END then (if ph == Held then Released else Broken)
    else if rov(op) && ph != Held then Broken
    else ph
  }

  ghost function Scan(rov: Op -> bool, ops: seq<Op>, ph: Phase): Phase {
    if ops == [] then ph else Scan(rov, ops[1..], After(rov, ops[0], ph))
  }

  lemma {:induction false} ScanConcat(rov: Op -> bool, a: seq<Op>, b: seq<Op>, ph: Phase)
    ensures Scan(rov, a + b, ph) == Scan(rov, b, Scan(rov, a, ph))
  {
    if a == [] {
      assert a + b == b;
    } else {
      assert (a + b)[1..] == a[1..] + b;
      ScanConcat(rov, a[1..], b, After(rov, a[0], ph));
    }
  }

  /** Begins and ends alternate, starting from `inside`, and accesses happen only between the two. */
  ghost predicate Bracketed(rov: Op -> bool, ops: seq<Op>, inside: bool) {
    if ops == [] then !inside
    else if ops[0].op == BEGIN then !inside && Bracketed(rov, ops[1..], true)
    else if ops[0].op == END then inside && Bracketed(rov, ops[1..], false)
    else (rov(ops[0]) ==> inside) && Bracketed(rov, ops[1..], inside)
  }

  predicate HasOp(ops: seq<Op>, code: nat) {
    exists i :: 0 <= i < |ops| && ops[i].op == code
  }

  lemma HasOpCons(ops: seq<Op>, code: nat)
    requires ops != []
    ensures HasOp(ops, code) <==> ops[0].op == code || HasOp(ops[1..], code)
  {
    if HasOp(ops[1..], code) {
      var k :| 0 <= k < |ops[1..]| && ops[1..][k].op == code;
      assert ops[k + 1].op == code;
    }
    if k :| 0 < k < |ops| && ops[k].op == code {
      assert ops[1..][k - 1].op == code;
    }
  }

  lemma {:induction false} BracketedConcat(rov: Op -> bool, a: seq<Op>, b: seq<Op>, inside: bool)
    requires Bracketed(rov, a, inside) && Bracketed(rov, b, false)
    ensures Bracketed(rov, a + b, inside)
  {
    if a == [] {
      assert a + b == b;
    } else {
      assert (a + b)[1..] == a[1..] + b;
      BracketedConcat(rov, a[1..], b, if a[0].op == BEGIN then true else if a[0].op == END then false else inside);
    }
  }

  lemma AddedIsPaired(rov: Op -> bool, op: Op, isRov: bool)
    requires op.op != BEGIN && op.op != END && (rov(op) ==> isRov)
    ensures Bracketed(rov, if isRov then [Op(BEGIN, 0, []), op, Op(END, 0, [])] else [op], false)
  {
    var end := Op(END, 0, []);
    assert Bracketed(rov, [end], true);
    assert [op, end][1..] == [end];
    assert Bracketed(rov, [op, end], true);
    assert [Op(BEGIN, 0, []), op, end][1..] == [op, end];
  }

  /** The block that the converter is filling. */
  class Emitter {
    var currentBlock: seq<Op>

    /** `Converter::Impl::add`: raster-ordered accesses are bracketed one by one. */
    method Add(op: Op, isRov: bool, ghost rov: Op -> bool)
      requires op.op != BEGIN && op.op != END && (rov(op) ==> isRov) && Bracketed(rov, currentBlock, false)
      modifies this
      ensures currentBlock == old(currentBlock) + if isRov then [Op(BEGIN, 0, []), op, Op(END, 0, [])] else [op]
      ensures Bracketed(rov, currentBlock, false)
    {
      ghost var before := currentBlock;
      if isRov {
        currentBlock := currentBlock + [Op(BEGIN, 0, [])];
      }
      currentBlock := currentBlock + [op];
      if isRov {
        currentBlock := currentBlock + [Op(END, 0, [])];
      }
      ghost var added := if isRov then [Op(BEGIN, 0, []), op, Op(END, 0, [])] else [op];
      AddedIsPaired(rov, op, isRov);
      BracketedConcat(rov, before, added, false);
      assert currentBlock == before + added;
    }
  }

  // ---------------------------------------------------------------- scrubbing

  function Without(ops: seq<Op>, code: nat): seq<Op> {
    if ops == [] then []
    else if ops[0].op == code then Without(ops[1..], code)
    else [ops[0]] + Without(ops[1..], code)
  }

  lemma {:induction false} WithoutConcat(a: seq<Op>, b: seq<Op>, code: nat)
    ensures Without(a + b, code) == Without(a, code) + Without(b, code)
  {
    if a == [] {
      assert a + b == b;
    } else {
      assert (a + b)[1..] == a[1..] + b;
      WithoutConcat(a[1..], b, code);
    }
  }

  lemma {:induction false} WithoutAbsent(ops: seq<Op>, code: nat)
    requires !HasOp(ops, code)
    ensures Without(ops, code) == ops
  {
    if ops != [] {
      HasOpCons(ops, code);
      WithoutAbsent(ops[1..], code);
    }
  }

  lemma {:induction false} WithoutHas(ops: seq<Op>, code: nat, other: nat)
    ensures HasOp(Without(ops, code), other) <==> other != code && HasOp(ops, other)
  {
    if ops != [] {
      HasOpCons(ops, other);
      WithoutHas(ops[1..], code, other);
      if ops[0].op != code {
        var rest := Without(ops[1..], code);
        assert Without(ops, code)[1..] == rest;
        HasOpCons(Without(ops, code), other);
      }
    }
  }

  /** `std::remove_if` and `erase` on the range from `lo` to `hi`. */
  method RemoveRange(ops: seq<Op>, lo: nat, hi: nat, code: nat) returns (r: seq<Op>)
    requires lo <= hi <= |ops|
    ensures r == ops[..lo] + Without(ops[lo..hi], code) + ops[hi..]
  {
    var kept := [];
    var i := lo;
    while i < hi
      invariant lo <= i <= hi && kept == Without(ops[lo..i], code)
    {
      assert ops[lo..i + 1] == ops[lo..i] + [ops[i]];
      WithoutConcat(ops[lo..i], [ops[i]], code);
      if ops[i].op != code {
        kept := kept + [ops[i]];
      }
      i := i + 1;
    }
    r := ops[..lo] + kept + ops[hi..];
  }

  /** The operations up to the first begin, and after it no further begin. */
  function KeepFirstBegin(ops: seq<Op>): seq<Op> {
    if ops == [] then []
    else if ops[0].op == BEGIN then [ops[0]] + Without(ops[1..], BEGIN)
    else [ops[0]] + KeepFirstBegin(ops[1..])
  }

  lemma KeepFirstNext(ops: seq<Op>, i: nat)
    requires i < |ops|
    ensures ops[i].op != BEGIN ==> ops[..i] + KeepFirstBegin(ops[i..]) == ops[..i + 1] + KeepFirstBegin(ops[i + 1..])
    ensures ops[i].op != BEGIN ==> (HasOp(ops[i..], BEGIN) <==> HasOp(ops[i + 1..], BEGIN))
    ensures ops[i].op == BEGIN ==> ops[..i] + KeepFirstBegin(ops[i..]) == ops[..i + 1] + Without(ops[i + 1..], BEGIN)
  {
    var rest := ops[i..];
    assert rest[1..] == ops[i + 1..] && rest[0] == ops[i] && ops[..i + 1] == ops[..i] + [ops[i]];
    HasOpCons(rest, BEGIN);
    hide Without, HasOp;
    if ops[i].op == BEGIN {
      assert ops[..i] + ([ops[i]] + Without(ops[i + 1..], BEGIN)) == ops[..i] + [ops[i]] + Without(ops[i + 1..], BEGIN);
    } else {
      assert ops[..i] + ([ops[i]] + KeepFirstBegin(ops[i + 1..])) == ops[..i] + [ops[i]] + KeepFirstBegin(ops[i + 1..]);
    }
  }

  /** `scrub_rov_begin_lock`. */
  method ScrubBegin(ops: seq<Op>, preserveFirst: bool) returns (r: seq<Op>)
    requires preserveFirst ==> HasOp(ops, BEGIN)
    ensures r == if preserveFirst then KeepFirstBegin(ops) else Without(ops, BEGIN)
  {
    var begin := 0;
    if preserveFirst {
      assert ops[0..] == ops;
      while ops[begin].op != BEGIN
        invariant begin < |ops| && HasOp(ops[begin..], BEGIN)
        invariant KeepFirstBegin(ops) == ops[..begin] + KeepFirstBegin(ops[begin..])
        decreases |ops| - begin
      {
        KeepFirstNext(ops, begin);
        begin := begin + 1;
      }
      KeepFirstNext(ops, begin);
      begin := begin + 1;
    }
    r := RemoveRange(ops, begin, |ops|, BEGIN);
    assert ops[begin..|ops|] == ops[begin..] && ops[|ops|..] == [];
    assert !preserveFirst ==> ops[begin..] == ops && ops[..begin] == [];
  }

  /** The operations from the last end on, and before it no other end. */
  function KeepLastEnd(ops: seq<Op>): seq<Op> {
    if ops == [] then []
    else if ops[0].op == END && HasOp(ops[1..], END) then KeepLastEnd(ops[1..])
    else [ops[0]] + KeepLastEnd(ops[1..])
  }

  lemma {:induction false} KeepLastIs(ops: seq<Op>, i: nat)
    requires i < |ops| && ops[i].op == END && !HasOp(ops[i + 1..], END)
    ensures KeepLastEnd(ops) == Without(ops[..i], END) + ops[i..]
  {
    if i == 0 {
      KeepLastNone(ops[1..]);
      assert ops[..0] == [] && ops[0..] == [ops[0]] + ops[1..];
    } else {
      assert ops[1..][i..] == ops[i + 1..] && ops[1..][i - 1] == ops[i];
      KeepLastIs(ops[1..], i - 1);
      assert ops[..i][1..] == ops[1..][..i - 1] && ops[1..][i - 1..] == ops[i..];
    }
  }

  lemma {:induction false} KeepLastNone(ops: seq<Op>)
    requires !HasOp(ops, END)
    ensures KeepLastEnd(ops) == ops
  {
    if ops != [] {
      HasOpCons(ops, END);
      KeepLastNone(ops[1..]);
    }
  }

  lemma HasNothing(code: nat)
    ensures !HasOp([], code)
  {}

  lemma HasEndNext(ops: seq<Op>, i: nat)
    requires i < |ops|
    ensures HasOp(ops[i..], END) <==> ops[i].op == END || HasOp(ops[i + 1..], END)
  {
    assert ops[i..][1..] == ops[i + 1..] && ops[i..][0] == ops[i];
    HasOpCons(ops[i..], END);
  }

  /** `scrub_rov_end_lock`. */
  method ScrubEnd(ops: seq<Op>, preserveLast: bool) returns (r: seq<Op>)
    ensures r == if preserveLast then KeepLastEnd(ops) else Without(ops, END)
  {
    hide KeepLastEnd, Without, HasOp;
    var end := |ops|;
    assert ops[0..end] == ops && ops[..0] == [] && ops[|ops|..] == [];
    HasNothing(END);
    if preserveLast {
      var i: nat := |ops|;
      while i > 0
        invariant i <= |ops| && !HasOp(ops[i..], END)
      {
        var index := i - 1;
        HasEndNext(ops, index);
        if ops[index].op == END {
          KeepLastIs(ops, index);
          r := RemoveRange(ops, 0, index, END);
          assert ops[0..index] == ops[..index];
          return;
        }
        i := index;
      }
      assert ops[0..] == ops;
      KeepLastNone(ops);
      WithoutAbsent(ops, END);
    }
    r := RemoveRange(ops, 0, end, END);
  }

  // ---------------------------------------------------------------- what scrubbing leaves

  lemma {:induction false} HeldThroughout(rov: Op -> bool, ops: seq<Op>)
    requires !HasOp(ops, BEGIN) && !HasOp(ops, END)
    ensures Scan(rov, ops, Held) == Held
  {
    if ops != [] {
      HasOpCons(ops, BEGIN);
      HasOpCons(ops, END);
      HeldThroughout(rov, ops[1..]);
    }
  }

  /** Outside the brackets, without a begin there is nothing to lock. */
  lemma {:induction false} PlainScan(rov: Op -> bool, ops: seq<Op>, ph: Phase)
    requires Bracketed(rov, ops, false) && !HasOp(ops, BEGIN)
    ensures Scan(rov, ops, ph) == ph && !HasOp(ops, END)
  {
    if ops != [] {
      HasOpCons(ops, BEGIN);
      HasOpCons(ops, END);
      PlainScan(rov, ops[1..], ph);
    }
  }

  /** A bracket that is opened is closed. */
  lemma {:induction false} BeginNeedsEnd(rov: Op -> bool, ops: seq<Op>, inside: bool)
    requires Bracketed(rov, ops, inside) && !HasOp(ops, END)
    ensures !inside && !HasOp(ops, BEGIN)
  {
    if ops != [] {
      HasOpCons(ops, BEGIN);
      HasOpCons(ops, END);
      BeginNeedsEnd(rov, ops[1..], if ops[0].op == BEGIN then true else if ops[0].op == END then false else inside);
    }
  }

  /** Between the two ends of the region: no lock is left. */
  lemma ScrubbedInside(rov: Op -> bool, ops: seq<Op>)
    ensures Scan(rov, Without(Without(ops, BEGIN), END), Held) == Held
    ensures !HasOp(Without(Without(ops, BEGIN), END), BEGIN) && !HasOp(Without(Without(ops, BEGIN), END), END)
  {
    WithoutHas(ops, BEGIN, BEGIN);
    WithoutHas(Without(ops, BEGIN), END, BEGIN);
    WithoutHas(Without(ops, BEGIN), END, END);
    HeldThroughout(rov, Without(Without(ops, BEGIN), END));
  }

  /** The first block of the region takes the lock before its first access, and keeps it. */
  lemma {:induction false} ScrubbedFirst(rov: Op -> bool, ops: seq<Op>)
    requires Bracketed(rov, ops, false) && HasOp(ops, BEGIN)
    ensures Scan(rov, Without(KeepFirstBegin(ops), END), Unlocked) == Held
  {
    HasOpCons(ops, BEGIN);
    var kept := KeepFirstBegin(ops);
    if ops[0].op == BEGIN {
      assert kept[1..] == Without(ops[1..], BEGIN);
      ScrubbedInside(rov, ops[1..]);
      assert Without(kept, END)[1..] == Without(Without(ops[1..], BEGIN), END);
    } else {
      assert kept[1..] == KeepFirstBegin(ops[1..]);
      ScrubbedFirst(rov, ops[1..]);
      assert Without(kept, END)[1..] == Without(KeepFirstBegin(ops[1..]), END);
    }
  }

  /** The last block of the region releases the lock after its last access. */
  lemma {:induction false} ScrubbedLast(rov: Op -> bool, ops: seq<Op>, inside: bool)
    requires Bracketed(rov, ops, inside) && HasOp(ops, END)
    ensures Scan(rov, KeepLastEnd(Without(ops, BEGIN)), Held) == Released
  {
    HasOpCons(ops, END);
    var rest := ops[1..];
    WithoutHas(rest, BEGIN, END);
    if ops[0].op == BEGIN {
      ScrubbedLast(rov, rest, true);
    } else {
      var b := Without(ops, BEGIN);
      assert b[1..] == Without(rest, BEGIN);
      if ops[0].op != END {
        ScrubbedLast(rov, rest, inside);
        assert KeepLastEnd(b)[1..] == KeepLastEnd(b[1..]);
      } else if HasOp(rest, END) {
        ScrubbedLast(rov, rest, false);
      } else {
        BeginNeedsEnd(rov, rest, false);
        WithoutAbsent(rest, BEGIN);
        KeepLastNone(rest);
        PlainScan(rov, rest, Released);
        assert KeepLastEnd(b)[1..] == rest;
      }
    }
  }

  /** A single block takes the lock before its first access and releases it after its last. */
  lemma {:induction false} ScrubbedOnly(rov: Op -> bool, ops: seq<Op>)
    requires Bracketed(rov, ops, false) && HasOp(ops, BEGIN)
    ensures Scan(rov, KeepLastEnd(KeepFirstBegin(ops)), Unlocked) == Released
  {
    HasOpCons(ops, BEGIN);
    var kept := KeepFirstBegin(ops);
    if ops[0].op == BEGIN {
      if !HasOp(ops[1..], END) {
        BeginNeedsEnd(rov, ops[1..], true);
      }
      assert kept[1..] == Without(ops[1..], BEGIN);
      ScrubbedLast(rov, ops[1..], true);
      assert KeepLastEnd(kept)[1..] == KeepLastEnd(kept[1..]);
    } else {
      assert kept[1..] == KeepFirstBegin(ops[1..]);
      ScrubbedOnly(rov, ops[1..]);
      assert KeepLastEnd(kept)[1..] == KeepLastEnd(kept[1..]);
    }
  }
}
