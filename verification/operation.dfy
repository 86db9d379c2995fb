/** The argument list of an operation: a growable buffer with one literal bit per argument packed behind it. */
module Operations {
  import opened Bits

  datatype Arg = Arg(value: bv32, isLiteral: bool)

  /** Arguments kept inside the object itself. */
  const INLINE_ARGUMENTS: nat := 7

  function LiteralWordCount(count: nat): nat {
    (count + 31) / 32
  }

  // ---------------------------------------------------------------- what a buffer holds

  /** Values first, then, after room for `capacity` of them, the bits. */
  function ArgAt(words: seq<bv32>, capacity: nat, i: nat): Arg
    requires i < capacity && |words| == capacity + LiteralWordCount(capacity)
  {
    WordIndex(i, capacity);
    Arg(words[i], Bit(words[capacity + i / 32], i % 32))
  }

  function ArgsOf(words: seq<bv32>, count: nat, capacity: nat): (r: seq<Arg>)
    requires count <= capacity && |words| == capacity + LiteralWordCount(capacity)
    ensures |r| == count
  {
    seq(count, i requires 0 <= i < count => ArgAt(words, capacity, i))
  }

  lemma WordIndex(i: nat, capacity: nat)
    requires i < capacity
    ensures i / 32 < LiteralWordCount(capacity)
  {}

  /** `add_argument` on the words: the value, and its bit set or cleared. */
  function Appended(words: seq<bv32>, count: nat, capacity: nat, value: bv32, isLiteral: bool): (r: seq<bv32>)
    requires count < capacity && |words| == capacity + LiteralWordCount(capacity)
    ensures |r| == |words|
  {
    WordIndex(count, capacity);
    var k := capacity + count / 32;
    words[count := value][k := if isLiteral then Set(words[k], count % 32) else Clear(words[k], count % 32)]
  }

  lemma AppendedAt(words: seq<bv32>, count: nat, capacity: nat, value: bv32, isLiteral: bool, i: nat)
    requires count < capacity && |words| == capacity + LiteralWordCount(capacity) && i <= count
    ensures ArgAt(Appended(words, count, capacity, value, isLiteral), capacity, i) == if i == count
            then Arg(value, isLiteral) else ArgAt(words, capacity, i)
  {
    hide Bit, Set, Clear;
    WordIndex(i, capacity);
    WordIndex(count, capacity);
    var k := capacity + count / 32;
    SetBit(words[k], count % 32, i % 32);
    ClearBit(words[k], count % 32, i % 32);
  }

  lemma AppendedArgs(words: seq<bv32>, count: nat, capacity: nat, value: bv32, isLiteral: bool)
    requires count < capacity && |words| == capacity + LiteralWordCount(capacity)
    ensures ArgsOf(Appended(words, count, capacity, value, isLiteral), count + 1, capacity) == ArgsOf(words, count,
            capacity) + [Arg(value, isLiteral)]
  {
    hide Appended, ArgAt;
    forall i | 0 <= i < count + 1
      ensures ArgAt(Appended(words, count, capacity, value, isLiteral), capacity, i) == if i == count
              then Arg(value, isLiteral) else ArgAt(words, capacity, i)
    {
      AppendedAt(words, count, capacity, value, isLiteral, i);
    }
  }

  /** Moving values and bits to a buffer of another capacity keeps the arguments. */
  lemma MovedArgs(words: seq<bv32>, capacity: nat, words': seq<bv32>, capacity': nat, count: nat)
    requires count <= capacity && |words| == capacity + LiteralWordCount(capacity)
    requires count <= capacity' && |words'| == capacity' + LiteralWordCount(capacity')
    requires words'[..count] == words[..count]
    requires LiteralWordCount(count) <= LiteralWordCount(capacity)
             && LiteralWordCount(count) <= LiteralWordCount(capacity')
    requires words'[capacity'..capacity' + LiteralWordCount(count)]
             == words[capacity..capacity + LiteralWordCount(count)]
    ensures ArgsOf(words', count, capacity') == ArgsOf(words, count, capacity)
  {
    hide Bit;
    forall i | 0 <= i < count ensures ArgAt(words', capacity', i) == ArgAt(words, capacity, i) {
      WordIndex(i, count);
      WordIndex(i, capacity);
      WordIndex(i, capacity');
      assert words'[..count][i] == words[..count][i];
      assert words'[capacity'..capacity' + LiteralWordCount(count)][i / 32]
             == words[capacity..capacity + LiteralWordCount(count)][i / 32];
    }
  }

  lemma WordsGrow(count: nat, capacity: nat)
    requires count <= capacity
    ensures LiteralWordCount(count) <= LiteralWordCount(capacity)
  {}

  lemma SetArgs(words: seq<bv32>, count: nat, capacity: nat, index: nat, value: bv32)
    requires index < count <= capacity && |words| == capacity + LiteralWordCount(capacity)
    ensures var args := ArgsOf(words, count, capacity);
            ArgsOf(words[index := value], count, capacity) == args[index := Arg(value, args[index].isLiteral)]
  {
    hide Bit;
  }

  // ---------------------------------------------------------------- moving words

  /** `memcpy`. */
  method CopyWords(dst: array<bv32>, dstAt: nat, src: array<bv32>, srcAt: nat, n: nat)
    requires dst != src && dstAt + n <= dst.Length && srcAt + n <= src.Length
    modifies dst
    ensures dst[..] == old(dst[..dstAt]) + src[srcAt..srcAt + n] + old(dst[dstAt + n..])
  {
    for i := 0 to n
      invariant forall k :: 0 <= k < dst.Length ==>
                  dst[k] == if dstAt <= k < dstAt + i then src[srcAt + (k - dstAt)] else old(dst[k])
    {
      dst[dstAt + i] := src[srcAt + i];
    }
  }

  /** `memset` to zero. */
  method ClearWords(dst: array<bv32>, at: nat, n: nat)
    requires at + n <= dst.Length
    modifies dst
    ensures dst[..] == old(dst[..at]) + seq(n, i => 0) + old(dst[at + n..])
  {
    for i := 0 to n
      invariant forall k :: 0 <= k < dst.Length ==> dst[k] == if at <= k < at + i then 0 else old(dst[k])
    {
      dst[at + i] := 0;
    }
  }

  /** Copies the arguments, values and bits, between buffers of different capacities. */
  method CopyArguments(dst: array<bv32>, dstCapacity: nat, src: array<bv32>, srcCapacity: nat, count: nat)
    requires dst != src && count <= dstCapacity && count <= srcCapacity
    requires dst.Length == dstCapacity + LiteralWordCount(dstCapacity)
             && src.Length == srcCapacity + LiteralWordCount(srcCapacity)
    modifies dst
    ensures ArgsOf(dst[..], count, dstCapacity) == ArgsOf(src[..], count, srcCapacity)
  {
    hide ArgsOf, LiteralWordCount;
    var used := LiteralWordCount(count);
    WordsGrow(count, dstCapacity);
    WordsGrow(count, srcCapacity);
    CopyWords(dst, 0, src, 0, count);
    assert dst[..][..count] == src[..][..count];
    CopyWords(dst, dstCapacity, src, srcCapacity, used);
    assert dst[..][..count] == src[..][..count];
    assert dst[..][dstCapacity..dstCapacity + used] == src[..][srcCapacity..srcCapacity + used];
    MovedArgs(src[..], srcCapacity, dst[..], dstCapacity, count);
  }

  // ---------------------------------------------------------------- the object

  class Operation {
    var op: nat
    var id: nat
    var typeId: nat
    var flags: bv8

    const inlineArguments: array<bv32>
    var arguments: array<bv32>
    var argumentCount: nat
    var argumentCapacity: nat

    ghost predicate Valid()
      reads this
    {
      && argumentCount <= argumentCapacity && argumentCapacity >= INLINE_ARGUMENTS
      && arguments.Length == argumentCapacity + LiteralWordCount(argumentCapacity)
      && inlineArguments.Length == INLINE_ARGUMENTS + LiteralWordCount(INLINE_ARGUMENTS)
    }

    /** What the operation looks like to its users. */
    ghost function Args(): seq<Arg>
      requires Valid()
      reads this, arguments
    {
      ArgsOf(arguments[..], argumentCount, argumentCapacity)
    }

    constructor (op_: nat, id_: nat, typeId_: nat)
      ensures Valid() && Args() == [] && fresh(arguments)
      ensures op == op_ && id == id_ && typeId == typeId_ && flags == 0
    {
      op, id, typeId, flags := op_, id_, typeId_, 0;
      var words := new bv32[INLINE_ARGUMENTS + LiteralWordCount(INLINE_ARGUMENTS)];
      inlineArguments, arguments := words, words;
      argumentCount, argumentCapacity := 0, INLINE_ARGUMENTS;
    }

    method ReserveArguments(count: nat)
      requires Valid()
      modifies this`arguments, this`argumentCapacity
      ensures Valid() && Args() == old(Args()) && (arguments == old(arguments) || fresh(arguments))
      ensures argumentCapacity == if count <= old(argumentCapacity) then old(argumentCapacity) else count
    {
      hide ArgsOf, LiteralWordCount;
      if count <= argumentCapacity {
        return;
      }
      var newValues := new bv32[count + LiteralWordCount(count)];
      ClearWords(newValues, count, LiteralWordCount(count));
      CopyArguments(newValues, count, arguments, argumentCapacity, argumentCount);
      arguments := newValues;
      argumentCapacity := count;
    }

    method AddArgument(value: bv32, isLiteral: bool)
      requires Valid()
      modifies this`arguments, this`argumentCapacity, this`argumentCount, arguments
      ensures Valid() && Args() == old(Args()) + [Arg(value, isLiteral)]
              && (arguments == old(arguments) || fresh(arguments))
    {
      hide Bit, Set, Clear;
      if argumentCount == argumentCapacity {
        ReserveArguments(argumentCapacity * 2);
      }
      ghost var words := arguments[..];
      var index := argumentCount;
      AppendedArgs(words, index, argumentCapacity, value, isLiteral);
      WordIndex(index, argumentCapacity);
      argumentCount := argumentCount + 1;
      arguments[index] := value;
      var k := argumentCapacity + index / 32;
      if isLiteral {
        arguments[k] := Set(arguments[k], index % 32);
      } else {
        arguments[k] := Clear(arguments[k], index % 32);
      }
      assert arguments[..] == Appended(words, index, argumentCapacity, value, isLiteral);
    }

    method AddId(arg: bv32)
      requires Valid() && arg != 0
      modifies this`arguments, this`argumentCapacity, this`argumentCount, arguments
      ensures Valid() && Args() == old(Args()) + [Arg(arg, false)] && (arguments == old(arguments) || fresh(arguments))
    {
      AddArgument(arg, false);
    }

    method AddLiteral(lit: bv32)
      requires Valid()
      modifies this`arguments, this`argumentCapacity, this`argumentCount, arguments
      ensures Valid() && Args() == old(Args()) + [Arg(lit, true)] && (arguments == old(arguments) || fresh(arguments))
    {
      AddArgument(lit, true);
    }

    method AddIds(args: seq<bv32>)
      requires Valid() && 0 !in args
      modifies this`arguments, this`argumentCapacity, this`argumentCount, arguments
      ensures Valid() && Args() == old(Args()) + Ids(args) && (arguments == old(arguments) || fresh(arguments))
    {
      ReserveArguments(argumentCount + |args|);
      assert Ids(args[..0]) == [];
      for i := 0 to |args|
        invariant Valid() && Args() == old(Args()) + Ids(args[..i]) && (arguments == old(arguments) || fresh(arguments))
      {
        assert args[i] in args;
        assert Ids(args[..i + 1]) == Ids(args[..i]) + [Arg(args[i], false)];
        AddId(args[i]);
      }
      assert args[..|args|] == args;
    }

    method NumArguments() returns (n: nat)
      requires Valid()
      ensures n == |Args()|
    {
      n := argumentCount;
    }

    method Argument(index: nat) returns (value: bv32)
      requires Valid() && index < |Args()|
      ensures value == Args()[index].value
    {
      value := arguments[index];
    }

    method ArgumentIsLiteral(index: nat) returns (r: bool)
      requires Valid() && index < |Args()|
      ensures r == Args()[index].isLiteral
    {
      hide Bit;
      WordIndex(index, argumentCapacity);
      r := Bit(arguments[argumentCapacity + index / 32], index % 32);
    }

    method SetArgument(index: nat, value: bv32)
      requires Valid() && index < |Args()| && (Args()[index].isLiteral || value != 0)
      modifies arguments
      ensures Valid() && Args() == old(Args())[index := Arg(value, old(Args())[index].isLiteral)]
    {
      hide Bit;
      ghost var words := arguments[..];
      SetArgs(words, argumentCount, argumentCapacity, index, value);
      arguments[index] := value;
      assert arguments[..] == words[index := value];
    }

    /** The copy constructor and the assignment operator. */
    method CopyFrom(other: Operation)
      requires Valid() && other.Valid() && other != this && other.arguments != arguments
      modifies this, arguments
      ensures Valid() && other.Valid() && Args() == other.Args() == old(other.Args())
      ensures op == other.op && id == other.id && typeId == other.typeId && flags == other.flags
      ensures arguments == old(arguments) || fresh(arguments)
    {
      hide ArgsOf, LiteralWordCount;
      op, id, typeId, flags := other.op, other.id, other.typeId, other.flags;
      ReserveArguments(other.argumentCount);
      argumentCount := other.argumentCount;
      CopyArguments(arguments, argumentCapacity, other.arguments, other.argumentCapacity, argumentCount);
    }
  }

  function Ids(args: seq<bv32>): (r: seq<Arg>)
    ensures |r| == |args|
  {
    seq(|args|, i requires 0 <= i < |args| => Arg(args[i], false))
  }

  // ---------------------------------------------------------------- any sequence of calls and copies

  datatype Call = AddIdCall(id: bv32) | AddLiteralCall(lit: bv32) | ReserveCall(count: nat) | SetCall(index: nat,
          value: bv32)

  /** What the assertions in the class ask of a call on a list of arguments. */
  predicate Legal(args: seq<Arg>, call: Call) {
    match call
    case AddIdCall(id) => id != 0
    case SetCall(index, value) => index < |args| && (args[index].isLiteral || value != 0)
    case _ => true
  }

  /** The call on a plain list. */
  function Perform(args: seq<Arg>, call: Call): seq<Arg>
    requires Legal(args, call)
  {
    match call
    case AddIdCall(id) => args + [Arg(id, false)]
    case AddLiteralCall(lit) => args + [Arg(lit, true)]
    case ReserveCall(_) => args
    case SetCall(index, value) => args[index := Arg(value, args[index].isLiteral)]
  }

  /** A call on one of two operations, or a copy of one to the other. */
  datatype Step = OnFirst(call: Call) | OnSecond(call: Call) | FirstFromSecond | SecondFromFirst

  datatype Lists = Lists(first: seq<Arg>, second: seq<Arg>)

  predicate LegalStep(lists: Lists, step: Step) {
    match step
    case OnFirst(call) => Legal(lists.first, call)
    case OnSecond(call) => Legal(lists.second, call)
    case _ => true
  }

  /** The step on two plain lists. */
  function Take(lists: Lists, step: Step): Lists
    requires LegalStep(lists, step)
  {
    match step
    case OnFirst(call) => lists.(first := Perform(lists.first, call))
    case OnSecond(call) => lists.(second := Perform(lists.second, call))
    case FirstFromSecond => lists.(first := lists.second)
    case SecondFromFirst => lists.(second := lists.first)
  }

  predicate AllLegal(lists: Lists, steps: seq<Step>)
    decreases |steps|
  {
    steps == [] || (LegalStep(lists, steps[0]) && AllLegal(Take(lists, steps[0]), steps[1..]))
  }

  function TakeAll(lists: Lists, steps: seq<Step>): Lists
    requires AllLegal(lists, steps)
    decreases |steps|
  {
    if steps == [] then lists else TakeAll(Take(lists, steps[0]), steps[1..])
  }

  method Apply(o: Operation, call: Call)
    requires o.Valid() && Legal(o.Args(), call)
    modifies o`arguments, o`argumentCapacity, o`argumentCount, o.arguments
    ensures o.Valid() && Legal(old(o.Args()), call) && o.Args() == Perform(old(o.Args()), call)
    ensures o.arguments == old(o.arguments) || fresh(o.arguments)
  {
    hide ArgsOf, LiteralWordCount;
    match call {
      case AddIdCall(id) => o.AddId(id);
      case AddLiteralCall(lit) => o.AddLiteral(lit);
      case ReserveCall(count) => o.ReserveArguments(count);
      case SetCall(index, value) => o.SetArgument(index, value);
    }
  }

  /** After any sequence of calls on two operations and copies between them, each is the list that the same
      steps give. */
  method Replay(a: Operation, b: Operation, steps: seq<Step>)
    requires a.Valid() && b.Valid() && a != b && a.arguments != b.arguments
             && AllLegal(Lists(a.Args(), b.Args()), steps)
    modifies a, b, a.arguments, b.arguments
    ensures a.Valid() && b.Valid() && Lists(a.Args(), b.Args()) == TakeAll(old(Lists(a.Args(), b.Args())), steps)
  {
    hide ArgsOf, LiteralWordCount;
    ghost var start := Lists(a.Args(), b.Args());
    var i := 0;
    assert steps[0..] == steps;
    while i < |steps|
      invariant i <= |steps| && a.Valid() && b.Valid() && a.arguments != b.arguments
      invariant a.arguments == old(a.arguments) || fresh(a.arguments)
      invariant b.arguments == old(b.arguments) || fresh(b.arguments)
      invariant AllLegal(Lists(a.Args(), b.Args()), steps[i..])
      invariant TakeAll(Lists(a.Args(), b.Args()), steps[i..]) == TakeAll(start, steps)
    {
      var rest := steps[i..];
      assert rest[0] == steps[i] && rest[1..] == steps[i + 1..];
      match steps[i] {
        case OnFirst(call) => Apply(a, call);
        case OnSecond(call) => Apply(b, call);
        case FirstFromSecond => a.CopyFrom(b);
        case SecondFromFirst => b.CopyFrom(a);
      }
      i := i + 1;
    }
  }
}
