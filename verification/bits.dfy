/** Single bits of 32-bit words, as packed masks use them. */
module Bits {
  function And(a: bv32, b: bv32): bv32 { a & b }

  function Or(a: bv32, b: bv32): bv32 { a | b }

  function Not(a: bv32): bv32 { !a }

  /** `1u << p`. */
  function Shift(p: bv5): bv32 { (1 as bv32) << p }

  /** `1u << (i & 31)`. */
  function Mask(i: nat): bv32
    requires i < 32
  {
    Shift(i as bv5)
  }

  lemma ShiftNonZero(p: bv5)
    ensures Shift(p) != 0
  {}

  lemma ShiftsDisjoint(p: bv5, q: bv5)
    requires p != q
    ensures And(Shift(p), Shift(q)) == 0
  {}

  lemma RoundTrip(i: nat)
    requires i < 32
    ensures (i as bv5) as nat == i
  {}

  lemma MaskFacts(i: nat, j: nat)
    requires i < 32 && j < 32
    ensures Mask(i) != 0
    ensures i != j ==> And(Mask(i), Mask(j)) == 0
  {
    hide And, Shift;
    ShiftNonZero(i as bv5);
    RoundTrip(i);
    RoundTrip(j);
    if i != j {
      ShiftsDisjoint(i as bv5, j as bv5);
    }
  }

  lemma OrSame(w: bv32, m: bv32)
    ensures And(Or(w, m), m) == m
  {}

  lemma OrOther(w: bv32, m: bv32, n: bv32)
    requires And(m, n) == 0
    ensures And(Or(w, m), n) == And(w, n)
  {}

  lemma NotSame(w: bv32, m: bv32)
    ensures And(And(w, Not(m)), m) == 0
  {}

  lemma NotOther(w: bv32, m: bv32, n: bv32)
    requires And(m, n) == 0
    ensures And(And(w, Not(m)), n) == And(w, n)
  {}

  lemma OrDistributes(a: bv32, b: bv32, m: bv32)
    ensures And(Or(a, b), m) == Or(And(a, m), And(b, m))
  {}

  lemma OrZero(a: bv32, b: bv32)
    ensures Or(a, b) == 0 <==> a == 0 && b == 0
  {}

  lemma ZeroAnd(m: bv32)
    ensures And(0, m) == 0
  {}

  /** `(w & (1u << i)) != 0` for `i` below 32. */
  predicate Bit(w: bv32, i: nat)
    requires i < 32
  {
    And(w, Mask(i)) != 0
  }

  /** `w | (1u << i)`. */
  function Set(w: bv32, i: nat): bv32
    requires i < 32
  {
    Or(w, Mask(i))
  }

  /** `w & ~(1u << i)`. */
  function Clear(w: bv32, i: nat): bv32
    requires i < 32
  {
    And(w, Not(Mask(i)))
  }

  lemma SetBit(w: bv32, i: nat, j: nat)
    requires i < 32 && j < 32
    ensures Bit(Set(w, i), j) <==> i == j || Bit(w, j)
  {
    hide And, Or, Mask;
    MaskFacts(i, j);
    if i == j {
      OrSame(w, Mask(i));
    } else {
      OrOther(w, Mask(i), Mask(j));
    }
  }

  lemma ClearBit(w: bv32, i: nat, j: nat)
    requires i < 32 && j < 32
    ensures Bit(Clear(w, i), j) <==> i != j && Bit(w, j)
  {
    hide And, Not, Mask;
    MaskFacts(i, j);
    if i == j {
      NotSame(w, Mask(i));
    } else {
      NotOther(w, Mask(i), Mask(j));
    }
  }

  lemma OrBit(a: bv32, b: bv32, i: nat)
    requires i < 32
    ensures Bit(Or(a, b), i) <==> Bit(a, i) || Bit(b, i)
  {
    hide And, Or, Mask;
    OrDistributes(a, b, Mask(i));
    OrZero(And(a, Mask(i)), And(b, Mask(i)));
  }

  lemma ZeroBit(i: nat)
    requires i < 32
    ensures !Bit(0, i)
  {
    hide And, Mask;
    ZeroAnd(Mask(i));
  }
}
