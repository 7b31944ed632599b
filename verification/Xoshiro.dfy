/**
 The xoshiro128+ generator (sw/kernels/misc/prng/xoshiro128p.h): its state
 transition is linear over exclusive-or and invertible, and the jump commutes
 with it.
 */
module Xoshiro {
  import opened Arithmetic

  datatype State = State(s0: bv32, s1: bv32, s2: bv32, s3: bv32)

  function X(a: bv32, b: bv32): bv32 {
    a ^ b
  }

  function L9(x: bv32): bv32 {
    x << 9
  }

  function L18(x: bv32): bv32 {
    x << 18
  }

  function RotL(x: bv32): bv32 {
    (x << 11) | (x >> 21)
  }

  function RotR(x: bv32): bv32 {
    (x >> 11) | (x << 21)
  }

  function Xor(a: State, b: State): State {
    State(X(a.s0, b.s0), X(a.s1, b.s1), X(a.s2, b.s2), X(a.s3, b.s3))
  }

  const ZERO := State(0, 0, 0, 0)

  /** The state `xoshiro128p_next` leaves (lines 29-45). */
  function Next(s: State): State {
    var t := L9(s.s1);
    var s2 := X(s.s2, s.s0);
    var s3 := X(s.s3, s.s1);
    State(X(s.s0, s3), X(s.s1, s2), X(s2, t), RotL(s3))
  }

  function Mix9(x: bv32): bv32 {
    X(x, L9(x))
  }

  function Mix18(x: bv32): bv32 {
    X(x, L18(x))
  }

  /** The state before a call; `Mix18(Mix9(x))` undoes `x ^ (x << 9)`. */
  function Previous(s: State): State {
    var s3 := RotR(s.s3);
    var s0 := X(s.s0, s3);
    var s1 := Mix18(Mix9(X(s.s1, s.s2)));
    var s2 := X(s.s2, L9(s1));
    State(s0, s1, X(s2, s0), X(s3, s1))
  }

  // ----- words

  lemma {:induction false} RotateBack(x: bv32)
    ensures RotR(RotL(x)) == x && RotL(RotR(x)) == x
  {
  }

  lemma {:induction false} RotateXor(x: bv32, y: bv32)
    ensures RotL(X(x, y)) == X(RotL(x), RotL(y))
  {
  }

  lemma {:induction false} ShiftXor(x: bv32, y: bv32)
    ensures L9(X(x, y)) == X(L9(x), L9(y))
    ensures L18(X(x, y)) == X(L18(x), L18(y))
  {
  }

  lemma {:induction false} Shifts(x: bv32)
    ensures L9(L9(x)) == L18(x) && L9(L18(x)) == L18(L9(x)) && L18(L18(x)) == 0
  {
  }

  lemma {:induction false} XorCancels(x: bv32, y: bv32)
    ensures X(X(x, y), y) == x && X(x, 0) == x
  {
  }

  lemma {:induction false} XorThree(x: bv32, y: bv32, z: bv32)
    ensures X(X(x, y), X(y, z)) == X(x, z)
  {
  }

  lemma {:induction false} XorAround(x: bv32, y: bv32, z: bv32, w: bv32)
    ensures X(x, z) == X(w, y) ==> X(x, X(y, z)) == w
  {
  }

  lemma {:induction false} XorSwap(a: bv32, b: bv32, c: bv32, d: bv32)
    ensures X(X(a, b), X(c, d)) == X(X(a, c), X(b, d))
  {
    hide X;
    XorAssoc(a, b, X(c, d));
    XorAssoc(b, c, d);
    XorCommutes(b, c);
    XorAssoc(c, b, d);
    XorAssoc(a, c, X(b, d));
  }

  lemma {:induction false} XorAssoc(a: bv32, b: bv32, c: bv32)
    ensures X(X(a, b), c) == X(a, X(b, c))
  {
  }

  lemma {:induction false} XorCommutes(a: bv32, b: bv32)
    ensures X(a, b) == X(b, a)
  {
  }

  lemma {:induction false} Mix9Twice(x: bv32)
    ensures Mix9(Mix9(x)) == Mix18(x)
  {
    hide X, L9, L18;
    ShiftXor(x, L9(x));
    Shifts(x);
    XorThree(x, L9(x), L9(L9(x)));
  }

  lemma {:induction false} Mix18Twice(x: bv32)
    ensures Mix18(Mix18(x)) == x
  {
    hide X, L9, L18;
    ShiftXor(x, L18(x));
    Shifts(x);
    XorThree(x, L18(x), L18(L18(x)));
    XorCancels(x, 0);
  }

  lemma {:induction false} MixesCommute(x: bv32)
    ensures Mix9(Mix18(x)) == Mix18(Mix9(x))
  {
    hide X, L9, L18;
    ShiftXor(x, L18(x));
    ShiftXor(x, L9(x));
    Shifts(x);
    XorSwap(x, L18(x), L9(x), L9(L18(x)));
  }

  lemma {:induction false} MixesUndo(x: bv32)
    ensures Mix18(Mix9(Mix9(x))) == x && Mix9(Mix18(Mix9(x))) == x
  {
    hide Mix9, Mix18;
    Mix9Twice(x);
    Mix18Twice(x);
    MixesCommute(Mix9(x));
  }

  // ----- the transition

  lemma {:induction false} UndoNext(s: State)
    ensures Previous(Next(s)) == s
  {
    hide X, L9, L18, RotL, RotR, Mix18;
    RotateBack(X(s.s3, s.s1));
    MixesUndo(s.s1);
    XorCancels(s.s0, X(s.s3, s.s1));
    XorThree(s.s1, X(s.s2, s.s0), L9(s.s1));
    XorCancels(X(s.s2, s.s0), L9(s.s1));
    XorCancels(s.s2, s.s0);
    XorCancels(s.s3, s.s1);
  }

  lemma {:induction false} RedoPrevious(s: State)
    ensures Next(Previous(s)) == s
  {
    hide X, L9, L18, RotL, RotR, Mix18;
    var p := Previous(s);
    var s3 := RotR(s.s3);
    RotateBack(s.s3);
    XorCancels(s3, p.s1);
    XorCancels(s.s0, s3);
    MixesUndo(X(s.s1, s.s2));
    XorCancels(X(s.s2, L9(p.s1)), p.s0);
    XorCancels(s.s2, L9(p.s1));
    XorAround(p.s1, s.s2, L9(p.s1), s.s1);
  }

  /** A transition can be undone. */
  lemma {:induction false} NextInvertible(s: State)
    ensures Previous(Next(s)) == s && Next(Previous(s)) == s
  {
    UndoNext(s);
    RedoPrevious(s);
  }

  /** The transition is linear over exclusive-or. */
  lemma {:induction false} NextLinear(a: State, b: State)
    ensures Next(Xor(a, b)) == Xor(Next(a), Next(b)) && Next(ZERO) == ZERO
  {
    NextZero();
    hide X, L9, L18, RotL;
    ShiftXor(a.s1, b.s1);
    XorSwap(a.s2, b.s2, a.s0, b.s0);
    XorSwap(a.s3, b.s3, a.s1, b.s1);
    RotateXor(X(a.s3, a.s1), X(b.s3, b.s1));
    XorSwap(a.s0, b.s0, X(a.s3, a.s1), X(b.s3, b.s1));
    XorSwap(a.s1, b.s1, X(a.s2, a.s0), X(b.s2, b.s0));
    XorSwap(X(a.s2, a.s0), X(b.s2, b.s0), L9(a.s1), L9(b.s1));
  }

  lemma {:induction false} NextZero()
    ensures Next(ZERO) == ZERO
  {
  }

  // ----- bits of words

  predicate BitSet(w: bv32, b: nat)
    requires b < 32
  {
    Meets(w, Mask(b))
  }

  predicate Meets(w: bv32, m: bv32) {
    w & m != 0
  }

  /** `UINT32_C(1) << b` */
  function Mask(b: nat): bv32
    requires b < 32
  {
    1 << b
  }

  lemma {:induction false} LowestBit(w: bv32)
    ensures BitSet(w, 0) <==> w & 1 == 1
  {
  }

  lemma {:induction false} NextBit(w: bv32, b: nat)
    requires b < 31
    ensures BitSet(w, b + 1) <==> BitSet(w >> 1, b)
  {
  }

  lemma {:induction false} MaskXor(x: bv32, y: bv32, m: bv32)
    ensures X(x, y) & m == X(x & m, y & m) && X(m, m) == 0 && X(0, m) == m && X(m, 0) == m && X(0, 0) == 0
  {
  }

  /** A mask of one bit: a word has all of it or nothing. */
  predicate Single(x: bv32, m: bv32) {
    m != 0 && (x & m == 0 || x & m == m)
  }

  lemma {:induction false} OneBit(x: bv32, b: nat)
    requires b < 32
    ensures Single(x, Mask(b))
  {
  }

  lemma {:induction false} MaskedXor(x: bv32, y: bv32, m: bv32)
    requires Single(x, m) && Single(y, m)
    ensures Meets(X(x, y), m) <==> Meets(x, m) != Meets(y, m)
  {
    hide X;
    MaskXor(x, y, m);
  }

  lemma {:induction false} XorBit(x: bv32, y: bv32, b: nat)
    requires b < 32
    ensures BitSet(X(x, y), b) <==> BitSet(x, b) != BitSet(y, b)
  {
    hide X, Mask, Meets, Single;
    OneBit(x, b);
    OneBit(y, b);
    MaskedXor(x, y, Mask(b));
  }

  lemma {:induction false} RotatedUp(x: bv32, b: nat)
    requires b < 21
    ensures BitSet(RotL(x), b + 11) <==> BitSet(x, b)
  {
  }

  lemma {:induction false} RotatedAround(x: bv32, b: nat)
    requires 21 <= b < 32
    ensures BitSet(RotL(x), b - 21) <==> BitSet(x, b)
  {
  }

  lemma {:induction false} RotateBit(x: bv32, b: nat)
    requires b < 32
    ensures BitSet(RotL(x), (b + 11) % 32) <==> BitSet(x, b)
  {
    hide RotL, BitSet;
    if b < 21 {
      RotatedUp(x, b);
    } else {
      RotatedAround(x, b);
    }
  }

  lemma {:induction false} ShiftedIn(x: bv32, b: nat)
    requires b < 9
    ensures !BitSet(L9(x), b)
  {
  }

  lemma {:induction false} MaskUp(b: nat)
    requires 9 <= b < 32
    ensures Mask(b) == Mask(b - 9) << 9 && (Mask(b - 9) << 9) >> 9 == Mask(b - 9)
  {
  }

  lemma {:induction false} MeetsUp(x: bv32, m: bv32)
    requires (m << 9) >> 9 == m
    ensures Meets(L9(x), m << 9) <==> Meets(x, m)
  {
  }

  lemma {:induction false} ShiftBit(x: bv32, b: nat)
    requires 9 <= b < 32
    ensures BitSet(L9(x), b) <==> BitSet(x, b - 9)
  {
    MaskUp(b);
    hide Mask, Meets, L9;
    MeetsUp(x, Mask(b - 9));
  }

  /** An odd number of three. */
  predicate Odd3(a: bool, b: bool, c: bool) {
    (a != b) != c
  }

  /** Where every bit of the next state comes from; the last word is rotated by 11 bits. */
  lemma {:induction false} NextBits(s: State, b: nat)
    requires b < 32
    ensures var t := Next(s);
            && (BitSet(t.s0, b) <==> Odd3(BitSet(s.s0, b), BitSet(s.s1, b), BitSet(s.s3, b)))
            && (BitSet(t.s1, b) <==> Odd3(BitSet(s.s0, b), BitSet(s.s1, b), BitSet(s.s2, b)))
            && (BitSet(t.s2, b) <==> Odd3(BitSet(s.s0, b), BitSet(s.s2, b), b >= 9 && BitSet(s.s1, b - 9)))
            && (BitSet(t.s3, (b + 11) % 32) <==> BitSet(s.s1, b) != BitSet(s.s3, b))
  {
    hide BitSet, X, L9, RotL;
    var s2, s3 := X(s.s2, s.s0), X(s.s3, s.s1);
    XorBit(s.s2, s.s0, b);
    XorBit(s.s3, s.s1, b);
    XorBit(s.s0, s3, b);
    XorBit(s.s1, s2, b);
    if b < 9 {
      ShiftedIn(s.s1, b);
    } else {
      ShiftBit(s.s1, b);
    }
    XorBit(s2, L9(s.s1), b);
    RotateBit(s3, b);
  }

  // ----- bits of numbers

  function Pow2(k: nat): (p: nat)
    ensures p > 0
  {
    if k == 0 then 1 else 2 * Pow2(k - 1)
  }

  /** Bit `k` of a number. */
  predicate NumberBit(x: nat, k: nat) {
    Rem(Quot(x, Pow2(k)), 2) == 1
  }

  lemma {:induction false} HalfQuot(x: nat, p: nat)
    requires p > 0
    ensures Quot(x, 2 * p) == Quot(Quot(x, 2), p)
  {
    hide Quot, Rem;
    QuotRem(x, 2);
    var h := Quot(x, 2);
    QuotRem(h, p);
    var q := Quot(h, p);
    assert q * (2 * p) == 2 * (q * p);
    Unique(x, 2 * p, q, 2 * Rem(h, p) + Rem(x, 2));
  }

  lemma {:induction false} HalfBit(x: nat, k: nat)
    ensures NumberBit(x, 0) <==> Rem(x, 2) == 1
    ensures NumberBit(x, k + 1) <==> NumberBit(Quot(x, 2), k)
  {
    hide Quot, Rem;
    Unique(x, 1, x, 0);
    HalfQuot(x, Pow2(k));
  }

  /** Bits of a number made of a low part of `n` bits and a high part. */
  lemma {:induction false} PartBit(low: nat, high: nat, n: nat, k: nat)
    requires low < Pow2(n)
    ensures NumberBit(low + Pow2(n) * high, k) <==> if k < n then NumberBit(low, k) else NumberBit(high, k - n)
    decreases n
  {
    hide Quot, Rem, NumberBit;
    if n > 0 {
      QuotRem(low, 2);
      var p := Pow2(n - 1);
      assert Pow2(n) * high == 2 * (p * high);
      var h: nat := p * high;
      Unique(low + 2 * h, 2, Quot(low, 2) + h, Rem(low, 2));
      HalfBit(low + 2 * h, if k == 0 then 0 else k - 1);
      HalfBit(low, if k == 0 then 0 else k - 1);
      if k > 0 {
        PartBit(Quot(low, 2), high, n - 1, k - 1);
      }
    }
  }

  /** The number that the lowest `n` bits of a word make. */
  function Value(w: bv32, n: nat): nat {
    if n == 0 then 0 else 2 * Value(w >> 1, n - 1) + if w & 1 == 1 then 1 else 0
  }

  lemma {:induction false} ValueBit(w: bv32, n: nat, b: nat)
    requires b < n <= 32
    ensures NumberBit(Value(w, n), b) <==> BitSet(w, b)
    decreases b
  {
    hide Quot, Rem, NumberBit, BitSet;
    var rest := Value(w >> 1, n - 1);
    LowestBit(w);
    Unique(Value(w, n), 2, rest, if w & 1 == 1 then 1 else 0);
    HalfBit(Value(w, n), if b == 0 then 0 else b - 1);
    if b > 0 {
      NextBit(w, b - 1);
      ValueBit(w >> 1, n - 1, b - 1);
    }
  }

  function Low(w: bv32): nat {
    if w & 1 == 1 then 1 else 0
  }

  /** The lowest bits of a word, two, four, eight, sixteen and all of them. */
  function Low2(w: bv32): nat {
    Low(w) + 0x2 * Low(w >> 1)
  }

  function Low4(w: bv32): nat {
    Low2(w) + 0x4 * Low2(w >> 2)
  }

  function Low8(w: bv32): nat {
    Low4(w) + 0x10 * Low4(w >> 4)
  }

  function Low16(w: bv32): nat {
    Low8(w) + 0x100 * Low8(w >> 8)
  }

  function Low32(w: bv32): nat {
    Low16(w) + 0x10000 * Low16(w >> 16)
  }

  lemma {:induction false} ValueStep(w: bv32, n: nat)
    ensures Value(w, n + 1) == 2 * Value(w >> 1, n) + Low(w)
  {
  }

  lemma {:induction false} ShiftAgain(w: bv32)
    ensures (w >> 1) >> 1 == w >> 2 && (w >> 2) >> 2 == w >> 4 && (w >> 4) >> 4 == w >> 8 && (w >> 8) >> 8 == w >> 16
  {
  }

  lemma {:induction false} Value2(w: bv32, n: nat)
    ensures Value(w, n + 2) == 0x4 * Value(w >> 2, n) + Low2(w)
  {
    ShiftAgain(w);
    hide Value, Low;
    ValueStep(w, n + 1);
    ValueStep(w >> 1, n);
  }

  lemma {:induction false} Value4(w: bv32, n: nat)
    ensures Value(w, n + 4) == 0x10 * Value(w >> 4, n) + Low4(w)
  {
    ShiftAgain(w);
    hide Value, Low2;
    Value2(w, n + 2);
    Value2(w >> 2, n);
  }

  lemma {:induction false} Value8(w: bv32, n: nat)
    ensures Value(w, n + 8) == 0x100 * Value(w >> 8, n) + Low8(w)
  {
    ShiftAgain(w);
    hide Value, Low4;
    Value4(w, n + 4);
    Value4(w >> 4, n);
  }

  lemma {:induction false} Value16(w: bv32, n: nat)
    ensures Value(w, n + 16) == 0x10000 * Value(w >> 16, n) + Low16(w)
  {
    ShiftAgain(w);
    hide Value, Low8;
    Value8(w, n + 8);
    Value8(w >> 8, n);
  }

  /** The number a word is. */
  lemma {:induction false} ValueIs(w: bv32)
    ensures Value(w, 32) == Low32(w)
  {
    hide Low16;
    Value16(w, 16);
    Value16(w >> 16, 0);
  }

  // ----- the jump

  /** The words of `xoshiro128p_jump` (line 58). */
  const JUMP: seq<bv32> := [0x8764000b, 0xf542d2d3, 0x6fa035c3, 0x77f2db5b]

  /** The 128-bit jump constant. */
  const JUMP_NUMBER: nat := 0x77f2db5b_6fa035c3_f542d2d3_8764000b

  /** Bit `k` of the jump constant. */
  predicate JumpBit(k: nat) {
    NumberBit(JUMP_NUMBER, k)
  }

  function NextN(s: State, k: nat): State {
    if k == 0 then s else Next(NextN(s, k - 1))
  }

  /** The exclusive-or of the states after `i < k` steps for which bit `i` of the jump constant is set. */
  function JumpSum(s: State, k: nat): State {
    if k == 0 then ZERO else if JumpBit(k - 1) then Xor(JumpSum(s, k - 1), NextN(s, k - 1)) else JumpSum(s, k - 1)
  }

  function Jump(s: State): State {
    JumpSum(s, 128)
  }

  lemma {:induction false} NextFirst(s: State, k: nat)
    ensures NextN(Next(s), k) == Next(NextN(s, k))
  {
    hide Next;
    if k > 0 {
      NextFirst(s, k - 1);
    }
  }

  lemma {:induction false} SumCommutes(s: State, k: nat)
    requires k <= 128
    ensures JumpSum(Next(s), k) == Next(JumpSum(s, k))
  {
    hide Next, Xor, JumpBit;
    if k == 0 {
      NextLinear(ZERO, ZERO);
    } else {
      SumCommutes(s, k - 1);
      NextFirst(s, k - 1);
      NextLinear(JumpSum(s, k - 1), NextN(s, k - 1));
    }
  }

  /** A jump commutes with any number of steps. */
  lemma {:induction false} JumpCommutes(s: State, k: nat)
    ensures Jump(NextN(s, k)) == NextN(Jump(s), k)
  {
    hide Next, JumpSum;
    if k > 0 {
      JumpCommutes(s, k - 1);
      SumCommutes(NextN(s, k - 1), 128);
    }
  }

  lemma {:induction false} XorStates(a: State, b: State, c: State, d: State)
    ensures Xor(Xor(a, b), Xor(c, d)) == Xor(Xor(a, c), Xor(b, d))
    ensures Xor(ZERO, ZERO) == ZERO
  {
    XorCancels(0, 0);
    hide X;
    XorSwap(a.s0, b.s0, c.s0, d.s0);
    XorSwap(a.s1, b.s1, c.s1, d.s1);
    XorSwap(a.s2, b.s2, c.s2, d.s2);
    XorSwap(a.s3, b.s3, c.s3, d.s3);
  }

  lemma {:induction false} NextNLinear(a: State, b: State, k: nat)
    ensures NextN(Xor(a, b), k) == Xor(NextN(a, k), NextN(b, k))
  {
    hide Next, Xor;
    if k > 0 {
      NextNLinear(a, b, k - 1);
      NextLinear(NextN(a, k - 1), NextN(b, k - 1));
    }
  }

  /** The jump itself is linear. */
  lemma {:induction false} JumpLinear(a: State, b: State, k: nat)
    requires k <= 128
    ensures JumpSum(Xor(a, b), k) == Xor(JumpSum(a, k), JumpSum(b, k))
  {
    hide Next, Xor, JumpBit;
    if k == 0 {
      XorStates(ZERO, ZERO, ZERO, ZERO);
    } else {
      JumpLinear(a, b, k - 1);
      NextNLinear(a, b, k - 1);
      XorStates(JumpSum(a, k - 1), JumpSum(b, k - 1), NextN(a, k - 1), NextN(b, k - 1));
    }
  }

  class Xoshiro128p {
    var s0: bv32
    var s1: bv32
    var s2: bv32
    var s3: bv32

    ghost function View(): State
      reads this
    {
      State(s0, s1, s2, s3)
    }

    /** xoshiro128p_copy into a new generator (lines 25-27) */
    constructor (source: State)
      ensures View() == source
    {
      s0, s1, s2, s3 := source.s0, source.s1, source.s2, source.s3;
    }

    /** xoshiro128p_next */
    method NextValue() returns (result: bv32)
      modifies this
      ensures View() == Next(old(View())) && result == old(s0) + old(s3)
    {
      hide X, L9, RotL;
      result := s0 + s3;
      var t := L9(s1);
      s2 := X(s2, s0);
      s3 := X(s3, s1);
      s1 := X(s1, s2);
      s0 := X(s0, s3);
      s2 := X(s2, t);
      s3 := RotL(s3);
    }

    /** xoshiro128p_jump (lines 50-74) */
    method JumpAhead()
      modifies this
      ensures View() == Jump(old(View()))
    {
      hide Next, JumpBit, BitSet, Xor;
      var sum := ZERO;
      ghost var start := View();
      for i := 0 to |JUMP|
        invariant sum == JumpSum(start, 32 * i) && View() == NextN(start, 32 * i)
      {
        for b := 0 to 32
          invariant sum == JumpSum(start, 32 * i + b) && View() == NextN(start, 32 * i + b)
        {
          BitOf(i, b);
          if BitSet(JUMP[i], b) {
            sum := Xor(sum, State(s0, s1, s2, s3));
          }
          var r := NextValue();
        }
      }
      s0, s1, s2, s3 := sum.s0, sum.s1, sum.s2, sum.s3;
    }
  }

  /** What the words of the code are worth. */
  lemma {:induction false} JumpWord(i: nat)
    requires i < 4
    ensures Value(JUMP[i], 32) == [0x8764000b, 0xf542d2d3, 0x6fa035c3, 0x77f2db5b][i]
  {
    ValueIs(JUMP[i]);
    hide Value;
    if i == 0 {
      assert JUMP[i] == 0x8764000b;
    } else if i == 1 {
      assert JUMP[i] == 0xf542d2d3;
    } else if i == 2 {
      assert JUMP[i] == 0x6fa035c3;
    } else {
      assert JUMP[i] == 0x77f2db5b;
    }
  }

  lemma {:induction false} WordSize()
    ensures Pow2(32) == 0x1_0000_0000
  {
    assert Pow2(8) == 256;
    assert Pow2(16) == 0x1_0000;
    assert Pow2(24) == 0x100_0000;
  }

  /** The bit tested by the code in word `i` is bit `32 * i + b` of the constant. */
  lemma {:induction false} BitOf(i: nat, b: nat)
    requires i < 4 && b < 32
    ensures JumpBit(32 * i + b) <==> BitSet(JUMP[i], b)
  {
    JumpWord(i);
    WordSize();
    ValueBit(JUMP[i], 32, b);
    hide Value, NumberBit, BitSet, Pow2;
    var k := 32 * i + b;
    PartBit(0x8764000b, 0x77f2db5b_6fa035c3_f542d2d3, 32, k);
    if i > 0 {
      PartBit(0xf542d2d3, 0x77f2db5b_6fa035c3, 32, k - 32);
    }
    if i > 1 {
      PartBit(0x6fa035c3, 0x77f2db5b, 32, k - 64);
    }
  }

  /** Stream `i` of `xoshiro128p_init_n`: `i` jumps from the first. */
  function Stream(first: State, i: nat): State {
    if i == 0 then first else Jump(Stream(first, i - 1))
  }

  /** xoshiro128p_init_n (lines 76-85), `first` being the state seeded by xoshiro128p_init. */
  method InitN(first: State, n: nat) returns (generators: seq<Xoshiro128p>)
    requires n > 0
    ensures |generators| == n && forall i | 0 <= i < n ::
              fresh(generators[i]) && generators[i].View() == Stream(first, i)
    ensures forall i, j | 0 <= i < j < n :: generators[i] != generators[j]
  {
    hide Jump;
    var g := new Xoshiro128p(first);
    generators := [g];
    for i := 1 to n
      invariant |generators| == i
      invariant forall k | 0 <= k < i :: fresh(generators[k]) && generators[k].View() == Stream(first, k)
      invariant forall k, l | 0 <= k < l < i :: generators[k] != generators[l]
    {
      var source := generators[i - 1];
      g := new Xoshiro128p(State(source.s0, source.s1, source.s2, source.s3));
      g.JumpAhead();
      generators := generators + [g];
    }
  }

  /** Corresponding states of neighbouring streams stay one jump apart, however far they are advanced. */
  lemma {:induction false} StreamsStayApart(first: State, i: nat, k: nat)
    ensures NextN(Stream(first, i + 1), k) == Jump(NextN(Stream(first, i), k))
  {
    hide Next, JumpSum, Jump;
    JumpCommutes(Stream(first, i), k);
  }
}
