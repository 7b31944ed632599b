/**
 The clusters woken by `snrt_wake_clusters` (sw/runtime/src/sync.h:185-196): the
 loop steps through the submasks of the communicator's mask with
 `submask = (submask - 1) & mask`.  Words are natural numbers below 2^32.
 */
module Submask {
  import opened Words

  function And(x: nat, y: nat): (r: nat)
    ensures r <= x && r <= y
  {
    if x == 0 || y == 0 then 0 else (if x % 2 == 1 && y % 2 == 1 then 1 else 0) + 2 * And(x / 2, y / 2)
  }

  function Or(x: nat, y: nat): (r: nat)
    ensures r >= x && r >= y
  {
    if x == 0 then y
    else if y == 0 then x
    else (if x % 2 == 1 || y % 2 == 1 then 1 else 0) + 2 * Or(x / 2, y / 2)
  }

  /** `x & ~m` */
  function AndNot(x: nat, m: nat): (r: nat)
    ensures r <= x
  {
    if x == 0 then 0 else (if x % 2 == 1 && m % 2 == 0 then 1 else 0) + 2 * AndNot(x / 2, m / 2)
  }

  predicate IsSubmask(s: nat, m: nat) {
    And(s, m) == s
  }

  /** `(s - 1) & m` on 32-bit words. */
  function Step(s: nat, m: nat): nat {
    And((s + WORD - 1) % WORD, m)
  }

  lemma {:induction false} HalfSubmask(s: nat, m: nat)
    ensures IsSubmask(s, m) <==> s % 2 <= m % 2 && IsSubmask(s / 2, m / 2)
  {
    if s != 0 && m == 0 {
      assert s / 2 == 0 ==> s % 2 == 1;
    }
  }

  /** Below a submask, `(s - 1) & m` is the next smaller one. */
  lemma {:induction false} Predecessor(s: nat, m: nat, q: nat)
    requires 0 < s && IsSubmask(s, m)
    ensures IsSubmask(And(s - 1, m), m) && And(s - 1, m) < s
    ensures IsSubmask(q, m) && q < s ==> q <= And(s - 1, m)
    decreases s
  {
    HalfSubmask(s, m);
    HalfSubmask(q, m);
    var p := And(s - 1, m);
    if s % 2 == 1 {
      assert (s - 1) / 2 == s / 2 && (s - 1) % 2 == 0;
      assert p == s - 1 by {
        if s > 1 {
          assert And(s - 1, m) == 2 * And(s / 2, m / 2);
        }
      }
      assert p / 2 == s / 2 && p % 2 == 0;
    } else {
      assert (s - 1) / 2 == s / 2 - 1 && (s - 1) % 2 == 1;
      Predecessor(s / 2, m / 2, q / 2);
      assert p == m % 2 + 2 * And(s / 2 - 1, m / 2);
      assert p / 2 == And(s / 2 - 1, m / 2) && p % 2 == m % 2;
    }
    HalfSubmask(p, m);
  }

  lemma {:induction false} FullKeeps(m: nat, all: nat)
    requires m <= all && Full(all)
    ensures And(all, m) == m
    decreases m
  {
    if m > 0 {
      FullKeeps(m / 2, all / 2);
    }
  }

  /** All bits set: one less than a power of two. */
  predicate Full(m: nat) {
    m == 0 || (m % 2 == 1 && Full(m / 2))
  }

  predicate IsPowerOfTwo(n: nat) {
    n == 1 || (n > 1 && n % 2 == 0 && IsPowerOfTwo(n / 2))
  }

  lemma {:induction false} FullIsPower(m: nat)
    ensures Full(m) <==> IsPowerOfTwo(m + 1)
  {
    if m > 0 {
      FullIsPower(m / 2);
      if m % 2 == 1 {
        assert (m + 1) / 2 == m / 2 + 1;
      }
    }
  }

  /** Stepping below 0 wraps to the mask itself. */
  lemma {:induction false} FromZero(m: nat)
    requires m < WORD
    ensures Step(0, m) == m
  {
    FullWord();
    FullKeeps(m, WORD - 1);
  }

  function Pow2(k: nat): (p: nat)
    ensures p > 0
  {
    if k == 0 then 1 else 2 * Pow2(k - 1)
  }

  lemma {:induction false} PowFull(k: nat)
    ensures Full(Pow2(k) - 1)
  {
    if k > 0 {
      PowFull(k - 1);
      assert (Pow2(k) - 1) / 2 == Pow2(k - 1) - 1;
    }
  }

  lemma {:induction false} FullWord()
    ensures Full(WORD - 1)
  {
    assert Pow2(8) == 256;
    assert Pow2(16) == 65536;
    assert Pow2(24) == 16777216;
    assert Pow2(32) == WORD;
    PowFull(32);
  }

  lemma {:induction false} StepDown(s: nat, m: nat)
    requires 0 < s <= m < WORD
    ensures Step(s, m) == And(s - 1, m)
  {
  }

  ghost predicate Distinct(s: seq<nat>) {
    forall i, j | 0 <= i < j < |s| :: s[i] != s[j]
  }

  /** The clusters reached by submask 0 and by the submasks above `s`, each once. */
  ghost predicate Woken(woken: seq<nat>, self: nat, base: nat, mask: nat, s: nat) {
    && Distinct(woken)
    && forall i: nat :: i in woken <==>
         i != self && AndNot(i, mask) == AndNot(base, mask) && (And(i, mask) == 0 || And(i, mask) > s)
  }

  /** The clusters the loop wakes, in order, when cluster `self` runs it. */
  method WakeOrder(self: nat, base: nat, mask: nat) returns (woken: seq<nat>)
    requires mask < WORD
    ensures Distinct(woken)
    ensures forall i: nat :: i in woken <==> i != self && AndNot(i, mask) == AndNot(base, mask)
  {
    hide And, Or, AndNot, Step, Distinct, Woken;
    var fixed := AndNot(base, mask);
    WokenNothing(self, base, mask);
    MaskIsSubmask(mask);
    FromZero(mask);
    var i := Or(fixed, 0);
    woken := if i != self then [i] else [];
    var submask: nat := Step(0, mask);
    while submask != 0
      invariant submask <= mask && IsSubmask(submask, mask)
      invariant Woken(woken, self, base, mask, submask)
      decreases submask
    {
      i := Or(fixed, submask);
      WakesOne(woken, self, base, mask, submask);
      if i != self {
        woken := woken + [i];
      }
      StepDown(submask, mask);
      Predecessor(submask, mask, 0);
      submask := Step(submask, mask);
    }
    WokenAll(woken, self, base, mask);
  }

  lemma {:induction false} WokenNothing(self: nat, base: nat, mask: nat)
    ensures var i := Or(AndNot(base, mask), 0); Woken(if i != self then [i] else [], self, base, mask, mask)
  {
    hide And, Or, AndNot, IsSubmask;
    ZeroIsSubmask(mask);
    JoinWord(base, mask, 0);
    forall i: nat | AndNot(i, mask) == AndNot(base, mask) && And(i, mask) == 0 ensures i == Or(AndNot(base, mask), 0) {
      SplitWord(i, mask);
    }
  }

  lemma {:induction false} WakesOne(woken: seq<nat>, self: nat, base: nat, mask: nat, s: nat)
    requires s > 0 && IsSubmask(s, mask) && Woken(woken, self, base, mask, s)
    ensures var i := Or(AndNot(base, mask), s);
            Woken(if i != self then woken + [i] else woken, self, base, mask, And(s - 1, mask))
  {
    hide And, Or, AndNot, IsSubmask;
    var x, p := Or(AndNot(base, mask), s), And(s - 1, mask);
    JoinWord(base, mask, s);
    Predecessor(s, mask, 0);
    forall i: nat | AndNot(i, mask) == AndNot(base, mask) && And(i, mask) == s ensures i == x {
      SplitWord(i, mask);
    }
    forall i: nat ensures p < And(i, mask) <= s <==> And(i, mask) == s {
      SplitWord(i, mask);
      Predecessor(s, mask, And(i, mask));
    }
  }

  lemma {:induction false} WokenAll(woken: seq<nat>, self: nat, base: nat, mask: nat)
    requires Woken(woken, self, base, mask, 0)
    ensures Distinct(woken)
    ensures forall i: nat :: i in woken <==> i != self && AndNot(i, mask) == AndNot(base, mask)
  {
    hide And, AndNot;
  }

  // ----- binary digits

  lemma {:induction false} AndDigits(x: nat, y: nat)
    ensures And(x, y) % 2 == (if x % 2 == 1 && y % 2 == 1 then 1 else 0) && And(x, y) / 2 == And(x / 2, y / 2)
  {
  }

  lemma {:induction false} OrDigits(x: nat, y: nat)
    ensures Or(x, y) % 2 == (if x % 2 == 1 || y % 2 == 1 then 1 else 0) && Or(x, y) / 2 == Or(x / 2, y / 2)
  {
  }

  lemma {:induction false} AndNotDigits(x: nat, m: nat)
    ensures AndNot(x, m) % 2 == (if x % 2 == 1 && m % 2 == 0 then 1 else 0) && AndNot(x, m) / 2 == AndNot(x / 2, m / 2)
  {
    if x > 0 {
      var rest := AndNot(x / 2, m / 2);
      assert AndNot(x, m) == (if x % 2 == 1 && m % 2 == 0 then 1 else 0) + 2 * rest;
      hide AndNot;
    }
  }

  lemma {:induction false} ZeroIsSubmask(m: nat)
    ensures IsSubmask(0, m)
  {
  }

  lemma {:induction false} MaskIsSubmask(m: nat)
    ensures IsSubmask(m, m)
  {
    if m > 0 {
      MaskIsSubmask(m / 2);
    }
  }

  /** A word is its part outside the mask and its part inside. */
  lemma {:induction false} SplitWord(i: nat, m: nat)
    ensures IsSubmask(And(i, m), m) && Or(AndNot(i, m), And(i, m)) == i
  {
    if i == 0 {
      AndNotDigits(0, m);
    } else {
      hide And, Or, AndNot, IsSubmask;
      SplitWord(i / 2, m / 2);
      AndDigits(i, m);
      AndNotDigits(i, m);
      OrDigits(AndNot(i, m), And(i, m));
      HalfSubmask(And(i, m), m);
    }
  }

  lemma {:induction false} JoinWord(b: nat, m: nat, s: nat)
    requires IsSubmask(s, m)
    ensures var i := Or(AndNot(b, m), s); AndNot(i, m) == AndNot(b, m) && And(i, m) == s
    decreases b + s
  {
    if b > 0 || s > 0 {
      hide And, Or, AndNot, IsSubmask;
      HalfSubmask(s, m);
      JoinWord(b / 2, m / 2, s / 2);
      var i := Or(AndNot(b, m), s);
      AndNotDigits(b, m);
      OrDigits(AndNot(b, m), s);
      AndNotDigits(i, m);
      AndDigits(i, m);
    }
  }

  /**
   `snrt_comm_create` takes `size - 1` as the mask (sync.h:93-95).  The submasks of
   that mask are all clusters of the communicator exactly when its size is a
   power of two.
   */
  lemma {:induction false} AllSubmasks(size: nat)
    requires size > 0
    ensures var mask := size - 1; (forall i: nat | i <= mask :: IsSubmask(i, mask)) <==> IsPowerOfTwo(size)
  {
    var mask := size - 1;
    FullIsPower(size - 1);
    if Full(size - 1) {
      forall i: nat | i <= mask ensures IsSubmask(i, mask) {
        FullIsAll(i, mask);
      }
    } else {
      var i := NotFull(size - 1);
      assert i < size && !IsSubmask(i, size - 1);
    }
  }

  lemma {:induction false} FullIsAll(i: nat, m: nat)
    requires Full(m) && i <= m
    ensures And(i, m) == i
  {
    if i > 0 {
      FullIsAll(i / 2, m / 2);
    }
  }

  lemma {:induction false} NotFull(m: nat) returns (i: nat)
    requires !Full(m)
    ensures i <= m && !IsSubmask(i, m)
  {
    if m % 2 == 0 {
      i := 1;
    } else {
      i := NotFull(m / 2);
      HalfSubmask(2 * i, m);
      i := 2 * i;
    }
  }

  /** Three clusters: the mask is binary 10, and cluster 1 is never woken. */
  lemma {:induction false} ThreeClustersFail()
    ensures !IsSubmask(1, 3 - 1) && IsSubmask(0, 3 - 1) && IsSubmask(2, 3 - 1)
  {
    assert And(1, 0) == 0 && And(0, 1) == 0 && And(1, 1) == 1;
  }
}
