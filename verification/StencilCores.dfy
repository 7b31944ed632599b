/**
 The division of the interior among the cores (istc.issr.hpp:447-481), for every
 core grid: which core computes which cell in which time step.  `m` is the width
 of the interior, which the kernels assert to be even.
 */
module StencilCores {
  import opened Arithmetic
  import opened StencilDirect
  import opened StencilSweep

  ghost predicate CoresOk(m: nat, px: nat, py: nat) {
    m > 0 && m % 2 == 0 && px > 0 && py > 0
  }

  /** The rows of blocks a core has processed in its first `t` time steps, having started at row `ly`. */
  function Passed(m: nat, py: nat, ly: nat, t: nat): nat
    requires ly < 2 * py
  {
    if t == 0 then 0 else Passed(m, py, ly, t - 1) + RowsOf(m, 2 * py, Turn(ly, t - 1, py))
  }

  /** The initial offsets of a core (istc.common.hpp:59-66). */
  function FirstRow(px: nat, py: nat, cid: nat): (ly: nat)
    requires px > 0 && py > 0
    ensures ly < 2 * py && ly % 2 == 0
  {
    2 * CoreY(cid, px, py)
  }

  function FirstColumn(px: nat, cid: nat): (lx: nat)
    requires px > 0
    ensures lx < 2 * px && lx % 2 == 0
  {
    2 * CoreX(cid, px)
  }

  /** Its offsets before time step `t`. */
  function RowStart(px: nat, py: nat, t: nat, cid: nat): (ly: nat)
    requires px > 0 && py > 0
    ensures ly < 2 * py
  {
    Turn(FirstRow(px, py, cid), t, py)
  }

  function ColumnStart(m: nat, px: nat, py: nat, t: nat, cid: nat): (lx: nat)
    requires px > 0 && py > 0
    ensures lx < 2 * px
  {
    Turn(FirstColumn(px, cid), Passed(m, py, FirstRow(px, py, cid), t), px)
  }

  /** The cells a core computes in time step `t`. */
  function Part(m: nat, px: nat, py: nat, t: nat, cid: nat): (nat, nat) -> bool
    requires px > 0 && py > 0
  {
    Swept(m, px, py, ColumnStart(m, px, py, t, cid), RowStart(px, py, t, cid))
  }

  /** No block of any core sticks out of the interior in time step `t`. */
  ghost predicate StepOk(m: nat, px: nat, py: nat, t: nat)
    requires m > 0 && px > 0 && py > 0
  {
    forall cid: nat | cid < px * py :: SweepOk(m, px, py, ColumnStart(m, px, py, t, cid), RowStart(px, py, t, cid))
  }

  /** Every cell of the interior is computed by exactly one core in time step `t`. */
  ghost predicate EachOnce(m: nat, px: nat, py: nat, t: nat)
    requires px > 0 && py > 0
  {
    forall y: nat, x: nat | y < m && x < m :: Once(m, px, py, t, y, x)
  }

  ghost predicate Once(m: nat, px: nat, py: nat, t: nat, y: nat, x: nat)
    requires px > 0 && py > 0
  {
    exists cid: nat | cid < px * py :: OnlyPart(m, px, py, t, cid, y, x)
  }

  ghost predicate OnlyPart(m: nat, px: nat, py: nat, t: nat, cid: nat, y: nat, x: nat)
    requires px > 0 && py > 0
  {
    forall c: nat | c < px * py :: Part(m, px, py, t, c)(y, x) <==> c == cid
  }

  /**
   The condition on the core grid for `steps` time steps: an odd number of cores
   along x is fine as long as no core processes a second row of blocks, and one
   along y for a single time step.
   */
  predicate Balanced(m: nat, px: nat, py: nat, steps: nat) {
    && (py % 2 == 0 || steps <= 1)
    && (px % 2 == 0 || steps == 0 || (steps == 1 && m <= 2 * py) || (steps == 2 && m <= py))
  }

  // ----- parity of the offsets

  lemma {:induction false} TurnParity(l: nat, k: nat, p: nat)
    requires l < 2 * p
    ensures Turn(l, k, p) % 2 == if p % 2 == 0 || k % 2 == 0 then l % 2 else 1 - l % 2
  {
  }

  lemma {:induction false} TurnTwice(l: nat, j: nat, k: nat, p: nat)
    requires l < 2 * p
    ensures Turn(Turn(l, j, p), k, p) == Turn(l, j + k, p)
  {
  }

  lemma {:induction false} TurnBack(l: nat, v: nat, k: nat, p: nat)
    requires l < 2 * p && v < 2 * p
    ensures Turn(l, k, p) == v <==> l == Turn(v, k, p)
  {
  }

  /** How often a core has rotated its column offset when it comes to row `y` of time step `t`. */
  function Rotations(m: nat, py: nat, ly: nat, t: nat, y: nat): nat
    requires ly < 2 * py
  {
    Passed(m, py, ly, t) + Quot(y, 2 * py)
  }

  lemma {:induction false} ColumnOf(m: nat, px: nat, py: nat, t: nat, cid: nat, y: nat)
    requires px > 0 && py > 0
    ensures ColumnAt(px, py, ColumnStart(m, px, py, t, cid), y)
            == Turn(FirstColumn(px, cid), Rotations(m, py, FirstRow(px, py, cid), t, y), px)
  {
    hide Turn, Quot, Passed, FirstColumn, FirstRow;
    TurnTwice(FirstColumn(px, cid), Passed(m, py, FirstRow(px, py, cid), t), Quot(y, 2 * py), px);
  }

  /** In time step `t` all offsets in use are even. */
  ghost predicate EvenStep(m: nat, px: nat, py: nat, t: nat) {
    && (py % 2 == 0 || t % 2 == 0)
    && (px % 2 == 0
        || forall ly: nat, y: nat | ly < 2 * py && ly % 2 == 0 && Starts(Turn(ly, t, py), 2 * py, m, y) ::
             Rotations(m, py, ly, t, y) % 2 == 0)
  }

  /** The core at a position. */
  function CoreAtPlace(px: nat, ix: nat, iy: nat): nat {
    iy * px + ix
  }

  lemma {:induction false} CoreWith(px: nat, py: nat, lx: nat, ly: nat) returns (cid: nat)
    requires lx < 2 * px && ly < 2 * py && lx % 2 == 0 && ly % 2 == 0
    ensures cid < px * py && FirstColumn(px, cid) == lx && FirstRow(px, py, cid) == ly
  {
    hide CoreX, CoreY;
    CoresExist(px, py);
    cid := CoreAtPlace(px, lx / 2, ly / 2);
    CoreIds(0, px, py, lx / 2, ly / 2);
    CoreIds(cid, px, py, lx / 2, ly / 2);
  }

  lemma {:induction false} OddRem(k: nat, p: nat)
    requires p > 0
    ensures Rem(k, 2 * p) % 2 == k % 2
  {
    hide Quot, Rem;
    QuotRem(k, 2 * p);
    var q := Quot(k, 2 * p);
    assert q * (2 * p) == 2 * (q * p);
  }

  /** Even offsets keep every block inside. */
  lemma {:induction false} EvenStepOk(m: nat, px: nat, py: nat, t: nat)
    requires CoresOk(m, px, py) && EvenStep(m, px, py, t)
    ensures StepOk(m, px, py, t)
  {
    hide Rem, Turn, Rotations, FirstRow, FirstColumn, ColumnAt, ColumnStart, RowOk;
    forall cid: nat, y: nat | cid < px * py && Starts(RowStart(px, py, t, cid), 2 * py, m, y)
      ensures RowOk(m, 2 * px, ColumnAt(px, py, ColumnStart(m, px, py, t, cid), y), y)
    {
      var lx, ly := FirstColumn(px, cid), FirstRow(px, py, cid);
      ColumnOf(m, px, py, t, cid, y);
      TurnParity(ly, t, py);
      TurnParity(lx, Rotations(m, py, ly, t, y), px);
      EvenRowOk(m, px, py, Turn(lx, Rotations(m, py, ly, t, y), px), Turn(ly, t, py), y);
    }
  }

  lemma {:induction false} EvenRowOk(m: nat, px: nat, py: nat, l: nat, ly: nat, y: nat)
    requires CoresOk(m, px, py) && l < 2 * px && l % 2 == 0 && ly % 2 == 0 && Starts(ly, 2 * py, m, y)
    ensures RowOk(m, 2 * px, l, y) && y % 2 == 0
  {
    hide Rem;
    OddRem(y, py);
    OddRem(m - 1, px);
  }

  // ----- every cell once

  /** An even cell coordinate is covered by its own pair only. */
  lemma {:induction false} PairOf(l: nat, p: nat, m: nat, x: nat)
    requires p > 0 && l % 2 == 0 && m % 2 == 0
    ensures Starts(l, 2 * p, m, x) ==> x % 2 == 0
    ensures Covers(l, 2 * p, m, x) <==> Starts(l, 2 * p, m, Pair(x))
  {
    hide Rem;
    OddRem(x, p);
    if x > 0 {
      OddRem(x - 1, p);
    }
  }

  function Pair(x: nat): (p: nat)
    ensures p % 2 == 0
  {
    x - x % 2
  }

  /** The core that computes a cell in time step `t`. */
  function Owner(m: nat, px: nat, py: nat, t: nat, y: nat, x: nat): (nat, nat)
    requires px > 0 && py > 0
  {
    var ly := Turn(Rem(Pair(y), 2 * py), t, py);
    (Turn(Rem(Pair(x), 2 * px), Rotations(m, py, ly, t, Pair(y)), px), ly)
  }

  /** With even offsets a cell belongs to the core with the right position, and to no other. */
  lemma {:induction false} PartIs(m: nat, px: nat, py: nat, t: nat, cid: nat, y: nat, x: nat)
    requires CoresOk(m, px, py) && EvenStep(m, px, py, t) && y < m && x < m
    ensures Part(m, px, py, t, cid)(y, x)
            <==> (FirstColumn(px, cid), FirstRow(px, py, cid)) == Owner(m, px, py, t, y, x)
  {
    assert m > 0 && m % 2 == 0 && px > 0 && py > 0;
    hide *;
    var lx, ly := FirstColumn(px, cid), FirstRow(px, py, cid);
    var l0 := ColumnStart(m, px, py, t, cid);
    PartParts(m, px, py, t, cid, y, x);
    EvenRow(m, px, py, t, ly);
    if y > 0 {
      PairRows(m, px, py, l0, Turn(ly, t, py), y, x);
    }
    PairRows(m, px, py, l0, Turn(ly, t, py), y, x);
    ColumnOf(m, px, py, t, cid, Pair(y));
    StartsIs(Turn(ly, t, py), 2 * py, m, Pair(y));
    PairBelow(m, y);
    TurnBack(ly, Rem(Pair(y), 2 * py), t, py);
    OwnerIs(m, px, py, t, y, x);
    if Starts(Turn(ly, t, py), 2 * py, m, Pair(y)) {
      EvenColumn(m, px, py, t, lx, ly, Pair(y));
      PairOf(Turn(lx, Rotations(m, py, ly, t, Pair(y)), px), px, m, x);
      PairBelow(m, x);
      StartsIs(Turn(lx, Rotations(m, py, ly, t, Pair(y)), px), 2 * px, m, Pair(x));
      TurnBack(lx, Rem(Pair(x), 2 * px), Rotations(m, py, ly, t, Pair(y)), px);
    }
  }

  lemma {:induction false} StartsIs(l: nat, w: nat, m: nat, x: nat)
    requires w > 0
    ensures Starts(l, w, m, x) <==> Rem(x, w) == l && x < m
  {
  }

  lemma {:induction false} PairBelow(m: nat, x: nat)
    requires x < m
    ensures Pair(x) < m && Pair(x) <= x
  {
  }

  lemma {:induction false} OwnerIs(m: nat, px: nat, py: nat, t: nat, y: nat, x: nat)
    requires px > 0 && py > 0
    ensures var ly := Turn(Rem(Pair(y), 2 * py), t, py);
            Owner(m, px, py, t, y, x) == (Turn(Rem(Pair(x), 2 * px), Rotations(m, py, ly, t, Pair(y)), px), ly)
  {
    hide Turn, Rem, Rotations, Pair;
  }

  lemma {:induction false} PartParts(m: nat, px: nat, py: nat, t: nat, cid: nat, y: nat, x: nat)
    requires px > 0 && py > 0
    ensures FirstColumn(px, cid) % 2 == 0 && FirstRow(px, py, cid) % 2 == 0
    ensures var l0, ly := ColumnStart(m, px, py, t, cid), Turn(FirstRow(px, py, cid), t, py);
            Part(m, px, py, t, cid)(y, x)
            <==> RowCovers(m, px, py, l0, ly, m, y, x) || (y > 0 && RowCovers(m, px, py, l0, ly, m, y - 1, x))
  {
    hide Turn, ColumnStart, FirstRow, FirstColumn, RowCovers;
  }

  lemma {:induction false} EvenRow(m: nat, px: nat, py: nat, t: nat, ly: nat)
    requires EvenStep(m, px, py, t) && ly < 2 * py && ly % 2 == 0
    ensures Turn(ly, t, py) % 2 == 0
  {
    hide Turn, Rotations, Starts;
    TurnParity(ly, t, py);
  }

  lemma {:induction false} EvenColumn(m: nat, px: nat, py: nat, t: nat, lx: nat, ly: nat, y: nat)
    requires EvenStep(m, px, py, t) && ly < 2 * py && ly % 2 == 0 && lx < 2 * px && lx % 2 == 0
    requires Starts(Turn(ly, t, py), 2 * py, m, y)
    ensures Turn(lx, Rotations(m, py, ly, t, y), px) % 2 == 0
  {
    hide Turn, Rotations, Starts;
    TurnParity(lx, Rotations(m, py, ly, t, y), px);
  }

  /** The only row of blocks that can hold a cell starts at its pair. */
  lemma {:induction false} PairRows(m: nat, px: nat, py: nat, lx: nat, ly: nat, y: nat, x: nat)
    requires CoresOk(m, px, py) && lx < 2 * px && ly % 2 == 0
    ensures RowCovers(m, px, py, lx, ly, m, y, x) || (y > 0 && RowCovers(m, px, py, lx, ly, m, y - 1, x))
            <==> Starts(ly, 2 * py, m, Pair(y)) && Covers(ColumnAt(px, py, lx, Pair(y)), 2 * px, m, x)
  {
    hide Starts, Covers, ColumnAt;
    PairOf(ly, py, m, y);
    if y > 0 {
      PairOf(ly, py, m, y - 1);
    }
  }

  lemma {:induction false} OwnerEven(m: nat, px: nat, py: nat, t: nat, y: nat, x: nat)
    requires CoresOk(m, px, py) && EvenStep(m, px, py, t) && y < m && x < m
    ensures var (lx, ly) := Owner(m, px, py, t, y, x);
            lx < 2 * px && ly < 2 * py && lx % 2 == 0 && ly % 2 == 0
  {
    assert m > 0 && m % 2 == 0 && px > 0 && py > 0;
    hide *;
    OwnerIs(m, px, py, t, y, x);
    var ly := Turn(Rem(Pair(y), 2 * py), t, py);
    OddRem(Pair(y), py);
    OddRem(Pair(x), px);
    EvenRow(m, px, py, t, Rem(Pair(y), 2 * py));
    TurnBack(Rem(Pair(y), 2 * py), ly, t, py);
    PairBelow(m, y);
    StartsIs(Turn(ly, t, py), 2 * py, m, Pair(y));
    EvenColumn(m, px, py, t, Rem(Pair(x), 2 * px), ly, Pair(y));
  }

  lemma {:induction false} OwnerExists(m: nat, px: nat, py: nat, t: nat, y: nat, x: nat) returns (cid: nat)
    requires CoresOk(m, px, py) && EvenStep(m, px, py, t) && y < m && x < m
    ensures cid < px * py && OnlyPart(m, px, py, t, cid, y, x)
  {
    assert m > 0 && m % 2 == 0 && px > 0 && py > 0;
    hide *;
    OwnerEven(m, px, py, t, y, x);
    var (lx, ly) := Owner(m, px, py, t, y, x);
    cid := CoreWith(px, py, lx, ly);
    forall c: nat | c < px * py ensures Part(m, px, py, t, c)(y, x) <==> c == cid {
      PartIs(m, px, py, t, c, y, x);
      SamePlace(px, py, c, cid);
    }
    OnlyIs(m, px, py, t, cid, y, x);
  }

  lemma {:induction false} OnlyIs(m: nat, px: nat, py: nat, t: nat, cid: nat, y: nat, x: nat)
    requires px > 0 && py > 0 && forall c: nat | c < px * py :: Part(m, px, py, t, c)(y, x) <==> c == cid
    ensures OnlyPart(m, px, py, t, cid, y, x)
  {
    hide Part;
  }

  lemma {:induction false} SamePlace(px: nat, py: nat, c: nat, cid: nat)
    requires px > 0 && py > 0 && c < px * py && cid < px * py
    ensures (FirstColumn(px, c), FirstRow(px, py, c)) == (FirstColumn(px, cid), FirstRow(px, py, cid)) <==> c == cid
  {
    hide CoreX, CoreY;
    CoreIds(cid, px, py, 0, 0);
    CoreIds(c, px, py, CoreX(cid, px), CoreY(cid, px, py));
    CoreIds(cid, px, py, CoreX(cid, px), CoreY(cid, px, py));
  }

  /** In a step with even offsets every cell is computed once. */
  lemma {:induction false} EvenStepOnce(m: nat, px: nat, py: nat, t: nat)
    requires CoresOk(m, px, py) && EvenStep(m, px, py, t)
    ensures EachOnce(m, px, py, t)
  {
    hide Part, EvenStep, OnlyPart;
    forall y: nat, x: nat | y < m && x < m ensures Once(m, px, py, t, y, x)
    {
      var cid := OwnerExists(m, px, py, t, y, x);
    }
  }

  // ----- odd offsets

  /** A column offset of the given parity that turns to offset `v`. */
  lemma {:induction false} CoreTurningTo(p: nat, k: nat, v: nat) returns (l: nat)
    requires v < 2 * p && (if p % 2 == 0 || k % 2 == 0 then v % 2 == 0 else v % 2 == 1)
    ensures l < 2 * p && l % 2 == 0 && Turn(l, k, p) == v
  {
    l := Turn(v, k, p);
    TurnParity(v, k, p);
    TurnBack(l, v, k, p);
  }

  /** The parity that offset 0 or 1 of a row has. */
  function Low(p: nat, k: nat): (v: nat)
    requires p > 0
    ensures v < 2 && v < 2 * p && (if p % 2 == 0 || k % 2 == 0 then v % 2 == 0 else v % 2 == 1)
  {
    if p % 2 == 0 || k % 2 == 0 then 0 else 1
  }

  lemma {:induction false} NotOk(m: nat, px: nat, py: nat, t: nat, lx: nat, ly: nat, y: nat, cid: nat)
    requires CoresOk(m, px, py) && cid < px * py && FirstColumn(px, cid) == lx && FirstRow(px, py, cid) == ly
    requires Starts(Turn(ly, t, py), 2 * py, m, y)
    requires !RowOk(m, 2 * px, Turn(lx, Rotations(m, py, ly, t, y), px), y)
    ensures !StepOk(m, px, py, t)
  {
    hide RowOk, ColumnAt, ColumnStart, RowStart, Rem, FirstColumn, FirstRow, Turn, Rotations;
    RowStartIs(px, py, t, cid);
    ColumnOf(m, px, py, t, cid, y);
    BadRow(m, px, py, ColumnStart(m, px, py, t, cid), RowStart(px, py, t, cid), y);
  }

  lemma {:induction false} RowStartIs(px: nat, py: nat, t: nat, cid: nat)
    requires px > 0 && py > 0
    ensures RowStart(px, py, t, cid) == Turn(FirstRow(px, py, cid), t, py)
  {
    hide Turn, FirstRow;
  }

  /** Odd row offsets: the last row of blocks sticks out. */
  lemma {:induction false} OddRowsFail(m: nat, px: nat, py: nat, t: nat)
    requires CoresOk(m, px, py) && py % 2 == 1 && t % 2 == 1
    ensures !StepOk(m, px, py, t)
  {
    assert m > 0 && m % 2 == 0 && px > 0 && py > 0;
    hide *;
    var y: nat := m - 1;
    OddRem(y, py);
    var ly := CoreTurningTo(py, t, Rem(y, 2 * py));
    var k := Rotations(m, py, ly, t, y);
    var lx := CoreTurningTo(px, k, Low(px, k));
    var cid := CoreWith(px, py, lx, ly);
    StartsIs(Turn(ly, t, py), 2 * py, m, y);
    LastRowFails(m, 2 * px, Low(px, k));
    NotOk(m, px, py, t, lx, ly, y, cid);
  }

  lemma {:induction false} LastRowFails(m: nat, w: nat, l: nat)
    requires m >= 2 && l < 2 && l < w
    ensures !RowOk(m, w, l, m - 1)
  {
  }

  /** The core whose last block starts in the last column, once the columns have been rotated an odd number of times. */
  lemma {:induction false} LastColumn(px: nat, k: nat, m: nat) returns (lx: nat)
    requires px % 2 == 1 && k % 2 == 1 && m > 0 && m % 2 == 0
    ensures lx < 2 * px && lx % 2 == 0 && Turn(lx, k, px) == Rem(m - 1, 2 * px)
  {
    hide *;
    OddRem(m - 1, px);
    lx := CoreTurningTo(px, k, Rem(m - 1, 2 * px));
  }

  /** Odd column offsets: the last block of the row sticks out. */
  lemma {:induction false} OddColumnsFail(m: nat, px: nat, py: nat, t: nat, ly: nat, y: nat)
    requires CoresOk(m, px, py) && px % 2 == 1 && ly < 2 * py && ly % 2 == 0 && Starts(Turn(ly, t, py), 2 * py, m, y)
    requires Rotations(m, py, ly, t, y) % 2 == 1
    ensures !StepOk(m, px, py, t)
  {
    assert m > 0 && m % 2 == 0 && px > 0 && py > 0;
    hide *;
    var lx := LastColumn(px, Rotations(m, py, ly, t, y), m);
    var cid := CoreWith(px, py, lx, ly);
    LastColumnFails(m, 2 * px, Rem(m - 1, 2 * px), y);
    NotOk(m, px, py, t, lx, ly, y, cid);
  }

  lemma {:induction false} LastColumnFails(m: nat, w: nat, l: nat, y: nat)
    requires m > 0 && l < w && l == Rem(m - 1, w)
    ensures !RowOk(m, w, l, y)
  {
    hide Rem;
  }

  lemma {:induction false} NobodyFails(m: nat, px: nat, py: nat, t: nat, y: nat, x: nat)
    requires px > 0 && py > 0 && y < m && x < m && forall c: nat | c < px * py :: !Part(m, px, py, t, c)(y, x)
    ensures !EachOnce(m, px, py, t)
  {
    hide Part, OnlyPart;
    if EachOnce(m, px, py, t) {
      assert Once(m, px, py, t, y, x);
      var cid: nat :| cid < px * py && OnlyPart(m, px, py, t, cid, y, x);
      OnlyHolds(m, px, py, t, cid, y, x);
    }
  }

  lemma {:induction false} OnlyHolds(m: nat, px: nat, py: nat, t: nat, cid: nat, y: nat, x: nat)
    requires px > 0 && py > 0 && cid < px * py && OnlyPart(m, px, py, t, cid, y, x)
    ensures Part(m, px, py, t, cid)(y, x)
  {
    hide Part;
  }

  /** Odd row offsets: nobody computes the first row. */
  lemma {:induction false} FirstRowMissed(m: nat, px: nat, py: nat, t: nat, cid: nat, x: nat)
    requires CoresOk(m, px, py) && py % 2 == 1 && t % 2 == 1
    ensures !Part(m, px, py, t, cid)(0, x)
  {
    assert m > 0 && m % 2 == 0 && px > 0 && py > 0;
    hide *;
    PartParts(m, px, py, t, cid, 0, x);
    TurnParity(FirstRow(px, py, cid), t, py);
    Unique(0, 2 * py, 0, 0);
    StartsIs(Turn(FirstRow(px, py, cid), t, py), 2 * py, m, 0);
    NoRow(m, px, py, ColumnStart(m, px, py, t, cid), Turn(FirstRow(px, py, cid), t, py), 0, x);
  }

  lemma {:induction false} NoRow(m: nat, px: nat, py: nat, lx: nat, ly: nat, y: nat, x: nat)
    requires lx < 2 * px && py > 0 && !Starts(ly, 2 * py, m, y)
    ensures !RowCovers(m, px, py, lx, ly, m, y, x)
  {
    hide Starts, Covers, ColumnAt;
  }

  /** Odd column offsets: nobody computes the first cell of the row. */
  lemma {:induction false} FirstCellMissed(m: nat, px: nat, py: nat, t: nat, ly: nat, y: nat, cid: nat)
    requires CoresOk(m, px, py) && px % 2 == 1 && (py % 2 == 0 || t % 2 == 0)
    requires ly < 2 * py && ly % 2 == 0 && Starts(Turn(ly, t, py), 2 * py, m, y) && Rotations(m, py, ly, t, y) % 2 == 1
    ensures !Part(m, px, py, t, cid)(y, 0)
  {
    assert m > 0 && m % 2 == 0 && px > 0 && py > 0;
    hide *;
    var l0 := ColumnStart(m, px, py, t, cid);
    var mine := FirstRow(px, py, cid);
    PartParts(m, px, py, t, cid, y, 0);
    TurnParity(ly, t, py);
    TurnParity(mine, t, py);
    PairOf(Turn(ly, t, py), py, m, y);
    PairRows(m, px, py, l0, Turn(mine, t, py), y, 0);
    EvenPair(y);
    StartsIs(Turn(ly, t, py), 2 * py, m, y);
    StartsIs(Turn(mine, t, py), 2 * py, m, y);
    TurnBack(ly, Rem(y, 2 * py), t, py);
    TurnBack(mine, Rem(y, 2 * py), t, py);
    ColumnOf(m, px, py, t, cid, y);
    if mine == ly {
      TurnParity(FirstColumn(px, cid), Rotations(m, py, ly, t, y), px);
      FirstColumnBare(ColumnAt(px, py, l0, y), px, m);
    }
  }

  lemma {:induction false} EvenPair(y: nat)
    requires y % 2 == 0
    ensures Pair(y) == y
  {
  }

  lemma {:induction false} FirstColumnBare(l: nat, p: nat, m: nat)
    requires p > 0 && l % 2 == 1
    ensures !Covers(l, 2 * p, m, 0)
  {
    Unique(0, 2 * p, 0, 0);
    hide Rem;
  }

  /** With an odd offset in use a block sticks out, and a cell is computed by nobody. */
  lemma {:induction false} OddStepFails(m: nat, px: nat, py: nat, t: nat)
    requires CoresOk(m, px, py) && !EvenStep(m, px, py, t)
    ensures !StepOk(m, px, py, t) && !EachOnce(m, px, py, t)
  {
    hide Turn, Rotations, Starts, Part, StepOk, EachOnce;
    if py % 2 == 1 && t % 2 == 1 {
      OddRowsFail(m, px, py, t);
      forall c: nat | c < px * py ensures !Part(m, px, py, t, c)(0, 0) {
        FirstRowMissed(m, px, py, t, c, 0);
      }
      NobodyFails(m, px, py, t, 0, 0);
    } else {
      var ly: nat, y: nat :| ly < 2 * py && ly % 2 == 0 && Starts(Turn(ly, t, py), 2 * py, m, y)
                             && Rotations(m, py, ly, t, y) % 2 != 0;
      OddColumnsFail(m, px, py, t, ly, y);
      forall c: nat | c < px * py ensures !Part(m, px, py, t, c)(y, 0) {
        FirstCellMissed(m, px, py, t, ly, y, c);
      }
      StartsIs(Turn(ly, t, py), 2 * py, m, y);
      NobodyFails(m, px, py, t, y, 0);
    }
  }

  // ----- the condition on the core grid

  lemma {:induction false} FewRows(m: nat, py: nat, l: nat)
    requires l < 2 * py && m <= 2 * py
    ensures RowsOf(m, 2 * py, l) == if l < m then 1 else 0
  {
    hide Quot;
    var k := m + (2 * py - 1 - l);
    if l < m {
      Unique(k, 2 * py, 1, m - 1 - l);
    } else {
      Unique(k, 2 * py, 0, k);
    }
  }

  lemma {:induction false} PassedNext(m: nat, py: nat, ly: nat, t: nat)
    requires ly < 2 * py
    ensures Passed(m, py, ly, 0) == 0
    ensures Passed(m, py, ly, t + 1) == Passed(m, py, ly, t) + RowsOf(m, 2 * py, Turn(ly, t, py))
  {
    hide RowsOf, Turn;
  }

  lemma {:induction false} RotationsAre(m: nat, py: nat, ly: nat, t: nat, y: nat)
    requires ly < 2 * py
    ensures Rotations(m, py, ly, t, y) == Passed(m, py, ly, t) + Quot(y, 2 * py)
  {
    hide Quot, Passed;
  }

  lemma {:induction false} BalancedIsEven(m: nat, px: nat, py: nat, steps: nat, t: nat)
    requires CoresOk(m, px, py) && Balanced(m, px, py, steps) && t < steps
    ensures EvenStep(m, px, py, t)
  {
    if px % 2 != 0 {
      hide Turn, Rotations, Starts, Quot, Rem, Passed, RowsOf;
      forall ly: nat, y: nat | ly < 2 * py && ly % 2 == 0 && Starts(Turn(ly, t, py), 2 * py, m, y)
        ensures Rotations(m, py, ly, t, y) == 0
      {
        StartsIs(Turn(ly, t, py), 2 * py, m, y);
        Unique(y, 2 * py, 0, y);
        RotationsAre(m, py, ly, t, y);
        PassedNext(m, py, ly, 0);
        if t == 1 {
          TurnOnce(ly, py);
          FewRows(m, py, ly);
        }
      }
    }
  }

  lemma {:induction false} TurnOnce(l: nat, p: nat)
    requires l < 2 * p
    ensures Turn(l, 0, p) == Turn(l, 2, p) == l && Turn(l, 1, p) == if l < p then l + p else l - p
  {
  }

  lemma {:induction false} OddRotations(m: nat, px: nat, py: nat, t: nat, y: nat)
    requires CoresOk(m, px, py) && px % 2 == 1 && Starts(Turn(0, t, py), 2 * py, m, y)
    requires Rotations(m, py, 0, t, y) % 2 == 1
    ensures !EvenStep(m, px, py, t)
  {
    hide Turn, Rotations, Starts;
    var ly: nat := 0;
    assert ly < 2 * py && ly % 2 == 0 && Starts(Turn(ly, t, py), 2 * py, m, y) && Rotations(m, py, ly, t, y) % 2 != 0;
  }

  /** What the core in the corner does in the time step that shows an odd number of cores along x. */
  lemma {:induction false} UnbalancedColumns(m: nat, px: nat, py: nat, steps: nat) returns (t: nat)
    requires CoresOk(m, px, py) && px % 2 == 1 && steps > 0
    requires !(steps == 1 && m <= 2 * py) && !(steps == 2 && m <= py)
    ensures t < steps && !EvenStep(m, px, py, t)
  {
    assert m > 0 && m % 2 == 0 && px > 0 && py > 0;
    hide *;
    var w := 2 * py;
    PassedNext(m, py, 0, 0);
    PassedNext(m, py, 0, 1);
    TurnOnce(0, py);
    var y: nat := 0;
    if m > w {
      t, y := 0, w;
      Unique(y, w, 1, 0);
    } else {
      FewRows(m, py, 0);
      FewRows(m, py, py);
      if m > py {
        t, y := 1, py;
        Unique(y, w, 0, y);
      } else {
        t, y := 2, 0;
        Unique(y, w, 0, 0);
      }
    }
    RotationsAre(m, py, 0, t, y);
    StartsIs(Turn(0, t, py), w, m, y);
    OddRotations(m, px, py, t, y);
  }

  lemma {:induction false} UnbalancedFails(m: nat, px: nat, py: nat, steps: nat) returns (t: nat)
    requires CoresOk(m, px, py) && !Balanced(m, px, py, steps)
    ensures t < steps && !EvenStep(m, px, py, t)
  {
    hide EvenStep;
    if py % 2 == 1 && steps > 1 {
      t := 1;
      OddRowStep(m, px, py);
    } else {
      t := UnbalancedColumns(m, px, py, steps);
    }
  }

  lemma {:induction false} OddRowStep(m: nat, px: nat, py: nat)
    requires py % 2 == 1
    ensures !EvenStep(m, px, py, 1)
  {
  }

  /**
   Every cell of the interior is computed exactly once in every time step if and
   only if the core grid is balanced; and that is also when no block of any core
   sticks out of the interior.
   */
  lemma {:induction false} EachOnceExactly(m: nat, px: nat, py: nat, steps: nat)
    requires CoresOk(m, px, py)
    ensures (forall t: nat | t < steps :: EachOnce(m, px, py, t)) <==> Balanced(m, px, py, steps)
    ensures (forall t: nat | t < steps :: StepOk(m, px, py, t)) <==> Balanced(m, px, py, steps)
  {
    hide EachOnce, StepOk, EvenStep, Balanced;
    if Balanced(m, px, py, steps) {
      forall t: nat | t < steps ensures EachOnce(m, px, py, t) && StepOk(m, px, py, t) {
        BalancedIsEven(m, px, py, steps, t);
        EvenStepOnce(m, px, py, t);
        EvenStepOk(m, px, py, t);
      }
    } else {
      var t := UnbalancedFails(m, px, py, steps);
      OddStepFails(m, px, py, t);
    }
  }

  /** The two conditions agree step by step. */
  lemma {:induction false} StepOkOnce(m: nat, px: nat, py: nat, t: nat)
    requires CoresOk(m, px, py)
    ensures StepOk(m, px, py, t) <==> EachOnce(m, px, py, t)
  {
    hide EachOnce, StepOk, EvenStep;
    if EvenStep(m, px, py, t) {
      EvenStepOnce(m, px, py, t);
      EvenStepOk(m, px, py, t);
    } else {
      OddStepFails(m, px, py, t);
    }
  }

  lemma {:induction false} OddGridOffsets()
    ensures CoresOk(4, 1, 2) && !Balanced(4, 1, 2, 2)
    ensures Starts(Turn(0, 1, 2), 4, 4, 2) && Rotations(4, 2, 0, 1, 2) == 1
    ensures RowStart(1, 2, 1, 0) == 2 && ColumnStart(4, 1, 2, 1, 0) == 1
    ensures Part(4, 1, 2, 1, 0)(2, 4)
    ensures RowsOf(4, 2, 1) == 2 && CoefBlocks(4, 2, 1) == 1
  {
    CornerCore(1, 2);
    assert CoresOk(4, 1, 2) && !Balanced(4, 1, 2, 2);
    hide *;
    FewRows(4, 2, 0);
    TurnOnce(0, 1);
    TurnOnce(0, 2);
    TurnOnce(1, 1);
    PassedNext(4, 2, 0, 0);
    Unique(2, 4, 0, 2);
    RotationsAre(4, 2, 0, 1, 2);
    StartsIs(2, 4, 4, 2);
    RowStartIs(1, 2, 1, 0);
    ColumnStartIs(4, 1, 2, 1, 0);
    ColumnIs(1, 2, 1, 2);
    Unique(3, 2, 1, 1);
    StartsIs(1, 2, 4, 3);
    CoversNext(1, 2, 4, 4);
    RowCoversIs(4, 1, 2, 1, 2, 2, 4);
    PartParts(4, 1, 2, 1, 0, 2, 4);
    TwoBlocks();
  }

  lemma {:induction false} CornerCore(px: nat, py: nat)
    requires px > 0 && py > 0
    ensures FirstRow(px, py, 0) == 0 && FirstColumn(px, 0) == 0
  {
    hide Quot, Rem;
    Unique(0, px, 0, 0);
    Unique(0, py, 0, 0);
  }

  lemma {:induction false} ColumnStartIs(m: nat, px: nat, py: nat, t: nat, cid: nat)
    requires px > 0 && py > 0
    ensures ColumnStart(m, px, py, t, cid) == Turn(FirstColumn(px, cid), Passed(m, py, FirstRow(px, py, cid), t), px)
  {
    hide Turn, Passed, FirstColumn, FirstRow;
  }

  lemma {:induction false} CoversNext(l: nat, w: nat, m: nat, x: nat)
    requires w > 0 && x > 0 && Starts(l, w, m, x - 1)
    ensures Covers(l, w, m, x)
  {
    hide Starts;
  }

  lemma {:induction false} RowCoversIs(m: nat, px: nat, py: nat, lx: nat, ly: nat, y: nat, x: nat)
    requires lx < 2 * px && py > 0
    ensures RowCovers(m, px, py, lx, ly, m, y, x)
            <==> Starts(ly, 2 * py, m, y) && Covers(ColumnAt(px, py, lx, y), 2 * px, m, x)
  {
    hide Starts, Covers, ColumnAt;
  }

  lemma {:induction false} TwoBlocks()
    ensures RowsOf(4, 2, 1) == 2 && CoefBlocks(4, 2, 1) == 1
  {
    Unique(4, 2, 2, 0);
    Unique(3, 2, 1, 1);
    hide Quot;
  }

  /**
   A grid of one by two cores on an interior of 4 by 4 cells, in the second time
   step: the cell in row 2, column 0 is computed by nobody; the first core, which
   comes to that row, starts its blocks at columns 1 and 3, the second of which
   covers column 4, outside of the interior, and gets coefficients for one.
   */
  lemma {:induction false} OddGridFails()
    ensures !Balanced(4, 1, 2, 2) && !EachOnce(4, 1, 2, 1)
    ensures forall cid: nat | cid < 2 :: !Part(4, 1, 2, 1, cid)(2, 0)
    ensures RowStart(1, 2, 1, 0) == 2 && ColumnStart(4, 1, 2, 1, 0) == 1
    ensures Part(4, 1, 2, 1, 0)(2, 4)
    ensures RowsOf(4, 2, 1) == 2 && CoefBlocks(4, 2, 1) == 1
  {
    OddGridOffsets();
    hide *;
    forall cid: nat | cid < 2 ensures !Part(4, 1, 2, 1, cid)(2, 0) {
      FirstCellMissed(4, 1, 2, 1, 0, 2, cid);
    }
    NobodyFails(4, 1, 2, 1, 2, 0);
  }
}
