/**
 Whole runs of the indirect-stream kernels, and their agreement with the direct
 kernels: for every radius, even grid size, grid of cores, number of time steps
 and order of the cores within a step, no block sticks out of the interior
 exactly when the core grid is balanced, and both then leave the same real-valued
 grids.
 */
module StencilKernels {
  import opened Stencil
  import opened StencilDirect
  import opened StencilIssr
  import opened StencilSweep
  import opened StencilCores
  import opened Words

  /** Where a core stands before time step `t`. */
  ghost predicate CoreAt(m: nat, px: nat, py: nat, t: nat, cid: nat, lx: nat, ly: nat)
    requires px > 0 && py > 0
  {
    lx == ColumnStart(m, px, py, t, cid) && ly == RowStart(px, py, t, cid)
  }

  ghost predicate CoresAt(m: nat, px: nat, py: nat, t: nat, lxs: seq<nat>, lys: seq<nat>)
    requires px > 0 && py > 0
  {
    && |lxs| == |lys| == px * py
    && forall cid: nat | cid < px * py :: CoreAt(m, px, py, t, cid, lxs[cid], lys[cid])
  }

  /** KNL_IDS_LOC (istc.common.hpp:59-66). */
  method InitialOffsets(px: nat, py: nat, ghost m: nat) returns (lxs: seq<nat>, lys: seq<nat>)
    requires px > 0 && py > 0
    ensures CoresAt(m, px, py, 0, lxs, lys)
  {
    hide CoreX, CoreY;
    lxs, lys := [], [];
    for cid := 0 to px * py
      invariant |lxs| == |lys| == cid
      invariant forall c: nat | c < cid :: CoreAt(m, px, py, 0, c, lxs[c], lys[c])
    {
      lxs, lys := lxs + [2 * CoreX(cid, px)], lys + [2 * CoreY(cid, px, py)];
    }
  }

  /** A sweep takes its core to the next time step. */
  lemma {:induction false} CoreMovesOn(m: nat, px: nat, py: nat, t: nat, cid: nat, lx: nat, ly: nat)
    requires px > 0 && py > 0 && ly == Rotated(RowStart(px, py, t, cid), py)
    requires lx == Turn(ColumnStart(m, px, py, t, cid), RowsOf(m, 2 * py, RowStart(px, py, t, cid)), px)
    ensures CoreAt(m, px, py, t + 1, cid, lx, ly)
  {
    hide Turn, Passed, FirstColumn, FirstRow, RowsOf, Rotated;
    TurnOn(FirstRow(px, py, cid), t, py);
    PassedNext(m, py, FirstRow(px, py, cid), t);
    TurnTwice(FirstColumn(px, cid), Passed(m, py, FirstRow(px, py, cid), t),
              RowsOf(m, 2 * py, RowStart(px, py, t, cid)), px);
  }

  /** Before the cores of `order[i..]` have done time step `t`. */
  ghost predicate Midway(m: nat, px: nat, py: nat, t: nat, order: seq<nat>, i: nat, lxs: seq<nat>, lys: seq<nat>)
    requires px > 0 && py > 0 && i <= |order|
  {
    && |lxs| == |lys| == px * py
    && forall cid: nat | cid < px * py ::
         CoreAt(m, px, py, if cid in order[..i] then t + 1 else t, cid, lxs[cid], lys[cid])
  }

  lemma {:induction false} MidwayEnds(m: nat, px: nat, py: nat, t: nat, order: seq<nat>, lxs: seq<nat>, lys: seq<nat>)
    requires px > 0 && py > 0 && Order(order, px * py)
    ensures CoresAt(m, px, py, t, lxs, lys) <==> Midway(m, px, py, t, order, 0, lxs, lys)
    ensures Midway(m, px, py, t, order, |order|, lxs, lys) <==> CoresAt(m, px, py, t + 1, lxs, lys)
  {
    hide CoreAt;
    assert order[..0] == [] && order[..|order|] == order;
  }

  lemma {:induction false} MidwayNext(m: nat, px: nat, py: nat, t: nat, order: seq<nat>, i: nat, lxs: seq<nat>,
                                      lys: seq<nat>, lx: nat, ly: nat)
    requires px > 0 && py > 0 && Order(order, px * py) && i < |order| && Midway(m, px, py, t, order, i, lxs, lys)
    requires order[i] < px * py && CoreAt(m, px, py, t + 1, order[i], lx, ly)
    ensures order[i] < |lxs| == |lys|
    ensures Midway(m, px, py, t, order, i + 1, lxs[order[i] := lx], lys[order[i] := ly])
  {
    hide CoreAt;
    assert order[..i + 1] == order[..i] + [order[i]];
    assert order[i] !in order[..i];
  }

  lemma {:induction false} TurnOfCore(m: nat, px: nat, py: nat, t: nat, order: seq<nat>, i: nat, lxs: seq<nat>,
                                      lys: seq<nat>)
    requires px > 0 && py > 0 && Order(order, px * py) && i < |order| && Midway(m, px, py, t, order, i, lxs, lys)
    ensures order[i] < px * py == |lxs| == |lys|
    ensures lxs[order[i]] == ColumnStart(m, px, py, t, order[i]) && lys[order[i]] == RowStart(px, py, t, order[i])
  {
    hide CoreAt, ColumnStart, RowStart;
    assert order[i] in order && order[i] !in order[..i];
    var cid := order[i];
    CoreIsAt(m, px, py, t, cid, lxs[cid], lys[cid]);
  }

  lemma {:induction false} CoreIsAt(m: nat, px: nat, py: nat, t: nat, cid: nat, lx: nat, ly: nat)
    requires px > 0 && py > 0 && CoreAt(m, px, py, t, cid, lx, ly)
    ensures lx == ColumnStart(m, px, py, t, cid) && ly == RowStart(px, py, t, cid)
  {
    hide ColumnStart, RowStart;
  }

  /** The cells of the cores that are done. */
  ghost function DoneCells(m: nat, px: nat, py: nat, t: nat, order: seq<nat>, i: nat): (nat, nat) -> bool
    requires px > 0 && py > 0 && i <= |order|
  {
    (y: nat, x: nat) => exists j: nat | j < i :: Part(m, px, py, t, order[j])(y, x)
  }

  lemma {:induction false} CoreDone(points: seq<Point>, n: nat, r: nat, src: Grid, d0: Grid, d1: Grid, d2: Grid,
                                    m: nat, px: nat, py: nat, t: nat, order: seq<nat>, i: nat)
    requires StencilOk(points, n, r) && px > 0 && py > 0 && i < |order|
    requires Computed(points, n, r, src, d0, d1, DoneCells(m, px, py, t, order, i))
    requires Computed(points, n, r, src, d1, d2, Part(m, px, py, t, order[i]))
    ensures Computed(points, n, r, src, d0, d2, DoneCells(m, px, py, t, order, i + 1))
  {
    hide Computed, Part, StencilOk;
    var p, q := DoneCells(m, px, py, t, order, i), Part(m, px, py, t, order[i]);
    ComputedBoth(points, n, r, src, d0, d1, d2, p, q);
    ComputedSame(points, n, r, src, d0, d2, (y: nat, x: nat) => p(y, x) || q(y, x),
                 DoneCells(m, px, py, t, order, i + 1));
  }

  lemma {:induction false} NobodyDone(points: seq<Point>, n: nat, r: nat, src: Grid, dst: Grid, m: nat, px: nat,
                                      py: nat, t: nat, order: seq<nat>)
    requires StencilOk(points, n, r) && px > 0 && py > 0 && Sized(n, src, dst)
    ensures Computed(points, n, r, src, dst, dst, DoneCells(m, px, py, t, order, 0))
  {
    hide Computed, Part, StencilOk;
    ComputedNone(points, n, r, src, dst, DoneCells(m, px, py, t, order, 0));
  }

  /** When no block has stuck out all cells are done. */
  lemma {:induction false} EverybodyDone(points: seq<Point>, n: nat, r: nat, src: Grid, d0: Grid, d1: Grid, px: nat,
                                         py: nat, t: nat, order: seq<nat>)
    requires StencilOk(points, n, r) && 2 * r < n && CoresOk(n - 2 * r, px, py) && Order(order, px * py)
    requires StepOk(n - 2 * r, px, py, t)
    requires Computed(points, n, r, src, d0, d1, DoneCells(n - 2 * r, px, py, t, order, |order|))
    ensures Stepped(points, n, r, src, d0, d1)
  {
    hide Computed, Part, StencilOk, StepOk;
    var m := n - 2 * r;
    StepOkOnce(m, px, py, t);
    forall y: nat, x: nat | y < m && x < m ensures DoneCells(m, px, py, t, order, |order|)(y, x) {
      SomebodyDoes(m, px, py, t, order, y, x);
    }
    hide DoneCells;
    ComputedSame(points, n, r, src, d0, d1, DoneCells(m, px, py, t, order, |order|), (y: nat, x: nat) => true);
  }

  lemma {:induction false} SomebodyDoes(m: nat, px: nat, py: nat, t: nat, order: seq<nat>, y: nat, x: nat)
    requires px > 0 && py > 0 && EachOnce(m, px, py, t) && y < m && x < m && Order(order, px * py)
    ensures DoneCells(m, px, py, t, order, |order|)(y, x)
  {
    hide Part, OnlyPart;
    assert Once(m, px, py, t, y, x);
    var cid: nat :| cid < px * py && OnlyPart(m, px, py, t, cid, y, x);
    OnlyHolds(m, px, py, t, cid, y, x);
    assert cid in order;
  }

  /** The cores of `order[..i]` have done their part and no block has stuck out. */
  ghost predicate FineSoFar(m: nat, px: nat, py: nat, t: nat, order: seq<nat>, i: nat)
    requires m > 0 && px > 0 && py > 0 && i <= |order|
  {
    forall j | 0 <= j < i :: SweepOk(m, px, py, ColumnStart(m, px, py, t, order[j]), RowStart(px, py, t, order[j]))
  }

  lemma {:induction false} AllFine(m: nat, px: nat, py: nat, t: nat, order: seq<nat>)
    requires m > 0 && px > 0 && py > 0 && Order(order, px * py) && FineSoFar(m, px, py, t, order, |order|)
    ensures StepOk(m, px, py, t)
  {
    hide SweepOk, ColumnStart, RowStart;
    forall cid: nat | cid < px * py
      ensures SweepOk(m, px, py, ColumnStart(m, px, py, t, cid), RowStart(px, py, t, cid))
    {
      assert cid in order;
      var j: nat :| j < |order| && order[j] == cid;
    }
  }

  lemma {:induction false} NotFine(m: nat, px: nat, py: nat, t: nat, cid: nat)
    requires m > 0 && px > 0 && py > 0 && cid < px * py
    requires !SweepOk(m, px, py, ColumnStart(m, px, py, t, cid), RowStart(px, py, t, cid))
    ensures !StepOk(m, px, py, t)
  {
    hide SweepOk, ColumnStart, RowStart;
  }

  /** After the turns of `order[..i]` in time step `t`. */
  ghost predicate SoFar(points: seq<Point>, n: nat, r: nat, px: nat, py: nat, t: nat, order: seq<nat>, i: nat,
                        lxs: seq<nat>, lys: seq<nat>, src: Grid, dst0: Grid, dst: Grid)
    requires StencilOk(points, n, r) && 2 * r < n && px > 0 && py > 0 && i <= |order|
  {
    && Sized(n, src, dst) && Computed(points, n, r, src, dst0, dst, DoneCells(n - 2 * r, px, py, t, order, i))
    && Midway(n - 2 * r, px, py, t, order, i, lxs, lys) && FineSoFar(n - 2 * r, px, py, t, order, i)
  }

  lemma {:induction false} SoFarStarts(points: seq<Point>, n: nat, r: nat, px: nat, py: nat, t: nat, order: seq<nat>,
                                       lxs: seq<nat>, lys: seq<nat>, src: Grid, dst: Grid)
    requires StencilOk(points, n, r) && 2 * r < n && px > 0 && py > 0 && Order(order, px * py) && Sized(n, src, dst)
    requires CoresAt(n - 2 * r, px, py, t, lxs, lys)
    ensures SoFar(points, n, r, px, py, t, order, 0, lxs, lys, src, dst, dst)
  {
    hide CoresAt, Midway, DoneCells, Computed, Order, Sized, StencilOk;
    MidwayEnds(n - 2 * r, px, py, t, order, lxs, lys);
    NobodyDone(points, n, r, src, dst, n - 2 * r, px, py, t, order);
  }

  lemma {:induction false} SoFarEnds(points: seq<Point>, n: nat, r: nat, px: nat, py: nat, t: nat, order: seq<nat>,
                                     lxs: seq<nat>, lys: seq<nat>, src: Grid, dst0: Grid, dst: Grid)
    requires StencilOk(points, n, r) && 2 * r < n && CoresOk(n - 2 * r, px, py) && Order(order, px * py)
    requires SoFar(points, n, r, px, py, t, order, |order|, lxs, lys, src, dst0, dst)
    ensures Sized(n, src, dst) && StepOk(n - 2 * r, px, py, t) && Stepped(points, n, r, src, dst0, dst)
    ensures CoresAt(n - 2 * r, px, py, t + 1, lxs, lys)
  {
    hide CoresAt, Midway, DoneCells, Computed, Order, Sized, StencilOk, FineSoFar, StepOk, Stepped;
    AllFine(n - 2 * r, px, py, t, order);
    MidwayEnds(n - 2 * r, px, py, t, order, lxs, lys);
    EverybodyDone(points, n, r, src, dst0, dst, px, py, t, order);
  }

  lemma {:induction false} SoFarNext(points: seq<Point>, n: nat, r: nat, px: nat, py: nat, t: nat, order: seq<nat>,
                                     i: nat, lxs: seq<nat>, lys: seq<nat>, src: Grid, dst0: Grid, dst: Grid,
                                     d: Grid, lx: nat, ly: nat)
    requires StencilOk(points, n, r) && 2 * r < n && px > 0 && py > 0 && Order(order, px * py) && i < |order|
    requires SoFar(points, n, r, px, py, t, order, i, lxs, lys, src, dst0, dst)
    requires order[i] < px * py && Sized(n, src, d)
    requires var m, l0, y0 := n - 2 * r, ColumnStart(n - 2 * r, px, py, t, order[i]), RowStart(px, py, t, order[i]);
             && SweepOk(m, px, py, l0, y0) && Computed(points, n, r, src, dst, d, Swept(m, px, py, l0, y0))
             && lx == Turn(l0, RowsOf(m, 2 * py, y0), px) && ly == Rotated(y0, py)
    ensures order[i] < |lxs| == |lys|
    ensures SoFar(points, n, r, px, py, t, order, i + 1, lxs[order[i] := lx], lys[order[i] := ly], src, dst0, d)
  {
    var m: nat := n - 2 * r;
    FineNext(m, px, py, t, order, i);
    CoreMovesOn(m, px, py, t, order[i], lx, ly);
    PartIsSwept(m, px, py, t, order[i]);
    hide Midway, DoneCells, Computed, Order, StencilOk, FineSoFar, Swept, SweepOk, Part, CoreAt, ColumnStart, RowStart;
    CoreDone(points, n, r, src, dst0, dst, d, m, px, py, t, order, i);
    MidwayNext(m, px, py, t, order, i, lxs, lys, lx, ly);
  }

  lemma {:induction false} SoFarParts(points: seq<Point>, n: nat, r: nat, px: nat, py: nat, t: nat, order: seq<nat>,
                                      i: nat, lxs: seq<nat>, lys: seq<nat>, src: Grid, dst0: Grid, dst: Grid)
    requires StencilOk(points, n, r) && 2 * r < n && px > 0 && py > 0 && Order(order, px * py) && i < |order|
    requires SoFar(points, n, r, px, py, t, order, i, lxs, lys, src, dst0, dst)
    ensures Sized(n, src, dst) && order[i] < px * py == |lxs| == |lys|
    ensures lxs[order[i]] == ColumnStart(n - 2 * r, px, py, t, order[i])
    ensures lys[order[i]] == RowStart(px, py, t, order[i])
  {
    hide Midway, DoneCells, Computed, Order, StencilOk, FineSoFar, ColumnStart, RowStart;
    TurnOfCore(n - 2 * r, px, py, t, order, i, lxs, lys);
  }

  /** One time step of all cores; `ok` tells that no block sticks out of the interior. */
  method IssrStep(ghost points: seq<Point>, n: nat, r: nat, px: nat, py: nat, i0: seq<nat>, i1: seq<nat>, ca: seq<real>,
                  at: nat, order: seq<nat>, ghost t: nat, lxs: seq<nat>, lys: seq<nat>, src: Grid, dst: Grid)
    returns (dst': Grid, lxs': seq<nat>, lys': seq<nat>, ok: bool)
    requires SetupOk(points, n, r, i0, i1, ca, at) && Sized(n, src, dst) && Order(order, px * py)
    requires 2 * r < n && CoresOk(n - 2 * r, px, py) && CoresAt(n - 2 * r, px, py, t, lxs, lys)
    ensures Sized(n, src, dst') && (ok <==> StepOk(n - 2 * r, px, py, t))
    ensures ok ==> Stepped(points, n, r, src, dst, dst') && CoresAt(n - 2 * r, px, py, t + 1, lxs', lys')
  {
    SetupParts(points, n, r, i0, i1, ca, at);
    assert px > 0 && py > 0;
    hide *;
    dst', lxs', lys' := dst, lxs, lys;
    SoFarStarts(points, n, r, px, py, t, order, lxs, lys, src, dst);
    for i := 0 to |order|
      invariant SoFar(points, n, r, px, py, t, order, i, lxs', lys', src, dst, dst')
    {
      var cid := order[i];
      SoFarParts(points, n, r, px, py, t, order, i, lxs', lys', src, dst, dst');
      var d, lx, ly, fine := IssrSweep(points, n, r, px, py, i0, i1, ca, at, lxs'[cid], lys'[cid], src, dst');
      if !fine {
        NotFine(n - 2 * r, px, py, t, cid);
        return d, lxs', lys', false;
      }
      SoFarNext(points, n, r, px, py, t, order, i, lxs', lys', src, dst, dst', d, lx, ly);
      dst', lxs', lys' := d, lxs'[cid := lx], lys'[cid := ly];
    }
    ok := true;
    SoFarEnds(points, n, r, px, py, t, order, lxs', lys', src, dst, dst');
  }

  lemma {:induction false} FineNext(m: nat, px: nat, py: nat, t: nat, order: seq<nat>, i: nat)
    requires m > 0 && px > 0 && py > 0 && i < |order| && FineSoFar(m, px, py, t, order, i)
    requires SweepOk(m, px, py, ColumnStart(m, px, py, t, order[i]), RowStart(px, py, t, order[i]))
    ensures FineSoFar(m, px, py, t, order, i + 1)
  {
    hide SweepOk, ColumnStart, RowStart;
  }

  lemma {:induction false} PartIsSwept(m: nat, px: nat, py: nat, t: nat, cid: nat)
    requires px > 0 && py > 0
    ensures Part(m, px, py, t, cid) == Swept(m, px, py, ColumnStart(m, px, py, t, cid), RowStart(px, py, t, cid))
  {
    hide Swept, ColumnStart, RowStart;
  }

  /** The index tables and coefficients of a kernel. */
  method Tables(k: Kernel, n: nat, r: nat, ghost at: nat) returns (i0: seq<nat>, i1: seq<nat>, ca: seq<real>)
    requires KernelOk(k, n, r) && n % 2 == 0
    requires IndicesFit(Points(k, n, r), n) && at + 8 * |Points(k, n, r)| <= WORD
    ensures SetupOk(Points(k, n, r), n, r, i0, i1, ca, at)
  {
    hide TableOk, StarPoints, BoxPoints;
    match k {
      case StarKernel(s) => i0, i1, ca := StarTables(s, n, r);
      case BoxKernel(c) => i0, i1, ca := BoxTables(c, n, r);
    }
  }

  /** What the kernels need of their parameters: even grids, indices of 16 bits, and room for the coefficients. */
  ghost predicate RunOk(k: Kernel, n: nat, r: nat, at: nat) {
    && KernelOk(k, n, r) && n % 2 == 0
    && IndicesFit(Points(k, n, r), n) && at + 8 * |Points(k, n, r)| <= WORD
  }

  lemma {:induction false} RunParts(k: Kernel, n: nat, r: nat, at: nat)
    requires RunOk(k, n, r, at)
    ensures KernelOk(k, n, r) && n % 2 == 0 && 2 * r < n && StencilOk(Points(k, n, r), n, r)
    ensures IndicesFit(Points(k, n, r), n) && at + 8 * |Points(k, n, r)| <= WORD
  {
    hide Points, StencilOk, IndicesFit;
  }

  /** Time step `t` reads one of the two grids and computes the other. */
  ghost predicate Round(points: seq<Point>, n: nat, r: nat, t: nat, g: (Grid, Grid), h: (Grid, Grid))
    requires StencilOk(points, n, r)
  {
    if t % 2 == 0 then h.0 == g.0 && Stepped(points, n, r, g.0, g.1, h.1)
    else h.1 == g.1 && Stepped(points, n, r, g.1, g.0, h.0)
  }

  lemma {:induction false} EvolvesNext(points: seq<Point>, n: nat, r: nat, grids: seq<(Grid, Grid)>, t: nat,
                                       h: (Grid, Grid))
    requires StencilOk(points, n, r) && |grids| == t + 1 && Evolves(points, n, r, grids)
    requires Round(points, n, r, t, grids[t], h) && Sized(n, h.0, h.1)
    ensures Evolves(points, n, r, grids + [h])
  {
    hide StencilOk, Stepped;
  }

  /** The grids after every one of the first `t` time steps, the last of them `b`. */
  ghost predicate Record(points: seq<Point>, n: nat, r: nat, a: (Grid, Grid), t: nat, b: (Grid, Grid),
                         grids: seq<(Grid, Grid)>)
    requires StencilOk(points, n, r)
  {
    |grids| == t + 1 && grids[0] == a && grids[t] == b && Evolves(points, n, r, grids)
  }

  lemma {:induction false} RecordNext(points: seq<Point>, n: nat, r: nat, a: (Grid, Grid), t: nat, b: (Grid, Grid),
                                      grids: seq<(Grid, Grid)>, b': (Grid, Grid))
    requires StencilOk(points, n, r) && Record(points, n, r, a, t, b, grids)
    requires Round(points, n, r, t, b, b') && Sized(n, b'.0, b'.1)
    ensures Record(points, n, r, a, t + 1, b', grids + [b'])
  {
    hide StencilOk, Round, Evolves, Sized;
    EvolvesNext(points, n, r, grids, t, b');
  }

  lemma {:induction false} RecordFirst(points: seq<Point>, n: nat, r: nat, a: (Grid, Grid))
    requires StencilOk(points, n, r) && |a.0| == |a.1| == n * n
    ensures Record(points, n, r, a, 0, a, [a]) && Sized(n, a.0, a.1)
  {
    hide StencilOk, Stepped;
  }

  /** Time step `t` on the two grids (lines 447-481). */
  method IssrRound(ghost points: seq<Point>, n: nat, r: nat, px: nat, py: nat, i0: seq<nat>, i1: seq<nat>,
                   ca: seq<real>, at: nat, order: seq<nat>, t: nat, lxs: seq<nat>, lys: seq<nat>, b: (Grid, Grid))
    returns (b': (Grid, Grid), lxs': seq<nat>, lys': seq<nat>, ok: bool)
    requires SetupOk(points, n, r, i0, i1, ca, at) && StencilOk(points, n, r) && Sized(n, b.0, b.1)
    requires Order(order, px * py) && 2 * r < n && CoresOk(n - 2 * r, px, py) && CoresAt(n - 2 * r, px, py, t, lxs, lys)
    ensures Sized(n, b'.0, b'.1) && (ok <==> StepOk(n - 2 * r, px, py, t))
    ensures ok ==> Round(points, n, r, t, b, b') && CoresAt(n - 2 * r, px, py, t + 1, lxs', lys')
  {
    hide StencilOk, Stepped, Order, SetupOk, CoresAt, StepOk, CoresOk;
    var d;
    if t % 2 == 0 {
      d, lxs', lys', ok := IssrStep(points, n, r, px, py, i0, i1, ca, at, order, t, lxs, lys, b.0, b.1);
      b' := (b.0, d);
    } else {
      d, lxs', lys', ok := IssrStep(points, n, r, px, py, i0, i1, ca, at, order, t, lxs, lys, b.1, b.0);
      b' := (d, b.1);
    }
  }

  /** An order of the cores for every time step. */
  ghost predicate Orders(orders: seq<seq<nat>>, cores: nat) {
    forall t | 0 <= t < |orders| :: Order(orders[t], cores)
  }

  ghost predicate StepsOk(m: nat, px: nat, py: nat, steps: nat)
    requires m > 0 && px > 0 && py > 0
  {
    forall t: nat | t < steps :: StepOk(m, px, py, t)
  }

  lemma {:induction false} OrderAt(orders: seq<seq<nat>>, cores: nat, t: nat)
    requires Orders(orders, cores) && t < |orders|
    ensures Order(orders[t], cores)
  {
    hide Order;
  }

  lemma {:induction false} StepsNext(m: nat, px: nat, py: nat, t: nat)
    requires m > 0 && px > 0 && py > 0
    ensures StepsOk(m, px, py, 0)
    ensures StepsOk(m, px, py, t + 1) <==> StepsOk(m, px, py, t) && StepOk(m, px, py, t)
  {
    hide StepOk;
  }

  lemma {:induction false} StepFails(m: nat, px: nat, py: nat, t: nat, steps: nat)
    requires CoresOk(m, px, py) && t < steps && !StepOk(m, px, py, t)
    ensures !Balanced(m, px, py, steps)
  {
    hide StepOk, Balanced;
    EachOnceExactly(m, px, py, steps);
  }

  lemma {:induction false} StepsBalanced(m: nat, px: nat, py: nat, steps: nat)
    requires CoresOk(m, px, py) && StepsOk(m, px, py, steps)
    ensures Balanced(m, px, py, steps)
  {
    hide StepOk, Balanced;
    EachOnceExactly(m, px, py, steps);
  }

  /** istci_an5d_star2dXr and istci_an5d_box2dXr on all cores. */
  method IssrKernel(k: Kernel, n: nat, r: nat, at: nat, px: nat, py: nat, orders: seq<seq<nat>>, a0: Grid, a1: Grid)
    returns (b0: Grid, b1: Grid, ok: bool, ghost grids: seq<(Grid, Grid)>)
    requires RunOk(k, n, r, at) && |a0| == |a1| == n * n && px > 0 && py > 0
    requires Orders(orders, px * py)
    ensures ok <==> Balanced(n - 2 * r, px, py, |orders|)
    ensures ok ==> Record(Points(k, n, r), n, r, (a0, a1), |orders|, (b0, b1), grids)
  {
    RunParts(k, n, r, at);
    ghost var points := Points(k, n, r);
    ghost var m: nat := n - 2 * r;
    assert CoresOk(m, px, py);
    RecordFirst(points, n, r, (a0, a1));
    hide *;
    var i0, i1, ca := Tables(k, n, r, at);
    StepsNext(m, px, py, 0);
    var lxs, lys := InitialOffsets(px, py, m);
    var b := (a0, a1);
    grids := [(a0, a1)];
    for t := 0 to |orders|
      invariant Record(points, n, r, (a0, a1), t, b, grids) && Sized(n, b.0, b.1)
      invariant CoresAt(m, px, py, t, lxs, lys) && StepsOk(m, px, py, t)
    {
      var b';
      OrderAt(orders, px * py, t);
      StepsNext(m, px, py, t);
      b', lxs, lys, ok := IssrRound(points, n, r, px, py, i0, i1, ca, at, orders[t], t, lxs, lys, b);
      if !ok {
        StepFails(m, px, py, t, |orders|);
        return b'.0, b'.1, false, grids;
      }
      RecordNext(points, n, r, (a0, a1), t, b, grids, b');
      b := b';
      grids := grids + [b];
    }
    b0, b1 := b.0, b.1;
    ok := true;
    StepsBalanced(m, px, py, |orders|);
  }

  /**
   Both kernels, run from the same grids, leave the same grids, whatever order
   the cores of either take, unless a block sticks out of the interior; and that
   happens exactly on core grids that are not balanced.
   */
  method KernelsAgree(k: Kernel, n: nat, r: nat, at: nat, px: nat, py: nat, qx: nat, qy: nat, orders: seq<seq<nat>>,
                      orders': seq<seq<nat>>, a0: Grid, a1: Grid)
    returns (b0: Grid, b1: Grid, c0: Grid, c1: Grid, ok: bool)
    requires RunOk(k, n, r, at) && |a0| == |a1| == n * n
    requires px > 0 && py > 0 && qx > 0 && qy > 0 && |orders| == |orders'|
    requires Orders(orders, px * py) && Orders(orders', qx * qy)
    ensures ok <==> Balanced(n - 2 * r, px, py, |orders|)
    ensures ok ==> b0 == c0 && b1 == c1
    ensures exists grids :: Record(Points(k, n, r), n, r, (a0, a1), |orders|, (c0, c1), grids)
  {
    assert KernelOk(k, n, r);
    hide Evolves, Order, Points, RunOk, Balanced;
    ghost var g, h;
    b0, b1, ok, g := IssrKernel(k, n, r, at, px, py, orders, a0, a1);
    c0, c1, h := DirectKernel(k, n, r, qx, qy, orders', a0, a1);
    assert Record(Points(k, n, r), n, r, (a0, a1), |orders|, (c0, c1), h);
    if ok {
      EvolutionUnique(Points(k, n, r), n, r, g, h, |orders|);
    }
  }
}
