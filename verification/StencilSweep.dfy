/**
 The loop nest of the indirect-stream kernels (istc.issr.hpp:447-481) on one core:
 it walks blocks of two by two cells, its first column rotating from row to row
 and its first row from time step to time step.  An offset may be odd; the last
 block of a row or column then sticks out of the interior by one cell.  The model
 stops there: the block's coefficients are missing (`BlockCount`), and its stores
 would go to the halo.
 */
module StencilSweep {
  import opened Arithmetic
  import opened Ssr
  import opened Stencil
  import opened StencilDirect
  import opened StencilIssr
  import opened Words
  import opened Wrappers

  /** A block column (or row) of class `l` that starts before `x0` covers `x`. */
  predicate Covers(l: nat, w: nat, x0: nat, x: nat)
    requires w > 0
  {
    Starts(l, w, x0, x) || (x > 0 && Starts(l, w, x0, x - 1))
  }

  predicate Starts(l: nat, w: nat, x0: nat, x: nat)
    requires w > 0
  {
    Rem(x, w) == l && x < x0
  }

  /** The cells of the blocks of row `y` that start before column `x0`. */
  function RowBelow(y: nat, l: nat, w: nat, x0: nat): (nat, nat) -> bool
    requires w > 0
  {
    (y': nat, x': nat) => y <= y' <= y + 1 && Covers(l, w, x0, x')
  }

  /** What a core needs: the stencil, its tables, and grids of an even size. */
  ghost predicate SetupOk(points: seq<Point>, n: nat, r: nat, i0: seq<nat>, i1: seq<nat>, ca: seq<real>, at: nat) {
    && StencilOk(points, n, r) && IndicesFit(points, n) && n % 2 == 0 && at + 8 * |ca| <= WORD
    && TableOk(i0, points, n, 0) && TableOk(i1, points, n, 1) && CoefsOk(ca, points)
  }

  /** The four cells of a block. */
  lemma {:induction false} SetBlock(points: seq<Point>, n: nat, r: nat, src: Grid, d0: Grid, d: Grid, y: nat, x: nat,
                                    v: seq<real>, p: (nat, nat) -> bool, q: (nat, nat) -> bool)
    requires StencilOk(points, n, r) && Computed(points, n, r, src, d0, d, p)
    requires y + 1 + 2 * r < n && x + 1 + 2 * r < n && |v| == 4
    requires v[0] == Value(points, n, r, src, y, x) && v[1] == Value(points, n, r, src, y, x + 1)
    requires v[2] == Value(points, n, r, src, y + 1, x) && v[3] == Value(points, n, r, src, y + 1, x + 1)
    requires forall y': nat, x': nat :: q(y', x') <==> p(y', x') || (y <= y' <= y + 1 && x <= x' <= x + 1)
    ensures var wb := Cell(n, y + r, x + r);
            && wb + n + 1 < |d|
            && Computed(points, n, r, src, d0, d[wb := v[0]][wb + 1 := v[1]][wb + n := v[2]][wb + n + 1 := v[3]], q)
  {
    hide Value, Computed, StencilOk;
    CellSteps(n, y + r, x + r);
    SetCell(points, n, r, src, d0, d, y, x, v[0], p);
    var p1 := (y': nat, x': nat) => p(y', x') || (y' == y && x' == x);
    var d1 := d[Cell(n, y + r, x + r) := v[0]];
    SetCell(points, n, r, src, d0, d1, y, x + 1, v[1], p1);
    var p2 := (y': nat, x': nat) => p1(y', x') || (y' == y && x' == x + 1);
    var d2 := d1[Cell(n, y + r, x + 1 + r) := v[1]];
    SetCell(points, n, r, src, d0, d2, y + 1, x, v[2], p2);
    var p3 := (y': nat, x': nat) => p2(y', x') || (y' == y + 1 && x' == x);
    var d3 := d2[Cell(n, y + 1 + r, x + r) := v[2]];
    SetCell(points, n, r, src, d0, d3, y + 1, x + 1, v[3], p3);
    var p4 := (y': nat, x': nat) => p3(y', x') || (y' == y + 1 && x' == x + 1);
    var d4 := d3[Cell(n, y + 1 + r, x + 1 + r) := v[3]];
    ComputedSame(points, n, r, src, d0, d4, p4, q);
  }

  lemma {:induction false} StoreBlock(points: seq<Point>, n: nat, r: nat, src: Grid, d0: Grid, d: Grid, y: nat, x: nat,
                                      v: seq<real>, l: nat, w: nat)
    requires StencilOk(points, n, r) && w > 0 && Rem(x, w) == l
    requires Computed(points, n, r, src, d0, d, RowBelow(y, l, w, x))
    requires y + 1 + 2 * r < n && x + 1 + 2 * r < n && |v| == 4
    requires v[0] == Value(points, n, r, src, y, x) && v[1] == Value(points, n, r, src, y, x + 1)
    requires v[2] == Value(points, n, r, src, y + 1, x) && v[3] == Value(points, n, r, src, y + 1, x + 1)
    ensures var wb := Cell(n, y + r, x + r);
            && wb + n + 1 < |d|
            && Computed(points, n, r, src, d0, d[wb := v[0]][wb + 1 := v[1]][wb + n := v[2]][wb + n + 1 := v[3]],
                        RowBelow(y, l, w, x + w))
  {
    hide *;
    forall y': nat, x': nat
      ensures RowBelow(y, l, w, x + w)(y', x')
              <==> RowBelow(y, l, w, x)(y', x') || (y <= y' <= y + 1 && x <= x' <= x + 1)
    {
      BlocksNext(y, l, w, x, y', x');
    }
    SetBlock(points, n, r, src, d0, d, y, x, v, RowBelow(y, l, w, x), RowBelow(y, l, w, x + w));
  }

  lemma {:induction false} CellSteps(n: nat, y: nat, x: nat)
    ensures Cell(n, y, x + 1) == Cell(n, y, x) + 1 && Cell(n, y + 1, x) == Cell(n, y, x) + n
    ensures Cell(n, y + 1, x + 1) == Cell(n, y, x) + n + 1
  {
    Distribute(n, y, 1);
  }

  ghost predicate Sized(n: nat, src: Grid, dst: Grid) {
    |src| == |dst| == n * n
  }

  /** The bound written for the coefficient stream of a row, on an interior of `m` columns (line 450). */
  function CoefBlocks(m: nat, w: nat, l: nat): nat
    requires m > 0 && l < w
  {
    Quot(m + w - l - 2, w)
  }

  /** It is the number of blocks that do not stick out: those that start at `l`, `l + w`, ... up to `m - 2`. */
  lemma {:induction false} BlockCount(m: nat, w: nat, l: nat, x: nat)
    requires m > 0 && l < w && Rem(x, w) == l && x + 2 > m && (Quot(x, w) > 0 ==> w <= x && x - w + 2 <= m)
    ensures CoefBlocks(m, w, l) == Quot(x, w)
  {
    hide Quot, Rem;
    QuotRem(x, w);
    if Quot(x, w) == 0 {
      Unique(m + w - l - 2, w, 0, m + w - l - 2);
    } else {
      Unique(m + w - l - 2, w, Quot(x, w), m + w - 2 - x);
    }
  }

  /** Before a block that does not stick out there are fewer. */
  lemma {:induction false} BlocksLeft(m: nat, w: nat, l: nat, x: nat)
    requires m > 0 && l < w && Rem(x, w) == l && x + 2 <= m
    ensures Quot(x, w) < CoefBlocks(m, w, l)
  {
    hide Quot, Rem;
    QuotRem(x, w);
    var k := m + w - l - 2;
    QuotBelow(k, w, Quot(x, w) + 1);
    Distribute(w, Quot(x, w), 1);
    Commute(Quot(x, w), w);
  }

  lemma {:induction false} FewBlocks(m: nat, w: nat, l: nat)
    requires 0 < m < INDEX && l < w && 2 <= w
    ensures CoefBlocks(m, w, l) <= WORD
  {
    hide Quot;
    var k := m + w - l - 2;
    QuotBelow(k, w, WORD);
    MulMono(1, w, WORD - 1);
    Distribute(WORD, 1, w - 1);
    MulBound(w, WORD);
  }

  lemma {:induction false} MulBound(w: nat, b: nat)
    requires 2 <= w && INDEX < b
    ensures INDEX + w < w * b
  {
    MulMono(2, w, b - 1);
    Distribute(w, b - 1, 1);
  }

  lemma {:induction false} OneMore(a: nat, step: nat)
    requires step > 0
    ensures Rem(a + step, step) == Rem(a, step) && Quot(a + step, step) == Quot(a, step) + 1
  {
    NextInClass(a, step, 0);
  }

  /** No block of a row sticks out of an interior of `m` by `m` cells. */
  predicate RowOk(m: nat, w: nat, l: nat, y: nat)
    requires m > 0 && l < w
  {
    (y + 2 <= m || m <= l) && Rem(m - 1, w) != l
  }

  /** The inner loop stops at a block that sticks out. */
  lemma {:induction false} SticksOut(m: nat, w: nat, l: nat, y: nat, x: nat)
    requires m > 0 && l < w && Rem(x, w) == l && x < m && (x + 2 > m || y + 2 > m)
    ensures !RowOk(m, w, l, y)
  {
    hide Quot, Rem;
    QuotRem(x, w);
  }

  /** Otherwise it ends when no block sticks out. */
  lemma {:induction false} NoneSticksOut(m: nat, w: nat, l: nat, y: nat, x: nat)
    requires m > 0 && l < w && Rem(x, w) == l && m <= x
    requires if Quot(x, w) == 0 then x == l else w <= x && x - w + 2 <= m && y + 2 <= m
    ensures RowOk(m, w, l, y)
  {
    hide Quot, Rem;
    if Quot(x, w) == 0 {
      BelowFirst(l, w, m - 1);
    } else {
      NextInClass(x - w, w, m - 1);
    }
  }

  /** The inner loop (lines 450-476): a core's blocks in one row; `left` is what is left of the coefficient stream. */
  method IssrRow(ghost points: seq<Point>, n: nat, r: nat, px: nat, i0: seq<nat>, i1: seq<nat>, ca: seq<real>, at: nat,
                 y: nat, lx: nat, src: Grid, dst: Grid)
    returns (dst': Grid, ok: bool, left: Option<(seq<nat>, nat)>)
    requires SetupOk(points, n, r, i0, i1, ca, at) && Sized(n, src, dst)
    requires y + 2 * r < n && lx < 2 * px
    ensures Sized(n, src, dst') && (ok <==> RowOk(n - 2 * r, 2 * px, lx, y))
    ensures ok ==> Computed(points, n, r, src, dst, dst', RowBelow(y, lx, 2 * px, n - 2 * r)) && left.None?
  {
    SetupParts(points, n, r, i0, i1, ca, at);
    hide *;
    var w := 2 * px;
    var count := CoefBlocks(n - 2 * r, w, lx);
    var bounds, strides := CoefBounds(|ca|, count), CoefStrides(|ca|, count);
    ghost var e: nat := 0;
    dst', left := dst, None;
    var x: nat, winit := lx, true;
    CoefsLength(ca, points, n, r);
    SmallGrid(points, n, r);
    FewBlocks(n - 2 * r, w, lx);
    BlocksStart(points, n, r, src, dst, y, lx, w);
    Unique(0, |ca|, 0, 0);
    while x + 2 * r < n
      invariant Rem(x, w) == lx && Rem(e, |ca|) == 0 && Quot(e, |ca|) == Quot(x, w)
      invariant if Quot(x, w) == 0 then x == lx && e == 0 && winit && left == None
                else w <= x && x - w + 2 + 2 * r <= n && y + 2 + 2 * r <= n && !winit
                     && TableFits(at, |ca|, count) && left == Generator(at, bounds, strides, e)
      invariant Sized(n, src, dst') && Computed(points, n, r, src, dst, dst', RowBelow(y, lx, w, x))
    {
      if x + 1 + 2 * r == n || y + 1 + 2 * r == n {
        SticksOut(n - 2 * r, w, lx, y, x);
        return dst', false, left;
      }
      BlocksLeft(n - 2 * r, w, lx, x);
      TableIsThere(at, |ca|, count);
      if winit {
        StreamStarts(at, |ca|, count);
        winit, left := false, Some((Zeros(2), at));
      }
      var ft2;
      ft2, left := PopCoefficients(ca, at, points, count, bounds, strides, left, e);
      dst' := IssrBlock(points, n, r, i0, i1, ft2, y, x, src, dst, dst', lx, w);
      OneMore(x, w);
      OneMore(e, |ca|);
      x := x + w;
      e := e + |ca|;
    }
    ok := true;
    NoneSticksOut(n - 2 * r, w, lx, y, x);
    BlockCount(n - 2 * r, w, lx, x);
    if Quot(x, w) > 0 {
      StreamEnds(at, |ca|, count, e);
    }
    BlocksEnd(points, n, r, src, dst, dst', y, lx, w, x);
  }

  lemma {:induction false} SmallGrid(points: seq<Point>, n: nat, r: nat)
    requires StencilOk(points, n, r) && IndicesFit(points, n)
    ensures n < INDEX
  {
    assert points[0].off + n + 1 < INDEX;
  }

  lemma {:induction false} TableIsThere(at: nat, points: nat, count: nat)
    requires points > 0 && 0 < count <= WORD && at + 8 * points <= WORD
    ensures TableFits(at, points, count)
  {
  }

  lemma {:induction false} KeepsSize(n: nat, src: Grid, dst: Grid)
    requires Sized(n, src, dst)
    ensures forall d: Grid | |d| == |dst| :: Sized(n, src, d)
  {
  }

  /** One block: four cells computed and stored (lines 453-475). */
  method IssrBlock(ghost points: seq<Point>, n: nat, r: nat, i0: seq<nat>, i1: seq<nat>, ft2: seq<real>, y: nat, x: nat,
                   src: Grid, ghost dst0: Grid, dst: Grid, ghost l: nat, ghost w: nat)
    returns (dst': Grid)
    requires StencilOk(points, n, r) && IndicesFit(points, n) && TableOk(i0, points, n, 0) && TableOk(i1, points, n, 1)
    requires Repeated(ft2, points) && Sized(n, src, dst0) && Sized(n, src, dst) && w > 0
    requires y + 1 + 2 * r < n && x + 1 + 2 * r < n && Rem(x, w) == l
    requires Computed(points, n, r, src, dst0, dst, RowBelow(y, l, w, x))
    ensures Sized(n, src, dst') && Computed(points, n, r, src, dst0, dst', RowBelow(y, l, w, x + w))
  {
    assert |src| == |dst0| == |dst| == n * n;
    assert Sized(n, src, dst) == (|src| == |dst| == n * n);
    hide *;
    KeepsSize(n, src, dst);
    BlockReach(points, n, r, src, y, x);
    var fa0, fa1, fa2, fa3 := Block(points, n, r, src, CellOf(n, y, x), i0, i1, ft2);
    BlockValues(points, n, r, src, y, x);
    var wb := CellOf(n, y + r, x + r);
    StoreBlock(points, n, r, src, dst0, dst, y, x, [fa0, fa1, fa2, fa3], l, w);
    dst' := dst[wb := fa0][wb + 1 := fa1][wb + n := fa2][wb + n + 1 := fa3];
  }

  lemma {:induction false} SetupParts(points: seq<Point>, n: nat, r: nat, i0: seq<nat>, i1: seq<nat>, ca: seq<real>,
                                      at: nat)
    requires SetupOk(points, n, r, i0, i1, ca, at)
    ensures StencilOk(points, n, r) && IndicesFit(points, n) && n % 2 == 0 && 2 * r < n && at + 8 * |ca| <= WORD
    ensures TableOk(i0, points, n, 0) && TableOk(i1, points, n, 1) && CoefsOk(ca, points)
  {
  }

  lemma {:induction false} CoefsLength(ca: seq<real>, points: seq<Point>, n: nat, r: nat)
    requires CoefsOk(ca, points) && StencilOk(points, n, r)
    ensures |ca| == |points| > 0
  {
  }

  lemma {:induction false} BlocksStart(points: seq<Point>, n: nat, r: nat, src: Grid, dst: Grid, y: nat, l: nat, w: nat)
    requires StencilOk(points, n, r) && Sized(n, src, dst) && l < w
    ensures Rem(l, w) == l && Quot(l, w) == 0 && Computed(points, n, r, src, dst, dst, RowBelow(y, l, w, l))
  {
    hide Rem, Quot, Computed;
    Unique(l, w, 0, l);
    forall x: nat ensures !Starts(l, w, l, x) {
      BelowFirst(l, w, x);
    }
    hide Starts;
    forall x: nat ensures !Covers(l, w, l, x) {
      assert x > 0 ==> !Starts(l, w, l, x - 1);
    }
    ComputedNone(points, n, r, src, dst, RowBelow(y, l, w, l));
  }

  lemma {:induction false} StartsNext(l: nat, w: nat, x0: nat, x: nat)
    requires w > 0 && Rem(x0, w) == l
    ensures Starts(l, w, x0 + w, x) <==> Starts(l, w, x0, x) || x == x0
  {
    hide Rem;
    NextInClass(x0, w, x);
  }

  lemma {:induction false} CoversMore(l: nat, w: nat, x: nat, x': nat)
    requires w > 0 && Rem(x, w) == l
    ensures Covers(l, w, x + w, x') <==> Covers(l, w, x, x') || x <= x' <= x + 1
  {
    hide Starts, Rem;
    StartsNext(l, w, x, x');
    if x' > 0 {
      var before: nat := x' - 1;
      StartsNext(l, w, x, before);
      assert before == x <==> x' == x + 1;
    }
  }

  lemma {:induction false} BlocksNext(y: nat, l: nat, w: nat, x: nat, y': nat, x': nat)
    requires w > 0 && Rem(x, w) == l
    ensures RowBelow(y, l, w, x + w)(y', x')
            <==> RowBelow(y, l, w, x)(y', x') || (y <= y' <= y + 1 && x <= x' <= x + 1)
  {
    hide Covers, Rem;
    CoversMore(l, w, x, x');
  }

  lemma {:induction false} BlocksEnd(points: seq<Point>, n: nat, r: nat, src: Grid, d0: Grid, d1: Grid, y: nat, l: nat,
                                     w: nat, x: nat)
    requires StencilOk(points, n, r) && w > 0 && 2 * r < n <= x + 2 * r
    requires Computed(points, n, r, src, d0, d1, RowBelow(y, l, w, x))
    ensures Computed(points, n, r, src, d0, d1, RowBelow(y, l, w, n - 2 * r))
  {
    hide Rem, Computed;
    forall x': nat | x' + 2 * r < n ensures Covers(l, w, x, x') == Covers(l, w, n - 2 * r, x') {
    }
    ComputedSame(points, n, r, src, d0, d1, RowBelow(y, l, w, x), RowBelow(y, l, w, n - 2 * r));
  }

  lemma {:induction false} BlockReach(points: seq<Point>, n: nat, r: nat, src: Grid, y: nat, x: nat)
    requires StencilOk(points, n, r) && |src| == n * n && y + 1 + 2 * r < n && x + 1 + 2 * r < n
    ensures var base := Cell(n, y, x);
            && InGrid(points, src, base) && InGrid(points, src, base + 1)
            && InGrid(points, src, base + n) && InGrid(points, src, base + 1 + n)
  {
    hide Cell, InGrid, StencilOk;
    CellSteps(n, y, x);
    Reach(points, n, r, src, y, x);
    Reach(points, n, r, src, y, x + 1);
    Reach(points, n, r, src, y + 1, x);
    Reach(points, n, r, src, y + 1, x + 1);
  }

  lemma {:induction false} ValueIs(points: seq<Point>, n: nat, r: nat, src: Grid, y: nat, x: nat)
    requires StencilOk(points, n, r) && |src| == n * n && y + 2 * r < n && x + 2 * r < n
    ensures InGrid(points, src, Cell(n, y, x))
            && Value(points, n, r, src, y, x) == Sum(points, src, Cell(n, y, x), |points|)
  {
    hide Cell, InGrid, StencilOk, Sum;
    Reach(points, n, r, src, y, x);
  }

  lemma {:induction false} BlockValues(points: seq<Point>, n: nat, r: nat, src: Grid, y: nat, x: nat)
    requires StencilOk(points, n, r) && |src| == n * n && y + 1 + 2 * r < n && x + 1 + 2 * r < n
    ensures var base := Cell(n, y, x);
            && InGrid(points, src, base) && InGrid(points, src, base + 1)
            && InGrid(points, src, base + n) && InGrid(points, src, base + 1 + n)
            && Value(points, n, r, src, y, x) == Sum(points, src, base, |points|)
            && Value(points, n, r, src, y, x + 1) == Sum(points, src, base + 1, |points|)
            && Value(points, n, r, src, y + 1, x) == Sum(points, src, base + n, |points|)
            && Value(points, n, r, src, y + 1, x + 1) == Sum(points, src, base + 1 + n, |points|)
  {
    hide *;
    CellSteps(n, y, x);
    ValueIs(points, n, r, src, y, x);
    ValueIs(points, n, r, src, y, x + 1);
    ValueIs(points, n, r, src, y + 1, x);
    ValueIs(points, n, r, src, y + 1, x + 1);
  }

  // ----- the rotation of the starting offsets

  /** `(l + p) % jmp` with `jmp == 2 * p`. */
  function Rotated(l: nat, p: nat): (l': nat)
    requires p > 0
    ensures l' < 2 * p
  {
    Rem(l + p, 2 * p)
  }

  lemma {:induction false} RotatedIs(l: nat, p: nat)
    requires p > 0 && l < 2 * p
    ensures Rotated(l, p) == if l < p then l + p else l - p
  {
    hide Rem;
    Unique(l + p, 2 * p, if l < p then 0 else 1, if l < p then l + p else l - p);
  }

  /** The offset after `k` rotations. */
  function Turn(l: nat, k: nat, p: nat): (l': nat)
    requires l < 2 * p
    ensures l' < 2 * p
  {
    if k % 2 == 0 then l else if l < p then l + p else l - p
  }

  /** One rotation of the code's offset is one more turn. */
  lemma {:induction false} TurnOn(l: nat, k: nat, p: nat)
    requires l < 2 * p
    ensures Rotated(Turn(l, k, p), p) == Turn(l, k + 1, p)
  {
    hide Rotated;
    RotatedIs(Turn(l, k, p), p);
  }

  lemma {:induction false} TurnNone(l: nat, p: nat)
    requires l < 2 * p
    ensures Turn(l, 0, p) == l
  {
  }

  // ----- one time step of one core

  /** The number of rows (or columns) of blocks that start at `l`, `l + w`, ... below `m`. */
  function RowsOf(m: nat, w: nat, l: nat): nat
    requires l < w
  {
    Quot(m + (w - 1 - l), w)
  }

  lemma {:induction false} RowsAre(m: nat, w: nat, l: nat, y: nat)
    requires l < w && Rem(y, w) == l && y >= m && (Quot(y, w) > 0 ==> w <= y && y - w < m)
    ensures Quot(y, w) == RowsOf(m, w, l)
  {
    hide Quot, Rem;
    QuotRem(y, w);
    if Quot(y, w) > 0 {
      Unique(m + (w - 1 - l), w, Quot(y, w), m + (w - 1) - y);
    } else {
      Unique(m + (w - 1 - l), w, 0, m + (w - 1 - l));
    }
  }

  /** The offset of the blocks in the row that starts at `y`, for a core whose time step starts with `lx`. */
  function ColumnAt(px: nat, py: nat, lx: nat, y: nat): (l: nat)
    requires lx < 2 * px && py > 0
    ensures l < 2 * px
  {
    Turn(lx, Quot(y, 2 * py), px)
  }

  /** A row of blocks that starts at `y`, before `y0`, holds a block that covers column `x`. */
  predicate RowCovers(m: nat, px: nat, py: nat, lx: nat, ly: nat, y0: nat, y: nat, x: nat)
    requires lx < 2 * px && py > 0
  {
    Starts(ly, 2 * py, y0, y) && Covers(ColumnAt(px, py, lx, y), 2 * px, m, x)
  }

  /** The cells of the blocks of a core in one time step, up to row `y0`. */
  function SweptBelow(m: nat, px: nat, py: nat, lx: nat, ly: nat, y0: nat): (nat, nat) -> bool
    requires lx < 2 * px && py > 0
  {
    (y: nat, x: nat) =>
      RowCovers(m, px, py, lx, ly, y0, y, x) || (y > 0 && RowCovers(m, px, py, lx, ly, y0, y - 1, x))
  }

  function Swept(m: nat, px: nat, py: nat, lx: nat, ly: nat): (nat, nat) -> bool
    requires lx < 2 * px && py > 0
  {
    SweptBelow(m, px, py, lx, ly, m)
  }

  /** No block of a core sticks out in a time step. */
  ghost predicate SweepOk(m: nat, px: nat, py: nat, lx: nat, ly: nat)
    requires m > 0 && lx < 2 * px && py > 0
  {
    forall y: nat | Starts(ly, 2 * py, m, y) :: RowOk(m, 2 * px, ColumnAt(px, py, lx, y), y)
  }

  lemma {:induction false} SweepStart(points: seq<Point>, n: nat, r: nat, src: Grid, dst: Grid, px: nat, py: nat,
                                      lx: nat, ly: nat)
    requires StencilOk(points, n, r) && Sized(n, src, dst) && lx < 2 * px && ly < 2 * py && 2 * r < n
    ensures Rem(ly, 2 * py) == ly && Quot(ly, 2 * py) == 0
    ensures forall y: nat :: !Starts(ly, 2 * py, ly, y)
    ensures Computed(points, n, r, src, dst, dst, SweptBelow(n - 2 * r, px, py, lx, ly, ly))
  {
    hide Rem, Quot, Computed, Covers, ColumnAt;
    Unique(ly, 2 * py, 0, ly);
    forall y: nat ensures !Starts(ly, 2 * py, ly, y) {
      BelowFirst(ly, 2 * py, y);
    }
    hide Starts;
    ComputedNone(points, n, r, src, dst, SweptBelow(n - 2 * r, px, py, lx, ly, ly));
  }

  lemma {:induction false} RowNext(m: nat, px: nat, py: nat, lx: nat, ly: nat, y0: nat, y: nat, x: nat)
    requires lx < 2 * px && py > 0 && Rem(y0, 2 * py) == ly
    ensures RowCovers(m, px, py, lx, ly, y0 + 2 * py, y, x)
            <==> RowCovers(m, px, py, lx, ly, y0, y, x) || (y == y0 && Covers(ColumnAt(px, py, lx, y0), 2 * px, m, x))
  {
    hide Rem, Starts, Covers, ColumnAt;
    StartsNext(ly, 2 * py, y0, y);
    StartsNext(ly, 2 * py, y0, y0);
  }

  lemma {:induction false} SweepNext(points: seq<Point>, n: nat, r: nat, src: Grid, d0: Grid, d1: Grid, d2: Grid,
                                     px: nat, py: nat, lx: nat, ly: nat, y: nat)
    requires StencilOk(points, n, r) && 2 * r < n && lx < 2 * px && py > 0 && Rem(y, 2 * py) == ly
    requires Computed(points, n, r, src, d0, d1, SweptBelow(n - 2 * r, px, py, lx, ly, y))
    requires Computed(points, n, r, src, d1, d2, RowBelow(y, ColumnAt(px, py, lx, y), 2 * px, n - 2 * r))
    ensures Computed(points, n, r, src, d0, d2, SweptBelow(n - 2 * r, px, py, lx, ly, y + 2 * py))
  {
    hide Rem, Quot, Computed, ColumnAt, RowCovers, Covers;
    var m := n - 2 * r;
    var p, q := SweptBelow(m, px, py, lx, ly, y), RowBelow(y, ColumnAt(px, py, lx, y), 2 * px, m);
    ComputedBoth(points, n, r, src, d0, d1, d2, p, q);
    forall y': nat, x': nat
      ensures (p(y', x') || q(y', x')) == SweptBelow(m, px, py, lx, ly, y + 2 * py)(y', x')
    {
      RowNext(m, px, py, lx, ly, y, y', x');
      if y' > 0 {
        RowNext(m, px, py, lx, ly, y, y' - 1, x');
      }
    }
    ComputedSame(points, n, r, src, d0, d2, (y': nat, x': nat) => p(y', x') || q(y', x'),
                 SweptBelow(m, px, py, lx, ly, y + 2 * py));
  }

  lemma {:induction false} SweepEnd(points: seq<Point>, n: nat, r: nat, src: Grid, d0: Grid, d1: Grid,
                                    px: nat, py: nat, lx: nat, ly: nat, y: nat)
    requires StencilOk(points, n, r) && 2 * r < n <= y + 2 * r && lx < 2 * px && py > 0
    requires Computed(points, n, r, src, d0, d1, SweptBelow(n - 2 * r, px, py, lx, ly, y))
    ensures Computed(points, n, r, src, d0, d1, Swept(n - 2 * r, px, py, lx, ly))
  {
    hide Rem, Quot, Computed, ColumnAt, Covers;
    ComputedSame(points, n, r, src, d0, d1, SweptBelow(n - 2 * r, px, py, lx, ly, y), Swept(n - 2 * r, px, py, lx, ly));
  }

  /** The rows so far are all right, and so is the next one. */
  lemma {:induction false} RowsNext(m: nat, px: nat, py: nat, lx: nat, ly: nat, y0: nat)
    requires m > 0 && lx < 2 * px && py > 0 && Rem(y0, 2 * py) == ly
    requires forall y: nat | Starts(ly, 2 * py, y0, y) :: RowOk(m, 2 * px, ColumnAt(px, py, lx, y), y)
    requires RowOk(m, 2 * px, ColumnAt(px, py, lx, y0), y0)
    ensures forall y: nat | Starts(ly, 2 * py, y0 + 2 * py, y) :: RowOk(m, 2 * px, ColumnAt(px, py, lx, y), y)
  {
    hide Rem, Starts, RowOk, ColumnAt;
    forall y: nat | Starts(ly, 2 * py, y0 + 2 * py, y) ensures RowOk(m, 2 * px, ColumnAt(px, py, lx, y), y) {
      StartsNext(ly, 2 * py, y0, y);
    }
  }

  lemma {:induction false} BadRow(m: nat, px: nat, py: nat, lx: nat, ly: nat, y: nat)
    requires m > 0 && lx < 2 * px && py > 0 && Rem(y, 2 * py) == ly && y < m
    requires !RowOk(m, 2 * px, ColumnAt(px, py, lx, y), y)
    ensures !SweepOk(m, px, py, lx, ly)
  {
    hide Rem, RowOk, ColumnAt;
    assert Starts(ly, 2 * py, m, y);
  }

  lemma {:induction false} GoodRows(m: nat, px: nat, py: nat, lx: nat, ly: nat, y0: nat)
    requires 0 < m <= y0 && lx < 2 * px && py > 0
    requires forall y: nat | Starts(ly, 2 * py, y0, y) :: RowOk(m, 2 * px, ColumnAt(px, py, lx, y), y)
    ensures SweepOk(m, px, py, lx, ly)
  {
    hide RowOk, ColumnAt, Rem;
    forall y: nat | Starts(ly, 2 * py, m, y) ensures RowOk(m, 2 * px, ColumnAt(px, py, lx, y), y) {
      assert Starts(ly, 2 * py, y0, y);
    }
  }

  lemma {:induction false} ColumnIs(px: nat, py: nat, lx: nat, y: nat)
    requires lx < 2 * px && py > 0
    ensures ColumnAt(px, py, lx, y) == Turn(lx, Quot(y, 2 * py), px)
  {
    hide Turn, Quot;
  }

  /** A core that has come to row `y` of a time step it began with offsets `lx` and `ly`. */
  ghost predicate RowsSoFar(points: seq<Point>, n: nat, r: nat, px: nat, py: nat, lx: nat, ly: nat, src: Grid,
                            dst: Grid, y: nat, l: nat, dst': Grid)
    requires StencilOk(points, n, r) && 2 * r < n && lx < 2 * px && ly < 2 * py
  {
    && Rem(y, 2 * py) == ly && (Quot(y, 2 * py) > 0 ==> 2 * py <= y && y - 2 * py + 2 * r < n)
    && l == ColumnAt(px, py, lx, y)
    && Sized(n, src, dst') && Computed(points, n, r, src, dst, dst', SweptBelow(n - 2 * r, px, py, lx, ly, y))
    && forall y': nat | Starts(ly, 2 * py, y, y') :: RowOk(n - 2 * r, 2 * px, ColumnAt(px, py, lx, y'), y')
  }

  lemma {:induction false} RowsStart(points: seq<Point>, n: nat, r: nat, px: nat, py: nat, lx: nat, ly: nat, src: Grid,
                                     dst: Grid)
    requires StencilOk(points, n, r) && 2 * r < n && lx < 2 * px && ly < 2 * py && Sized(n, src, dst)
    ensures RowsSoFar(points, n, r, px, py, lx, ly, src, dst, ly, lx, dst)
  {
    SweepStart(points, n, r, src, dst, px, py, lx, ly);
    ColumnIs(px, py, lx, ly);
    TurnNone(lx, px);
    hide Rem, Quot, ColumnAt, Starts, Computed, SweptBelow, RowOk, Sized, StencilOk, Turn;
  }

  lemma {:induction false} RowsAdd(points: seq<Point>, n: nat, r: nat, px: nat, py: nat, lx: nat, ly: nat, src: Grid,
                                   dst: Grid, y: nat, l: nat, d1: Grid, d2: Grid)
    requires StencilOk(points, n, r) && 2 * r < n && lx < 2 * px && ly < 2 * py && y + 2 * r < n
    requires RowsSoFar(points, n, r, px, py, lx, ly, src, dst, y, l, d1) && Sized(n, src, d2)
    requires l < 2 * px && RowOk(n - 2 * r, 2 * px, l, y)
    requires Computed(points, n, r, src, d1, d2, RowBelow(y, l, 2 * px, n - 2 * r))
    ensures RowsSoFar(points, n, r, px, py, lx, ly, src, dst, y + 2 * py, Rotated(l, px), d2)
  {
    hide Rem, Quot, ColumnAt, Starts, Computed, SweptBelow, RowBelow, RowOk, Sized, StencilOk, Turn, Rotated;
    SweepNext(points, n, r, src, dst, d1, d2, px, py, lx, ly, y);
    RowsNext(n - 2 * r, px, py, lx, ly, y);
    OneMore(y, 2 * py);
    ColumnIs(px, py, lx, y);
    ColumnIs(px, py, lx, y + 2 * py);
    TurnOn(lx, Quot(y, 2 * py), px);
  }

  lemma {:induction false} RowsEnd(points: seq<Point>, n: nat, r: nat, px: nat, py: nat, lx: nat, ly: nat, src: Grid,
                                   dst: Grid, y: nat, l: nat, d: Grid)
    requires StencilOk(points, n, r) && 2 * r < n <= y + 2 * r && lx < 2 * px && ly < 2 * py
    requires RowsSoFar(points, n, r, px, py, lx, ly, src, dst, y, l, d)
    ensures Sized(n, src, d) && SweepOk(n - 2 * r, px, py, lx, ly)
    ensures Computed(points, n, r, src, dst, d, Swept(n - 2 * r, px, py, lx, ly))
    ensures l == Turn(lx, RowsOf(n - 2 * r, 2 * py, ly), px)
  {
    hide Rem, Quot, ColumnAt, Starts, Computed, SweptBelow, Swept, RowOk, Sized, StencilOk, Turn, RowsOf, SweepOk;
    GoodRows(n - 2 * r, px, py, lx, ly, y);
    SweepEnd(points, n, r, src, dst, d, px, py, lx, ly, y);
    RowsAre(n - 2 * r, 2 * py, ly, y);
    ColumnIs(px, py, lx, y);
  }

  lemma {:induction false} RowsParts(points: seq<Point>, n: nat, r: nat, px: nat, py: nat, lx: nat, ly: nat, src: Grid,
                                     dst: Grid, y: nat, l: nat, d: Grid)
    requires StencilOk(points, n, r) && 2 * r < n && lx < 2 * px && ly < 2 * py
    requires RowsSoFar(points, n, r, px, py, lx, ly, src, dst, y, l, d)
    ensures Sized(n, src, d) && Rem(y, 2 * py) == ly && l == ColumnAt(px, py, lx, y) < 2 * px
  {
    hide Rem, Quot, ColumnAt, Starts, Computed, SweptBelow, RowOk, Sized, StencilOk;
  }

  /** One core, one time step (lines 449-479); `ok` tells that no block sticks out. */
  method IssrSweep(ghost points: seq<Point>, n: nat, r: nat, px: nat, py: nat, i0: seq<nat>, i1: seq<nat>,
                   ca: seq<real>, at: nat, lx: nat, ly: nat, src: Grid, dst: Grid)
    returns (dst': Grid, lx': nat, ly': nat, ok: bool)
    requires SetupOk(points, n, r, i0, i1, ca, at) && Sized(n, src, dst) && lx < 2 * px && ly < 2 * py
    ensures 2 * r < n && Sized(n, src, dst') && (ok <==> SweepOk(n - 2 * r, px, py, lx, ly))
    ensures ok ==> Computed(points, n, r, src, dst, dst', Swept(n - 2 * r, px, py, lx, ly))
    ensures ok ==> lx' == Turn(lx, RowsOf(n - 2 * r, 2 * py, ly), px) && ly' == Rotated(ly, py)
  {
    SetupParts(points, n, r, i0, i1, ca, at);
    hide *;
    var jmpy := 2 * py;
    dst', lx', ly' := dst, lx, ly;
    var y: nat := ly;
    RowsStart(points, n, r, px, py, lx, ly, src, dst);
    while y + 2 * r < n
      invariant RowsSoFar(points, n, r, px, py, lx, ly, src, dst, y, lx', dst')
    {
      RowsParts(points, n, r, px, py, lx, ly, src, dst, y, lx', dst');
      var d, fine, left := IssrRow(points, n, r, px, i0, i1, ca, at, y, lx', src, dst');
      if !fine {
        BadRow(n - 2 * r, px, py, lx, ly, y);
        return d, lx', ly', false;
      }
      RowsAdd(points, n, r, px, py, lx, ly, src, dst, y, lx', dst', d);
      dst' := d;
      lx' := Rotated(lx', px);
      y := y + jmpy;
    }
    ok := true;
    RowsEnd(points, n, r, px, py, lx, ly, src, dst, y, lx', dst');
    ly' := Rotated(ly, py);
  }
}
