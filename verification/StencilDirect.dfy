/**
 The direct kernels (sw/saris/stencils/istc.par.hpp:97-138): each core visits the
 interior cells of its residue class and accumulates the stencil by plain loops.
 */
module StencilDirect {
  import opened Arithmetic
  import opened Stencil

  /** The two families of kernels, which differ only in what one cell accumulates. */
  datatype Kernel = StarKernel(s: Star) | BoxKernel(c: seq<seq<real>>)

  ghost predicate KernelOk(k: Kernel, n: nat, r: nat) {
    && 2 * r < n
    && match k case StarKernel(s) => StarOk(s, r) case BoxKernel(c) => BoxOk(c, r)
  }

  /** The points of a kernel in the order of the index tables. */
  ghost function Points(k: Kernel, n: nat, r: nat): (p: seq<Point>)
    requires KernelOk(k, n, r)
    ensures StencilOk(p, n, r)
  {
    match k
    case StarKernel(s) => StarStencilOk(s, n, r, r); StarPoints(s, n, r, r)
    case BoxKernel(c) => BoxStencilOk(c, n, r, 2 * r + 1); BoxPoints(c, n, 2 * r + 1)
  }

  // ----- one cell

  lemma {:induction false} SumPrefix(p: seq<Point>, q: seq<Point>, g: Grid, base: nat, k: nat)
    requires k <= |p| && InGrid(p + q, g, base)
    ensures InGrid(p, g, base) && Sum(p + q, g, base, k) == Sum(p, g, base, k)
  {
    forall i | 0 <= i < |p| ensures base + p[i].off < |g| {
      assert (p + q)[i] == p[i];
    }
    if k > 0 {
      SumPrefix(p, q, g, base, k - 1);
    }
  }

  /** A ring adds its four points. */
  lemma {:induction false} SumRing(s: Star, n: nat, r: nat, j: nat, g: Grid, base: nat)
    requires StarOk(s, r) && 1 <= j <= r && 2 * r < n && InGrid(StarPoints(s, n, r, j), g, base)
    ensures InGrid(StarPoints(s, n, r, j - 1), g, base) && j * n <= r * n
    ensures base + (r * n + r) + j * n < |g| && base + (r * n + r) + j < |g|
    ensures Sum(StarPoints(s, n, r, j), g, base, 1 + 4 * j)
            == Sum(StarPoints(s, n, r, j - 1), g, base, 4 * j - 3)
               + s.ym[j - 1] * g[base + (r * n + r) - j * n] + s.xm[j - 1] * g[base + (r * n + r) - j]
               + s.xp[j - 1] * g[base + (r * n + r) + j] + s.yp[j - 1] * g[base + (r * n + r) + j * n]
  {
    CenterReaches(n, r, j);
    var p, q := StarPoints(s, n, r, j - 1), StarRing(s, n, r, j);
    var m := 4 * j - 3;
    SumPrefix(p, q, g, base, m);
    var a := p + q;
    assert a[m] == q[0] && a[m + 1] == q[1] && a[m + 2] == q[2] && a[m + 3] == q[3];
    assert base + a[m].off < |g| && base + a[m + 1].off < |g| && base + a[m + 2].off < |g| && base + a[m + 3].off < |g|;
    SumFour(a, g, base, m);
  }

  lemma {:induction false} SumFour(a: seq<Point>, g: Grid, base: nat, m: nat)
    requires m + 4 == |a| && InGrid(a, g, base)
    ensures Sum(a, g, base, m + 4)
            == Sum(a, g, base, m) + a[m].coef * g[base + a[m].off] + a[m + 1].coef * g[base + a[m + 1].off]
               + a[m + 2].coef * g[base + a[m + 2].off] + a[m + 3].coef * g[base + a[m + 3].off]
  {
    assert Sum(a, g, base, m + 1) == Sum(a, g, base, m) + a[m].coef * g[base + a[m].off];
    assert Sum(a, g, base, m + 2) == Sum(a, g, base, m + 1) + a[m + 1].coef * g[base + a[m + 1].off];
    assert Sum(a, g, base, m + 3) == Sum(a, g, base, m + 2) + a[m + 2].coef * g[base + a[m + 2].off];
    assert Sum(a, g, base, m + 4) == Sum(a, g, base, m + 3) + a[m + 3].coef * g[base + a[m + 3].off];
  }

  lemma {:induction false} RingInGrid(s: Star, n: nat, r: nat, j: nat, g: Grid, base: nat)
    requires StarOk(s, r) && j <= r && InGrid(StarPoints(s, n, r, r), g, base)
    ensures InGrid(StarPoints(s, n, r, j), g, base)
    decreases r - j
  {
    if j < r {
      RingInGrid(s, n, r, j + 1, g, base);
      var p, q := StarPoints(s, n, r, j), StarRing(s, n, r, j + 1);
      forall i | 0 <= i < |p| ensures base + p[i].off < |g| {
        assert (p + q)[i] == p[i];
      }
    }
  }

  lemma {:induction false} CenterSum(s: Star, n: nat, r: nat, g: Grid, base: nat)
    requires StarOk(s, r) && InGrid(StarPoints(s, n, r, 0), g, base)
    ensures base + (r * n + r) < |g| && Sum(StarPoints(s, n, r, 0), g, base, 1) == s.cc * g[base + (r * n + r)]
  {
    var p := StarPoints(s, n, r, 0);
    assert base + p[0].off < |g|;
    assert Sum(p, g, base, 0) == 0.0;
  }

  /** The body of istcp_an5d_star2dXr (lines 105-112); `c` is the cell's address. */
  method StarCell(s: Star, n: nat, r: nat, g: Grid, ghost base: nat, c: nat) returns (acc: real)
    requires StarOk(s, r) && 2 * r < n && c == base + (r * n + r) && InGrid(StarPoints(s, n, r, r), g, base)
    ensures acc == Sum(StarPoints(s, n, r, r), g, base, 1 + 4 * r)
  {
    hide StarPoints, Sum, InGrid;
    RingInGrid(s, n, r, 0, g, base);
    CenterSum(s, n, r, g, base);
    acc := s.cc * g[c];
    for dr := 0 to r
      invariant InGrid(StarPoints(s, n, r, dr), g, base)
      invariant acc == Sum(StarPoints(s, n, r, dr), g, base, 1 + 4 * dr)
    {
      var j := dr + 1;
      RingInGrid(s, n, r, j, g, base);
      SumRing(s, n, r, j, g, base);
      acc := acc + s.xm[dr] * g[c - j];
      acc := acc + s.xp[dr] * g[c + j];
      acc := acc + s.ym[dr] * g[c - j * n];
      acc := acc + s.yp[dr] * g[c + j * n];
    }
  }

  lemma {:induction false} SumStep(p: seq<Point>, g: Grid, base: nat, k: nat)
    requires k < |p| && InGrid(p, g, base)
    ensures base + p[k].off < |g| && Sum(p, g, base, k + 1) == Sum(p, g, base, k) + p[k].coef * g[base + p[k].off]
  {
  }

  /** Point `x` of row `y` of a box. */
  lemma {:induction false} BoxAt(c: seq<seq<real>>, n: nat, r: nat, k: nat, y: nat, x: nat)
    requires BoxOk(c, r) && y < k <= |c| && x < 2 * r + 1
    ensures y * (2 * r + 1) + x < |BoxPoints(c, n, k)| == k * (2 * r + 1)
    ensures BoxPoints(c, n, k)[y * (2 * r + 1) + x] == Point(y * n + x, c[y][x])
  {
    BoxLength(c, n, r, k);
    BoxLength(c, n, r, k - 1);
    MulStep(y, k, 2 * r + 1);
    if y + 1 < k {
      BoxAt(c, n, r, k - 1, y, x);
    }
  }

  lemma {:induction false} BoxLength(c: seq<seq<real>>, n: nat, r: nat, k: nat)
    requires BoxOk(c, r) && k <= |c|
    ensures |BoxPoints(c, n, k)| == k * (2 * r + 1)
  {
    if k > 0 {
      BoxLength(c, n, r, k - 1);
      Distribute(2 * r + 1, k - 1, 1);
    }
  }

  /** The body of istcp_an5d_box2dXr (lines 128-133); `c0` is the address of the corner. */
  method BoxCell(c: seq<seq<real>>, n: nat, r: nat, g: Grid, base: nat) returns (acc: real)
    requires BoxOk(c, r) && 2 * r < n && InGrid(BoxPoints(c, n, 2 * r + 1), g, base)
    ensures |BoxPoints(c, n, 2 * r + 1)| == (2 * r + 1) * (2 * r + 1)
    ensures acc == Sum(BoxPoints(c, n, 2 * r + 1), g, base, (2 * r + 1) * (2 * r + 1))
  {
    hide BoxPoints, Sum, InGrid;
    ghost var w := 2 * r + 1;
    ghost var p := BoxPoints(c, n, w);
    BoxLength(c, n, r, w);
    acc := 0.0;
    SumNothing(p, g, base);
    for y := 0 to 2 * r + 1
      invariant y * w <= |p| && acc == Sum(p, g, base, y * w)
    {
      MulStep(y, w, w);
      for x := 0 to 2 * r + 1
        invariant y * w + x <= |p| && acc == Sum(p, g, base, y * w + x)
      {
        BoxAt(c, n, r, w, y, x);
        SumStep(p, g, base, y * w + x);
        acc := acc + c[y][x] * g[base + (y * n + x)];
      }
      Distribute(w, y, 1);
    }
  }

  lemma {:induction false} SumNothing(p: seq<Point>, g: Grid, base: nat)
    requires InGrid(p, g, base)
    ensures Sum(p, g, base, 0) == 0.0
  {
  }

  /** What a kernel computes for the cell whose stencil has its corner at `y`, `x`. */
  method CellValue(k: Kernel, n: nat, r: nat, g: Grid, y: nat, x: nat) returns (v: real)
    requires KernelOk(k, n, r) && |g| == n * n && y + 2 * r < n && x + 2 * r < n
    ensures v == Value(Points(k, n, r), n, r, g, y, x)
  {
    hide Sum, StarPoints, BoxPoints;
    Reach(Points(k, n, r), n, r, g, y, x);
    match k {
      case StarKernel(s) => v := StarCell(s, n, r, g, y * n + x, y * n + x + (r * n + r));
      case BoxKernel(c) => v := BoxCell(c, n, r, g, y * n + x);
    }
  }

  // ----- one core, one time step

  /** Writing one computed cell. */
  lemma {:induction false} SetCell(points: seq<Point>, n: nat, r: nat, src: Grid, d0: Grid, d1: Grid, y: nat, x: nat,
                                   v: real,
                                   p: (nat, nat) -> bool)
    requires StencilOk(points, n, r) && Computed(points, n, r, src, d0, d1, p) && y + 2 * r < n && x + 2 * r < n
    requires v == Value(points, n, r, src, y, x)
    ensures Cell(n, y + r, x + r) < |d1|
    ensures Computed(points, n, r, src, d0, d1[Cell(n, y + r, x + r) := v], (y': nat, x': nat) => p(y', x')
            || (y' == y && x' == x))
  {
    hide Value, Cell;
    CellFits(n, y + r, x + r);
    var d2 := d1[Cell(n, y + r, x + r) := v];
    forall y': nat, x': nat | y' < n && x' < n
      ensures At(d2, n, y', x') == if y' == y + r && x' == x + r then v else At(d1, n, y', x')
    {
      CellFits(n, y', x');
      CellInjective(n, y + r, x + r, y', x');
    }
    hide At;
  }

  /** Between two members of a residue class a step apart there is none. */
  lemma {:induction false} NextInClass(a: nat, step: nat, x: nat)
    requires step > 0
    ensures Rem(a + step, step) == Rem(a, step) && Quot(a + step, step) == Quot(a, step) + 1
    ensures a < x < a + step ==> Rem(x, step) != Rem(a, step)
  {
    hide Quot, Rem;
    QuotRem(a, step);
    QuotRem(x, step);
    Distribute(step, Quot(a, step), 1);
    Unique(a + step, step, Quot(a, step) + 1, Rem(a, step));
    MulStep(Quot(a, step), Quot(x, step), step);
    MulStep(Quot(x, step), Quot(a, step), step);
  }

  lemma {:induction false} BelowFirst(a: nat, step: nat, x: nat)
    requires a < step
    ensures Rem(a, step) == a && (x < a ==> Rem(x, step) != a)
  {
    hide Quot, Rem;
    Unique(a, step, 0, a);
    if x < a {
      Unique(x, step, 0, x);
    }
  }

  /** The cells of core (`ix`, `iy`). */
  function Strided(px: nat, py: nat, ix: nat, iy: nat): (nat, nat) -> bool
    requires px > 0 && py > 0
  {
    (y: nat, x: nat) => Rem(y, py) == iy && Rem(x, px) == ix
  }

  /** A row up to column `x0`. */
  function RowPart(px: nat, ix: nat, row: nat, x0: nat): (nat, nat) -> bool
    requires px > 0
  {
    (y: nat, x: nat) => y == row && Rem(x, px) == ix && x < x0
  }

  /** One row of a core (lines 104 and 127). */
  method DirectRow(k: Kernel, n: nat, r: nat, px: nat, ix: nat, row: nat, src: Grid, dst: Grid) returns (dst': Grid)
    requires KernelOk(k, n, r) && |src| == |dst| == n * n && ix < px && row + 2 * r < n
    ensures Computed(Points(k, n, r), n, r, src, dst, dst', RowPart(px, ix, row, n - 2 * r))
  {
    hide Points, Value, At, Cell, Quot, Rem;
    ghost var points := Points(k, n, r);
    dst' := dst;
    var x := ix;
    BelowFirst(ix, px, 0);
    forall x': nat ensures x' < ix ==> Rem(x', px) != ix {
      BelowFirst(ix, px, x');
    }
    ComputedNone(points, n, r, src, dst, RowPart(px, ix, row, ix));
    while x + 2 * r < n
      invariant Rem(x, px) == ix
      invariant Computed(points, n, r, src, dst, dst', RowPart(px, ix, row, x))
    {
      var v := CellValue(k, n, r, src, row, x);
      ghost var p := RowPart(px, ix, row, x);
      SetCell(points, n, r, src, dst, dst', row, x, v, p);
      dst' := dst'[CellOf(n, row + r, x + r) := v];
      forall x': nat ensures Rem(x', px) == ix && x' < x + px ==> x' <= x {
        NextInClass(x, px, x');
      }
      NextInClass(x, px, 0);
      ComputedSame(points, n, r, src, dst, dst', (y': nat, x': nat) => p(y', x')
          || (y' == row && x' == x), RowPart(px, ix, row, x + px));
      x := x + px;
    }
    ComputedSame(points, n, r, src, dst, dst', RowPart(px, ix, row, x), RowPart(px, ix, row, n - 2 * r));
  }

  /** `&A[y][x]` */
  function CellOf(n: nat, y: nat, x: nat): (c: nat)
    ensures c == Cell(n, y, x)
  {
    y * n + x
  }

  function RowsBelow(px: nat, py: nat, ix: nat, iy: nat, y0: nat): (nat, nat) -> bool
    requires px > 0 && py > 0
  {
    (y: nat, x: nat) => Rem(y, py) == iy && Rem(x, px) == ix && y < y0
  }

  /** All rows of a core in one time step (lines 103-114 and 126-135). */
  method DirectSweep(k: Kernel, n: nat, r: nat, px: nat, py: nat, ix: nat, iy: nat, src: Grid, dst: Grid)
    returns (dst': Grid)
    requires KernelOk(k, n, r) && |src| == |dst| == n * n && ix < px && iy < py
    ensures Computed(Points(k, n, r), n, r, src, dst, dst', Strided(px, py, ix, iy))
  {
    hide Points, Value, At, Cell, Quot, Rem, Computed;
    ghost var points := Points(k, n, r);
    dst' := dst;
    var y := iy;
    BelowFirst(iy, py, 0);
    forall y': nat ensures y' < iy ==> Rem(y', py) != iy {
      BelowFirst(iy, py, y');
    }
    ComputedNone(points, n, r, src, dst, RowsBelow(px, py, ix, iy, iy));
    while y + 2 * r < n
      invariant Rem(y, py) == iy && |dst'| == n * n
      invariant Computed(points, n, r, src, dst, dst', RowsBelow(px, py, ix, iy, y))
    {
      var d := DirectRow(k, n, r, px, ix, y, src, dst');
      ghost var p, q := RowsBelow(px, py, ix, iy, y), RowPart(px, ix, y, n - 2 * r);
      ComputedBoth(points, n, r, src, dst, dst', d, p, q);
      dst' := d;
      forall y': nat ensures Rem(y', py) == iy && y' < y + py ==> y' <= y {
        NextInClass(y, py, y');
      }
      NextInClass(y, py, 0);
      ComputedSame(points, n, r, src, dst, dst', (y': nat, x': nat) => p(y', x')
          || q(y', x'), RowsBelow(px, py, ix, iy, y + py));
      ComputedLength(points, n, r, src, dst, dst', RowsBelow(px, py, ix, iy, y + py));
      y := y + py;
    }
    ComputedSame(points, n, r, src, dst, dst', RowsBelow(px, py, ix, iy, y), Strided(px, py, ix, iy));
  }

  lemma {:induction false} ComputedLength(points: seq<Point>, n: nat, r: nat, src: Grid, d0: Grid, d1: Grid,
                                          p: (nat, nat) -> bool)
    requires StencilOk(points, n, r) && Computed(points, n, r, src, d0, d1, p)
    ensures |src| == |d0| == |d1| == n * n
  {
  }

  // ----- all cores, all time steps

  /** The order in which the cores happen to do their part of a time step: each core exactly once. */
  ghost predicate Order(order: seq<nat>, cores: nat) {
    && (forall c: nat :: c in order <==> c < cores)
    && forall i, j | 0 <= i < j < |order| :: order[i] != order[j]
  }

  /** KNL_IDS: the position of a core in the grid of cores. */
  function CoreX(cid: nat, px: nat): nat
    requires px > 0
  {
    Rem(cid, px)
  }

  function CoreY(cid: nat, px: nat, py: nat): nat
    requires px > 0 && py > 0
  {
    Rem(Quot(cid, px), py)
  }

  lemma {:induction false} CoreIds(cid: nat, px: nat, py: nat, ix: nat, iy: nat)
    requires px > 0 && py > 0 && cid < px * py && ix < px && iy < py
    ensures CoreX(cid, px) < px && CoreY(cid, px, py) < py
    ensures iy * px + ix < px * py
    ensures CoreX(cid, px) == ix && CoreY(cid, px, py) == iy <==> cid == iy * px + ix
  {
    hide Quot, Rem;
    QuotBelow(cid, px, py);
    Unique(Quot(cid, px), py, 0, Quot(cid, px));
    QuotRem(cid, px);
    Unique(iy * px + ix, px, iy, ix);
    MulStep(iy, py, px);
    Commute(px, py);
  }

  /** The core that owns a cell. */
  function Owner(px: nat, py: nat, y: nat, x: nat): nat
    requires px > 0 && py > 0
  {
    Rem(y, py) * px + Rem(x, px)
  }

  /** Cells whose owner, given by `owner`, is among some cores. */
  function OwnedBy(owner: (nat, nat) -> nat, cores: seq<nat>): (nat, nat) -> bool {
    (y: nat, x: nat) => owner(y, x) in cores
  }

  /** One time step of all cores. */
  method DirectStep(k: Kernel, n: nat, r: nat, px: nat, py: nat, order: seq<nat>, src: Grid, dst: Grid)
    returns (dst': Grid)
    requires KernelOk(k, n, r) && |src| == |dst| == n * n && px > 0 && py > 0 && Order(order, px * py)
    ensures Stepped(Points(k, n, r), n, r, src, dst, dst')
  {
    hide Points, Computed, Quot, Rem, CoreX, CoreY;
    ghost var points := Points(k, n, r);
    ghost var owner := (y: nat, x: nat) => Owner(px, py, y, x);
    dst' := dst;
    ComputedNone(points, n, r, src, dst, OwnedBy(owner, order[..0]));
    for i := 0 to |order|
      invariant |dst'| == n * n && Computed(points, n, r, src, dst, dst', OwnedBy(owner, order[..i]))
    {
      var cid := order[i];
      assert cid in order;
      CoreIds(cid, px, py, 0, 0);
      var d := DirectSweep(k, n, r, px, py, CoreX(cid, px), CoreY(cid, px, py), src, dst');
      ghost var p, q := OwnedBy(owner, order[..i]), Strided(px, py, CoreX(cid, px), CoreY(cid, px, py));
      ComputedBoth(points, n, r, src, dst, dst', d, p, q);
      assert order[..i + 1] == order[..i] + [cid];
      forall y: nat, x: nat ensures q(y, x) <==> owner(y, x) == cid {
        CoreIds(cid, px, py, Rem(x, px), Rem(y, py));
      }
      ComputedSame(points, n, r, src, dst, d, (y: nat, x: nat) => p(y, x) || q(y, x), OwnedBy(owner, order[..i + 1]));
      ComputedLength(points, n, r, src, dst, d, OwnedBy(owner, order[..i + 1]));
      dst' := d;
    }
    assert order[..|order|] == order;
    forall y: nat, x: nat ensures owner(y, x) in order {
      CoreIds(0, px, py, Rem(x, px), Rem(y, py)) by { CoresExist(px, py); }
    }
    ComputedSame(points, n, r, src, dst, dst', OwnedBy(owner, order), (y: nat, x: nat) => true);
  }

  lemma {:induction false} CoresExist(px: nat, py: nat)
    requires px > 0 && py > 0
    ensures px * py > 0
  {
  }

  /** istcp_an5d_star2dXr and istcp_an5d_box2dXr on all cores, with a barrier after every time step. */
  method DirectKernel(k: Kernel, n: nat, r: nat, px: nat, py: nat, orders: seq<seq<nat>>, a0: Grid, a1: Grid)
    returns (b0: Grid, b1: Grid, ghost grids: seq<(Grid, Grid)>)
    requires KernelOk(k, n, r) && |a0| == |a1| == n * n && px > 0 && py > 0
    requires forall t | 0 <= t < |orders| :: Order(orders[t], px * py)
    ensures |grids| == |orders| + 1 && grids[0] == (a0, a1) && grids[|orders|] == (b0, b1)
    ensures Evolves(Points(k, n, r), n, r, grids)
  {
    hide Points, Stepped, Order;
    b0, b1 := a0, a1;
    grids := [(a0, a1)];
    for t := 0 to |orders|
      invariant |grids| == t + 1 && grids[0] == (a0, a1) && grids[t] == (b0, b1)
      invariant Evolves(Points(k, n, r), n, r, grids)
    {
      if t % 2 == 0 {
        var d := DirectStep(k, n, r, px, py, orders[t], b0, b1);
        SteppedLength(Points(k, n, r), n, r, b0, b1, d);
        b1 := d;
      } else {
        var d := DirectStep(k, n, r, px, py, orders[t], b1, b0);
        SteppedLength(Points(k, n, r), n, r, b1, b0, d);
        b0 := d;
      }
      grids := grids + [(b0, b1)];
    }
  }

  lemma {:induction false} SteppedLength(points: seq<Point>, n: nat, r: nat, src: Grid, d0: Grid, d1: Grid)
    requires StencilOk(points, n, r) && Stepped(points, n, r, src, d0, d1)
    ensures |src| == |d0| == |d1| == n * n
  {
  }
}
