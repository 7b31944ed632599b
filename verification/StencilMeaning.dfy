/**
 What a time step means in the plane: a star weighs the cells up to `r` above,
 below, left and right of a cell, a box the square of cells around it.
 */
module StencilMeaning {
  import opened Arithmetic
  import opened Stencil
  import opened StencilDirect

  /** The four cells at distance `j` from `y`, `x`. */
  ghost function RingAround(s: Star, n: nat, r: nat, g: Grid, y: nat, x: nat, j: nat): real
    requires StarOk(s, r) && |g| == n * n && Interior(n, r, y, x) && 1 <= j <= r
  {
    s.xm[j - 1] * At(g, n, y, x - j) + s.xp[j - 1] * At(g, n, y, x + j)
    + s.ym[j - 1] * At(g, n, y - j, x) + s.yp[j - 1] * At(g, n, y + j, x)
  }

  /** The cell at `y`, `x` and its neighbours up to distance `j`. */
  ghost function StarAround(s: Star, n: nat, r: nat, g: Grid, y: nat, x: nat, j: nat): real
    requires StarOk(s, r) && |g| == n * n && Interior(n, r, y, x) && j <= r
  {
    if j == 0 then s.cc * At(g, n, y, x)
    else StarAround(s, n, r, g, y, x, j - 1) + RingAround(s, n, r, g, y, x, j)
  }

  /** The first `m` cells of a row from column `left` on. */
  ghost function RowAround(c: seq<real>, n: nat, g: Grid, row: nat, left: nat, m: nat): real
    requires |g| == n * n && row < n && m <= |c| && left + m <= n
  {
    if m == 0 then 0.0 else RowAround(c, n, g, row, left, m - 1) + c[m - 1] * At(g, n, row, left + (m - 1))
  }

  /** The first `k` rows of the square around `y`, `x`. */
  ghost function BoxAround(c: seq<seq<real>>, n: nat, r: nat, g: Grid, y: nat, x: nat, k: nat): real
    requires BoxOk(c, r) && |g| == n * n && Interior(n, r, y, x) && k <= |c|
  {
    if k == 0 then 0.0
    else BoxAround(c, n, r, g, y, x, k - 1) + RowAround(c[k - 1], n, g, y - r + (k - 1), x - r, 2 * r + 1)
  }

  ghost function Around(k: Kernel, n: nat, r: nat, g: Grid, y: nat, x: nat): real
    requires KernelOk(k, n, r) && |g| == n * n && Interior(n, r, y, x)
  {
    match k
    case StarKernel(s) => StarAround(s, n, r, g, y, x, r)
    case BoxKernel(c) => BoxAround(c, n, r, g, y, x, 2 * r + 1)
  }

  // ----- addresses

  /** `j` rows down, and `i` columns to the right. */
  lemma {:induction false} Down(n: nat, y: nat, x: nat, j: nat, i: nat)
    ensures Cell(n, y, x) + (j * n + i) == Cell(n, y + j, x + i)
  {
    Distribute(n, y, j);
  }

  /** The center `c` and the offset `jn` of `j` rows. */
  ghost predicate RingIs(n: nat, r: nat, g: Grid, y: nat, x: nat, j: nat, c: nat, jn: nat)
    requires |g| == n * n && Interior(n, r, y, x) && j <= r
  {
    && jn <= c && c + jn < |g| && j <= c && c + j < |g|
    && g[c] == At(g, n, y, x) && g[c - j] == At(g, n, y, x - j) && g[c + j] == At(g, n, y, x + j)
    && g[c - jn] == At(g, n, y - j, x) && g[c + jn] == At(g, n, y + j, x)
  }

  lemma {:induction false} StarAddresses(n: nat, r: nat, g: Grid, y: nat, x: nat, j: nat)
    requires |g| == n * n && Interior(n, r, y, x) && j <= r
    ensures j * n <= r * n
    ensures RingIs(n, r, g, y, x, j, Cell(n, y - r, x - r) + (r * n + r), j * n)
  {
    hide Cell;
    CenterReaches(n, r, j);
    Down(n, y - r, x - r, r, r);
    Down(n, y - j, x, j, 0);
    Down(n, y, x, j, 0);
    Down(n, y, x - j, 0, j);
    Down(n, y, x, 0, j);
    CellFits(n, y + j, x);
    CellFits(n, y, x + j);
  }

  // ----- stars

  /** A ring of addresses is a ring of cells. */
  lemma {:induction false} RingCells(s: Star, n: nat, r: nat, g: Grid, y: nat, x: nat, j: nat, c: nat, jn: nat)
    requires StarOk(s, r) && |g| == n * n && Interior(n, r, y, x) && 1 <= j <= r
    requires RingIs(n, r, g, y, x, j, c, jn)
    ensures s.ym[j - 1] * g[c - jn] + s.xm[j - 1] * g[c - j] + s.xp[j - 1] * g[c + j] + s.yp[j - 1] * g[c + jn]
            == RingAround(s, n, r, g, y, x, j)
  {
    hide Cell, At;
  }

  /** The center and the rings up to distance `j` add up to the cells around. */
  ghost predicate StarSoFar(s: Star, n: nat, r: nat, g: Grid, y: nat, x: nat, j: nat)
    requires StarOk(s, r) && |g| == n * n && Interior(n, r, y, x) && j <= r
  {
    && InGrid(StarPoints(s, n, r, j), g, Cell(n, y - r, x - r))
    && Sum(StarPoints(s, n, r, j), g, Cell(n, y - r, x - r), 1 + 4 * j) == StarAround(s, n, r, g, y, x, j)
  }

  lemma {:induction false} StarStart(s: Star, n: nat, r: nat, g: Grid, y: nat, x: nat)
    requires StarOk(s, r) && 2 * r < n && |g| == n * n && Interior(n, r, y, x)
    requires InGrid(StarPoints(s, n, r, 0), g, Cell(n, y - r, x - r))
    ensures StarSoFar(s, n, r, g, y, x, 0)
  {
    hide Cell, At, Sum, StarPoints, InGrid;
    CenterSum(s, n, r, g, Cell(n, y - r, x - r));
    StarAddresses(n, r, g, y, x, 0);
  }

  lemma {:induction false} RingMeans(s: Star, n: nat, r: nat, g: Grid, y: nat, x: nat, j: nat)
    requires StarOk(s, r) && 2 * r < n && |g| == n * n && Interior(n, r, y, x) && 1 <= j <= r
    requires InGrid(StarPoints(s, n, r, j), g, Cell(n, y - r, x - r))
    ensures InGrid(StarPoints(s, n, r, j - 1), g, Cell(n, y - r, x - r))
    ensures Sum(StarPoints(s, n, r, j), g, Cell(n, y - r, x - r), 1 + 4 * j)
            == Sum(StarPoints(s, n, r, j - 1), g, Cell(n, y - r, x - r), 4 * j - 3) + RingAround(s, n, r, g, y, x, j)
  {
    hide Cell, At, Sum, StarPoints, InGrid, RingAround, RingIs;
    SumRing(s, n, r, j, g, Cell(n, y - r, x - r));
    StarAddresses(n, r, g, y, x, j);
    RingCells(s, n, r, g, y, x, j, Cell(n, y - r, x - r) + (r * n + r), j * n);
  }

  lemma {:induction false} StarNext(s: Star, n: nat, r: nat, g: Grid, y: nat, x: nat, j: nat)
    requires StarOk(s, r) && 2 * r < n && |g| == n * n && Interior(n, r, y, x) && 1 <= j <= r
    requires InGrid(StarPoints(s, n, r, j), g, Cell(n, y - r, x - r)) && StarSoFar(s, n, r, g, y, x, j - 1)
    ensures StarSoFar(s, n, r, g, y, x, j)
  {
    hide Cell, At, Sum, StarPoints, InGrid, RingAround;
    RingMeans(s, n, r, g, y, x, j);
  }

  lemma {:induction false} StarSum(s: Star, n: nat, r: nat, g: Grid, y: nat, x: nat, j: nat)
    requires StarOk(s, r) && 2 * r < n && |g| == n * n && Interior(n, r, y, x) && j <= r
    requires InGrid(StarPoints(s, n, r, r), g, Cell(n, y - r, x - r))
    ensures StarSoFar(s, n, r, g, y, x, j)
  {
    hide Cell, At, Sum, StarPoints, InGrid, StarSoFar, StarAround;
    RingInGrid(s, n, r, j, g, Cell(n, y - r, x - r));
    if j == 0 {
      StarStart(s, n, r, g, y, x);
    } else {
      StarSum(s, n, r, g, y, x, j - 1);
      StarNext(s, n, r, g, y, x, j);
    }
  }

  // ----- boxes

  lemma {:induction false} BoxAddress(n: nat, r: nat, g: Grid, y: nat, x: nat, k: nat, m: nat)
    requires |g| == n * n && Interior(n, r, y, x) && k <= 2 * r && m <= 2 * r
    ensures var a := Cell(n, y - r, x - r) + (k * n + m); a < |g| && g[a] == At(g, n, y - r + k, x - r + m)
  {
    hide Cell;
    Down(n, y - r, x - r, k, m);
    CellFits(n, y - r + k, x - r + m);
  }

  lemma {:induction false} BoxTerm(c: seq<seq<real>>, n: nat, r: nat, g: Grid, y: nat, x: nat, k: nat, m: nat)
    requires BoxOk(c, r) && |g| == n * n && Interior(n, r, y, x) && k <= 2 * r && m <= 2 * r
    requires InGrid(BoxPoints(c, n, 2 * r + 1), g, Cell(n, y - r, x - r))
    ensures var (p, base, i) := (BoxPoints(c, n, 2 * r + 1), Cell(n, y - r, x - r), k * (2 * r + 1) + m);
            && i < |p|
            && Sum(p, g, base, i + 1) == Sum(p, g, base, i) + c[k][m] * At(g, n, y - r + k, x - r + m)
  {
    hide Cell, InGrid, BoxPoints, At, Sum;
    BoxAt(c, n, r, 2 * r + 1, k, m);
    BoxAddress(n, r, g, y, x, k, m);
    SumStep(BoxPoints(c, n, 2 * r + 1), g, Cell(n, y - r, x - r), k * (2 * r + 1) + m);
  }

  /** The first `k` rows and `m` points of the next add up to the cells around. */
  ghost predicate BoxSoFar(c: seq<seq<real>>, n: nat, r: nat, g: Grid, y: nat, x: nat, k: nat, m: nat)
    requires BoxOk(c, r) && |g| == n * n && Interior(n, r, y, x) && k <= 2 * r && m <= 2 * r + 1
  {
    var (p, base, i) := (BoxPoints(c, n, 2 * r + 1), Cell(n, y - r, x - r), k * (2 * r + 1) + m);
    && InGrid(p, g, base) && i <= |p|
    && Sum(p, g, base, i) == BoxAround(c, n, r, g, y, x, k) + RowAround(c[k], n, g, y - r + k, x - r, m)
  }

  lemma {:induction false} BoxStart(c: seq<seq<real>>, n: nat, r: nat, g: Grid, y: nat, x: nat)
    requires BoxOk(c, r) && |g| == n * n && Interior(n, r, y, x)
    requires InGrid(BoxPoints(c, n, 2 * r + 1), g, Cell(n, y - r, x - r))
    ensures BoxSoFar(c, n, r, g, y, x, 0, 0)
  {
    hide Cell, InGrid, Sum, BoxPoints, At;
    SumNothing(BoxPoints(c, n, 2 * r + 1), g, Cell(n, y - r, x - r));
  }

  lemma {:induction false} BoxNextPoint(c: seq<seq<real>>, n: nat, r: nat, g: Grid, y: nat, x: nat, k: nat, m: nat)
    requires BoxOk(c, r) && |g| == n * n && Interior(n, r, y, x) && k <= 2 * r && m <= 2 * r
    requires BoxSoFar(c, n, r, g, y, x, k, m)
    ensures BoxSoFar(c, n, r, g, y, x, k, m + 1)
  {
    hide Cell, InGrid, Sum, BoxPoints, At;
    BoxTerm(c, n, r, g, y, x, k, m);
    assert RowAround(c[k], n, g, y - r + k, x - r, m + 1)
        == RowAround(c[k], n, g, y - r + k, x - r, m) + c[k][m] * At(g, n, y - r + k, x - r + m);
    hide BoxAround, RowAround;
  }

  lemma {:induction false} BoxNextRow(c: seq<seq<real>>, n: nat, r: nat, g: Grid, y: nat, x: nat, k: nat)
    requires BoxOk(c, r) && |g| == n * n && Interior(n, r, y, x) && k < 2 * r
    requires BoxSoFar(c, n, r, g, y, x, k, 2 * r + 1)
    ensures BoxSoFar(c, n, r, g, y, x, k + 1, 0)
  {
    hide Cell, InGrid, Sum, BoxPoints, At;
    Distribute(2 * r + 1, k, 1);
    assert BoxAround(c, n, r, g, y, x, k + 1)
        == BoxAround(c, n, r, g, y, x, k) + RowAround(c[k], n, g, y - r + k, x - r, 2 * r + 1);
    assert RowAround(c[k + 1], n, g, y - r + (k + 1), x - r, 0) == 0.0;
    hide BoxAround, RowAround;
  }

  lemma {:induction false} BoxSum(c: seq<seq<real>>, n: nat, r: nat, g: Grid, y: nat, x: nat, k: nat, m: nat)
    requires BoxOk(c, r) && |g| == n * n && Interior(n, r, y, x) && k <= 2 * r && m <= 2 * r + 1
    requires InGrid(BoxPoints(c, n, 2 * r + 1), g, Cell(n, y - r, x - r))
    ensures BoxSoFar(c, n, r, g, y, x, k, m)
    decreases k, m
  {
    hide *;
    if m > 0 {
      BoxSum(c, n, r, g, y, x, k, m - 1);
      BoxNextPoint(c, n, r, g, y, x, k, m - 1);
    } else if k > 0 {
      BoxSum(c, n, r, g, y, x, k - 1, 2 * r + 1);
      BoxNextRow(c, n, r, g, y, x, k - 1);
    } else {
      BoxStart(c, n, r, g, y, x);
    }
  }

  // ----- both

  /** The value of a cell is the weighted sum of the cells around it. */
  lemma {:induction false} ValueMeans(k: Kernel, n: nat, r: nat, g: Grid, y: nat, x: nat)
    requires KernelOk(k, n, r) && |g| == n * n && Interior(n, r, y, x)
    ensures Value(Points(k, n, r), n, r, g, y - r, x - r) == Around(k, n, r, g, y, x)
  {
    hide Cell, InGrid, Sum, BoxPoints, StarPoints, At, StarAround;
    var points := Points(k, n, r);
    Reach(points, n, r, g, y - r, x - r);
    match k {
      case StarKernel(s) => StarSum(s, n, r, g, y, x, r);
      case BoxKernel(c) =>
        BoxLength(c, n, r, 2 * r + 1);
        Distribute(2 * r + 1, 2 * r, 1);
        BoxSum(c, n, r, g, y, x, 2 * r, 2 * r + 1);
    }
  }

  /** A time step leaves every interior cell as the weighted sum of the cells around it, and the others as they were. */
  lemma {:induction false} StepMeans(k: Kernel, n: nat, r: nat, src: Grid, dst: Grid, dst': Grid, y: nat, x: nat)
    requires KernelOk(k, n, r) && Stepped(Points(k, n, r), n, r, src, dst, dst') && y < n && x < n
    ensures |src| == |dst| == |dst'| == n * n
    ensures At(dst', n, y, x) == if Interior(n, r, y, x) then Around(k, n, r, src, y, x) else At(dst, n, y, x)
  {
    hide Points, Value, Around, At;
    if Interior(n, r, y, x) {
      ValueMeans(k, n, r, src, y, x);
    }
  }
}
