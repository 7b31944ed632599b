/**
 Two-dimensional stencils over real-valued grids (sw/saris/stencils): what one
 time step and a whole run compute, independent of how the work is divided.
 A grid is a square of `n` by `n` cells stored row by row; a stencil of radius
 `r` leaves the outer `r` rows and columns alone.
 */
module Stencil {
  import opened Arithmetic

  /** A stencil point: its offset in memory from the top left corner of the stencil's reach, and its coefficient. */
  datatype Point = Point(off: nat, coef: real)

  type Grid = seq<real>

  function Cell(n: nat, y: nat, x: nat): nat {
    y * n + x
  }

  lemma {:induction false} CellFits(n: nat, y: nat, x: nat)
    requires y < n && x < n
    ensures Cell(n, y, x) < n * n
  {
    MulStep(y, n, n);
  }

  lemma {:induction false} CellInjective(n: nat, y: nat, x: nat, y': nat, x': nat)
    requires x < n && x' < n
    ensures Cell(n, y, x) == Cell(n, y', x') <==> y == y' && x == x'
  {
    MulStep(y, y', n);
    MulStep(y', y, n);
  }

  /** The weighted sum of the first `k` points, `base` being the corner of the stencil's reach. */
  function Sum(points: seq<Point>, g: Grid, base: nat, k: nat): real
    requires k <= |points| && InGrid(points, g, base)
  {
    if k == 0 then 0.0 else Sum(points, g, base, k - 1) + points[k - 1].coef * g[base + points[k - 1].off]
  }

  predicate InGrid(points: seq<Point>, g: Grid, base: nat) {
    forall k | 0 <= k < |points| :: base + points[k].off < |g|
  }

  /** A stencil of radius `r` on grids of size `n`: from any corner in reach its points lie within the grid. */
  ghost predicate StencilOk(points: seq<Point>, n: nat, r: nat) {
    && points != [] && 2 * r < n
    && forall k | 0 <= k < |points| :: points[k].off <= Cell(n, 2 * r, 2 * r)
  }

  lemma {:induction false} Reach(points: seq<Point>, n: nat, r: nat, g: Grid, y: nat, x: nat)
    requires StencilOk(points, n, r) && |g| == n * n && y + 2 * r < n && x + 2 * r < n
    ensures InGrid(points, g, Cell(n, y, x))
  {
    Distribute(n, y, 2 * r);
    CellFits(n, y + 2 * r, x + 2 * r);
  }

  /** The new value of the cell whose stencil has its corner at `y`, `x`. */
  ghost function Value(points: seq<Point>, n: nat, r: nat, g: Grid, y: nat, x: nat): real
    requires StencilOk(points, n, r) && |g| == n * n && y + 2 * r < n && x + 2 * r < n
  {
    Reach(points, n, r, g, y, x);
    Sum(points, g, Cell(n, y, x), |points|)
  }

  ghost function At(g: Grid, n: nat, y: nat, x: nat): real
    requires |g| == n * n && y < n && x < n
  {
    CellFits(n, y, x);
    g[Cell(n, y, x)]
  }

  predicate Interior(n: nat, r: nat, y: nat, x: nat) {
    r <= y && y + r < n && r <= x && x + r < n
  }

  /** `dst'` is `dst` with the interior cells that `mine` selects computed from `src`. */
  ghost predicate Computed(points: seq<Point>, n: nat, r: nat, src: Grid, dst: Grid, dst': Grid,
                           mine: (nat, nat) -> bool)
    requires StencilOk(points, n, r)
  {
    && |src| == |dst| == |dst'| == n * n
    && forall y: nat, x: nat | y < n && x < n ::
         At(dst', n, y, x)
         == if Interior(n, r, y, x)
             && mine(y - r, x - r) then Value(points, n, r, src, y - r, x - r) else At(dst, n, y, x)
  }

  /** `dst'` is one full time step. */
  ghost predicate Stepped(points: seq<Point>, n: nat, r: nat, src: Grid, dst: Grid, dst': Grid)
    requires StencilOk(points, n, r)
  {
    Computed(points, n, r, src, dst, dst', (y: nat, x: nat) => true)
  }

  /** Grids that agree in every cell are the same. */
  lemma {:induction false} SameGrid(n: nat, g: Grid, h: Grid)
    requires |g| == |h| == n * n && forall y: nat, x: nat | y < n && x < n :: At(g, n, y, x) == At(h, n, y, x)
    ensures g == h
  {
    forall i | 0 <= i < n * n ensures g[i] == h[i] {
      assert n > 0;
      var y, x := Quot(i, n), Rem(i, n);
      QuotRem(i, n);
      QuotBelow(i, n, n);
      assert At(g, n, y, x) == At(h, n, y, x);
    }
  }

  lemma {:induction false} StepUnique(points: seq<Point>, n: nat, r: nat, src: Grid, dst: Grid, d1: Grid, d2: Grid)
    requires StencilOk(points, n, r) && Stepped(points, n, r, src, dst, d1) && Stepped(points, n, r, src, dst, d2)
    ensures d1 == d2
  {
    hide At, Value;
    SameGrid(n, d1, d2);
  }

  /** Work on disjoint or overlapping parts, one after the other, is the work on all of them. */
  lemma {:induction false} ComputedBoth(points: seq<Point>, n: nat, r: nat, src: Grid, d0: Grid, d1: Grid, d2: Grid,
                                        p: (nat, nat) -> bool, q: (nat, nat) -> bool)
    requires StencilOk(points, n, r) && Computed(points, n, r, src, d0, d1, p) && Computed(points, n, r, src, d1, d2, q)
    ensures Computed(points, n, r, src, d0, d2, (y: nat, x: nat) => p(y, x) || q(y, x))
  {
    hide At, Value;
  }

  lemma {:induction false} ComputedSame(points: seq<Point>, n: nat, r: nat, src: Grid, d0: Grid, d1: Grid,
                                        p: (nat, nat) -> bool, q: (nat, nat) -> bool)
    requires StencilOk(points, n, r) && Computed(points, n, r, src, d0, d1, p)
    requires forall y: nat, x: nat | y + 2 * r < n && x + 2 * r < n :: p(y, x) == q(y, x)
    ensures Computed(points, n, r, src, d0, d1, q)
  {
    hide At, Value;
  }

  /** Nothing done is the work on no cell. */
  lemma {:induction false} ComputedNone(points: seq<Point>, n: nat, r: nat, src: Grid, d: Grid, p: (nat, nat) -> bool)
    requires StencilOk(points, n, r) && |src| == |d| == n * n
    requires forall y: nat, x: nat | y + 2 * r < n && x + 2 * r < n :: !p(y, x)
    ensures Computed(points, n, r, src, d, d, p)
  {
    hide At, Value;
  }

  /** `grids` holds the two buffers after every time step: step `t` reads buffer `t % 2` and computes the other. */
  ghost predicate Evolves(points: seq<Point>, n: nat, r: nat, grids: seq<(Grid, Grid)>)
    requires StencilOk(points, n, r)
  {
    && (forall t | 0 <= t < |grids| :: |grids[t].0| == |grids[t].1| == n * n)
    && forall t | 0 <= t < |grids| - 1 ::
         if t % 2 == 0 then grids[t + 1].0 == grids[t].0
             && Stepped(points, n, r, grids[t].0, grids[t].1, grids[t + 1].1)
         else grids[t + 1].1 == grids[t].1 && Stepped(points, n, r, grids[t].1, grids[t].0, grids[t + 1].0)
  }

  /** A run is determined by its initial grids. */
  lemma {:induction false} EvolutionUnique(points: seq<Point>, n: nat, r: nat, g: seq<(Grid, Grid)>,
                                           h: seq<(Grid, Grid)>, t: nat)
    requires StencilOk(points, n, r) && Evolves(points, n, r, g) && Evolves(points, n, r, h)
    requires t < |g| == |h| && g[0] == h[0]
    ensures g[t] == h[t]
  {
    hide Stepped, StencilOk;
    if t > 0 {
      EvolutionUnique(points, n, r, g, h, t - 1);
      if (t - 1) % 2 == 0 {
        StepUnique(points, n, r, g[t - 1].0, g[t - 1].1, g[(t - 1) + 1].1, h[(t - 1) + 1].1);
      } else {
        StepUnique(points, n, r, g[t - 1].1, g[t - 1].0, g[(t - 1) + 1].0, h[(t - 1) + 1].0);
      }
    }
  }

  // ----- the stencils

  /** Coefficients of a star: center, and by distance to the left, right, above and below. */
  datatype Star = Star(cc: real, xm: seq<real>, xp: seq<real>, ym: seq<real>, yp: seq<real>)

  ghost predicate StarOk(s: Star, r: nat) {
    r >= 1 && |s.xm| == |s.xp| == |s.ym| == |s.yp| == r
  }

  /** The four points at distance `j`, in the order of the index tables (istc.issr.hpp:429-432, 442-443). */
  function StarRing(s: Star, n: nat, r: nat, j: nat): (p: seq<Point>)
    requires StarOk(s, r) && 1 <= j <= r
    ensures |p| == 4
  {
    CenterReaches(n, r, j);
    var cc := r * n + r;
    [Point(cc - j * n, s.ym[j - 1]), Point(cc - j, s.xm[j - 1]), Point(cc + j, s.xp[j - 1]),
        Point(cc + j * n, s.yp[j - 1])]
  }

  lemma {:induction false} CenterReaches(n: nat, r: nat, j: nat)
    requires j <= r
    ensures j * n <= r * n
  {
    MulMono(j, r, n);
  }

  /** The center and the rings up to distance `j`. */
  function StarPoints(s: Star, n: nat, r: nat, j: nat): (p: seq<Point>)
    requires StarOk(s, r) && j <= r
    ensures |p| == 1 + 4 * j
  {
    if j == 0 then [Point(r * n + r, s.cc)] else StarPoints(s, n, r, j - 1) + StarRing(s, n, r, j)
  }

  lemma {:induction false} RingReaches(s: Star, n: nat, r: nat, j: nat)
    requires StarOk(s, r) && 1 <= j <= r
    ensures forall k | 0 <= k < 4 :: StarRing(s, n, r, j)[k].off <= Cell(n, 2 * r, 2 * r)
    ensures r * n + r <= Cell(n, 2 * r, 2 * r)
  {
    CenterReaches(n, r, j);
    Double(r, n);
  }

  lemma {:induction false} Double(r: nat, n: nat)
    ensures Cell(n, 2 * r, 2 * r) == r * n + r * n + 2 * r
  {
    Distribute(n, r, r);
  }

  lemma {:induction false} StarStencilOk(s: Star, n: nat, r: nat, j: nat)
    requires StarOk(s, r) && j <= r && 2 * r < n
    ensures StencilOk(StarPoints(s, n, r, j), n, r)
  {
    hide Cell, StarRing;
    RingReaches(s, n, r, if j == 0 then 1 else j);
    if j > 0 {
      StarStencilOk(s, n, r, j - 1);
    }
  }

  /** Coefficients of a box, row by row. */
  ghost predicate BoxOk(c: seq<seq<real>>, r: nat) {
    r >= 1 && |c| == 2 * r + 1 && forall y | 0 <= y < |c| :: |c[y]| == 2 * r + 1
  }

  function BoxRow(c: seq<real>, n: nat, y: nat): (p: seq<Point>)
    ensures |p| == |c| && forall x | 0 <= x < |c| :: p[x] == Point(y * n + x, c[x])
  {
    seq(|c|, x requires 0 <= x < |c| => Point(y * n + x, c[x]))
  }

  /** The first `k` rows of a box. */
  function BoxPoints(c: seq<seq<real>>, n: nat, k: nat): seq<Point>
    requires k <= |c|
  {
    if k == 0 then [] else BoxPoints(c, n, k - 1) + BoxRow(c[k - 1], n, k - 1)
  }

  lemma {:induction false} BoxStencilOk(c: seq<seq<real>>, n: nat, r: nat, k: nat)
    requires BoxOk(c, r) && 1 <= k <= |c| && 2 * r < n
    ensures StencilOk(BoxPoints(c, n, k), n, r)
    ensures |BoxPoints(c, n, k)| == k * (2 * r + 1)
  {
    MulMono(k - 1, 2 * r, n);
    Distribute(2 * r + 1, k - 1, 1);
    if k > 1 {
      BoxStencilOk(c, n, r, k - 1);
    }
  }
}
