/**
 The indirect-stream kernels (sw/saris/stencils/istc.issr.hpp:406-559): index
 tables, coefficient stream, two-by-two blocks, and the rotating assignment of
 blocks to cores, proved against the same stencils as the direct kernels.
 */
module StencilIssr {
  import opened Arithmetic
  import opened Ssr
  import opened Wrappers
  import opened Stencil
  import opened StencilDirect
  import opened Words

  /** The index type `uint16_t`. */
  const INDEX: nat := 0x1_0000

  /** One index table: every point and the point below it, `d` columns to the right. */
  ghost predicate TableOk(t: seq<nat>, points: seq<Point>, n: nat, d: nat) {
    |t| == 2 * |points|
    && forall k | 0 <= k < |points| ::
         t[2 * k] == (points[k].off + d) % INDEX && t[2 * k + 1] == (points[k].off + d + n) % INDEX
  }

  ghost predicate CoefsOk(ca: seq<real>, points: seq<Point>) {
    |ca| == |points| && forall k | 0 <= k < |points| :: ca[k] == points[k].coef
  }

  lemma {:induction false} TableSnoc(t: seq<nat>, points: seq<Point>, p: Point, n: nat, d: nat)
    requires TableOk(t, points, n, d)
    ensures TableOk(t + [(p.off + d) % INDEX] + [(p.off + d + n) % INDEX], points + [p], n, d)
  {
  }

  lemma {:induction false} CoefsSnoc(ca: seq<real>, points: seq<Point>, p: Point)
    requires CoefsOk(ca, points)
    ensures CoefsOk(ca + [p.coef], points + [p])
  {
  }

  /** One `*(p++) = pt; *(p++) = pt + sy;` in each table. */
  method PushPoint(i0: seq<nat>, i1: seq<nat>, pt: nat, n: nat, ghost points: seq<Point>, ghost coef: real)
    returns (j0: seq<nat>, j1: seq<nat>)
    requires TableOk(i0, points, n, 0) && TableOk(i1, points, n, 1)
    ensures TableOk(j0, points + [Point(pt, coef)], n, 0) && TableOk(j1, points + [Point(pt, coef)], n, 1)
  {
    TableSnoc(i0, points, Point(pt, coef), n, 0);
    TableSnoc(i1, points, Point(pt, coef), n, 1);
    j0 := i0 + [pt % INDEX] + [(pt + n) % INDEX];
    j1 := i1 + [(pt + 1) % INDEX] + [(pt + 1 + n) % INDEX];
  }

  /** The tables and coefficients of a star (lines 416-444). */
  method StarTables(s: Star, n: nat, r: nat) returns (i0: seq<nat>, i1: seq<nat>, ca: seq<real>)
    requires StarOk(s, r)
    ensures var p := StarPoints(s, n, r, r); TableOk(i0, p, n, 0) && TableOk(i1, p, n, 1) && CoefsOk(ca, p)
  {
    hide TableOk, CoefsOk, StarPoints;
    var cc := r * n + r;
    NoTables(n);
    i0, i1 := PushPoint([], [], cc, n, [], s.cc);
    CoefsSnoc([], [], Point(cc, s.cc));
    ca := [] + [s.cc];
    StarFirst(s, n, r);
    for j := 1 to r + 1
      invariant var p := StarPoints(s, n, r, j - 1); TableOk(i0, p, n, 0) && TableOk(i1, p, n, 1) && CoefsOk(ca, p)
    {
      ghost var p := StarPoints(s, n, r, j - 1);
      StarNext(s, n, r, j);
      var bb, ll, rr, tt := cc - j * n, cc - j, cc + j, cc + j * n;
      i0, i1 := PushPoint(i0, i1, bb, n, p, s.ym[j - 1]);
      CoefsSnoc(ca, p, Point(bb, s.ym[j - 1]));
      p := p + [Point(bb, s.ym[j - 1])];
      i0, i1 := PushPoint(i0, i1, ll, n, p, s.xm[j - 1]);
      CoefsSnoc(ca + [s.ym[j - 1]], p, Point(ll, s.xm[j - 1]));
      p := p + [Point(ll, s.xm[j - 1])];
      i0, i1 := PushPoint(i0, i1, rr, n, p, s.xp[j - 1]);
      CoefsSnoc(ca + [s.ym[j - 1]] + [s.xm[j - 1]], p, Point(rr, s.xp[j - 1]));
      p := p + [Point(rr, s.xp[j - 1])];
      i0, i1 := PushPoint(i0, i1, tt, n, p, s.yp[j - 1]);
      CoefsSnoc(ca + [s.ym[j - 1]] + [s.xm[j - 1]] + [s.xp[j - 1]], p, Point(tt, s.yp[j - 1]));
      ca := ca + [s.ym[j - 1]] + [s.xm[j - 1]] + [s.xp[j - 1]] + [s.yp[j - 1]];
    }
  }

  lemma {:induction false} NoTables(n: nat)
    ensures TableOk([], [], n, 0) && TableOk([], [], n, 1) && CoefsOk([], [])
  {
  }

  lemma {:induction false} StarFirst(s: Star, n: nat, r: nat)
    requires StarOk(s, r)
    ensures [] + [Point(r * n + r, s.cc)] == StarPoints(s, n, r, 0)
  {
  }

  lemma {:induction false} StarNext(s: Star, n: nat, r: nat, j: nat)
    requires StarOk(s, r) && 1 <= j <= r
    ensures j * n <= r * n
    ensures var cc := r * n + r;
            StarPoints(s, n, r, j - 1) + [Point(cc - j * n, s.ym[j - 1])] + [Point(cc - j, s.xm[j - 1])]
            + [Point(cc + j, s.xp[j - 1])] + [Point(cc + j * n, s.yp[j - 1])]
            == StarPoints(s, n, r, j)
  {
    CenterReaches(n, r, j);
  }

  /** The tables and coefficients of a box (lines 496-520). */
  method BoxTables(c: seq<seq<real>>, n: nat, r: nat) returns (i0: seq<nat>, i1: seq<nat>, ca: seq<real>)
    requires BoxOk(c, r)
    ensures var p := BoxPoints(c, n, 2 * r + 1); TableOk(i0, p, n, 0) && TableOk(i1, p, n, 1) && CoefsOk(ca, p)
  {
    hide TableOk, CoefsOk, BoxPoints;
    i0, i1, ca := [], [], [];
    NoTables(n);
    ghost var p := [];
    BoxFirst(c, n);
    for y := 0 to 2 * r + 1
      invariant p == BoxPoints(c, n, y) && TableOk(i0, p, n, 0) && TableOk(i1, p, n, 1) && CoefsOk(ca, p)
    {
      ghost var row := BoxRow(c[y], n, y);
      assert p + row[..0] == p;
      for x := 0 to 2 * r + 1
        invariant p == BoxPoints(c, n, y) + row[..x]
        invariant TableOk(i0, p, n, 0) && TableOk(i1, p, n, 1) && CoefsOk(ca, p)
      {
        var pt := y * n + x;
        i0, i1 := PushPoint(i0, i1, pt, n, p, c[y][x]);
        CoefsSnoc(ca, p, Point(pt, c[y][x]));
        ca := ca + [c[y][x]];
        assert row[..x + 1] == row[..x] + [row[x]];
        p := p + [row[x]];
      }
      assert row[..2 * r + 1] == row;
      BoxNext(c, n, y);
    }
  }

  lemma {:induction false} BoxFirst(c: seq<seq<real>>, n: nat)
    ensures BoxPoints(c, n, 0) == []
  {
  }

  lemma {:induction false} BoxNext(c: seq<seq<real>>, n: nat, y: nat)
    requires y < |c|
    ensures BoxPoints(c, n, y + 1) == BoxPoints(c, n, y) + BoxRow(c[y], n, y)
  {
  }

  // ----- a block of four cells

  /** Every index fits the index type. */
  ghost predicate IndicesFit(points: seq<Point>, n: nat) {
    forall k | 0 <= k < |points| :: points[k].off + n + 1 < INDEX
  }

  /** Each coefficient four times, as the repetition register asks (line 445). */
  ghost predicate Repeated(ft2: seq<real>, points: seq<Point>) {
    |ft2| == 4 * |points| && forall i | 0 <= i < |ft2| :: ft2[i] == points[i / 4].coef
  }

  /** Popping an indirect stream: the word `base` plus the next index. */
  lemma {:induction false} Indirect(t: seq<nat>, points: seq<Point>, n: nat, r: nat, d: nat, g: Grid, base: nat, k: nat)
    requires TableOk(t, points, n, d) && StencilOk(points, n, r) && IndicesFit(points, n) && d <= 1 && k < |points|
    requires InGrid(points, g, base + d) && InGrid(points, g, base + d + n)
    ensures base + t[2 * k] == base + d + points[k].off < |g|
    ensures base + t[2 * k + 1] == base + d + n + points[k].off < |g|
  {
    hide Cell;
    assert t[2 * k] == (points[k].off + d) % INDEX;
    assert t[2 * k + 1] == (points[k].off + d + n) % INDEX;
  }

  /**
   The assembly body (lines 455-475): the accumulators of a block of two by two
   cells; `ft2` delivers each coefficient four times, `ft0` and `ft1` pop their
   index tables.
   */
  method Block(ghost points: seq<Point>, n: nat, ghost r: nat, g: Grid, base: nat, i0: seq<nat>, i1: seq<nat>,
               ft2: seq<real>)
    returns (fa0: real, fa1: real, fa2: real, fa3: real)
    requires StencilOk(points, n, r) && IndicesFit(points, n) && TableOk(i0, points, n, 0) && TableOk(i1, points, n, 1)
    requires Repeated(ft2, points)
    requires InGrid(points, g, base) && InGrid(points, g, base + 1)
    requires InGrid(points, g, base + n) && InGrid(points, g, base + 1 + n)
    ensures fa0 == Sum(points, g, base, |points|) && fa1 == Sum(points, g, base + 1, |points|)
    ensures fa2 == Sum(points, g, base + n, |points|) && fa3 == Sum(points, g, base + 1 + n, |points|)
  {
    hide Sum, InGrid, TableOk, IndicesFit, StencilOk, Repeated;
    TableLength(i0, points, n, 0);
    TableLength(i1, points, n, 1);
    SomePoint(points, n, r);
    PopTable(i0, points, n, r, 0, g, base, 0, base, base + n);
    PopTable(i1, points, n, r, 1, g, base, 0, base + 1, base + 1 + n);
    SumsStart(points, n, g, base);
    CoefFour(points, ft2, 0);
    fa0, fa1 := ft2[0] * g[base + i0[0]], ft2[1] * g[base + i1[0]];
    fa2, fa3 := ft2[2] * g[base + i0[1]], ft2[3] * g[base + i1[1]];
    assert fa2 == points[0].coef * g[base + i0[2 * 0 + 1]] && fa3 == points[0].coef * g[base + i1[2 * 0 + 1]];
    for k := 1 to |i0| / 2
      invariant fa0 == Sum(points, g, base, k) && fa1 == Sum(points, g, base + 1, k)
      invariant fa2 == Sum(points, g, base + n, k) && fa3 == Sum(points, g, base + 1 + n, k)
    {
      PopTable(i0, points, n, r, 0, g, base, k, base, base + n);
      PopTable(i1, points, n, r, 1, g, base, k, base + 1, base + 1 + n);
      CoefFour(points, ft2, k);
      fa0 := ft2[4 * k] * g[base + i0[2 * k]] + fa0;
      fa1 := ft2[4 * k + 1] * g[base + i1[2 * k]] + fa1;
      fa2 := ft2[4 * k + 2] * g[base + i0[2 * k + 1]] + fa2;
      fa3 := ft2[4 * k + 3] * g[base + i1[2 * k + 1]] + fa3;
    }
  }

  lemma {:induction false} TableLength(t: seq<nat>, points: seq<Point>, n: nat, d: nat)
    requires TableOk(t, points, n, d)
    ensures |t| == 2 * |points|
  {
  }

  lemma {:induction false} SomePoint(points: seq<Point>, n: nat, r: nat)
    requires StencilOk(points, n, r)
    ensures |points| > 0
  {
  }

  lemma {:induction false} CoefFour(points: seq<Point>, ft2: seq<real>, k: nat)
    requires Repeated(ft2, points) && k < |points|
    ensures 4 * k + 3 < |ft2|
    ensures ft2[4 * k] == ft2[4 * k + 1] == ft2[4 * k + 2] == ft2[4 * k + 3] == points[k].coef
  {
    assert ft2[4 * k] == points[(4 * k) / 4].coef && ft2[4 * k + 1] == points[(4 * k + 1) / 4].coef;
    assert ft2[4 * k + 2] == points[(4 * k + 2) / 4].coef && ft2[4 * k + 3] == points[(4 * k + 3) / 4].coef;
  }

  lemma {:induction false} SumsStart(points: seq<Point>, n: nat, g: Grid, base: nat)
    requires InGrid(points, g, base) && InGrid(points, g, base + 1)
    requires InGrid(points, g, base + n) && InGrid(points, g, base + 1 + n)
    ensures Sum(points, g, base, 0) == Sum(points, g, base + 1, 0) == 0.0
    ensures Sum(points, g, base + n, 0) == Sum(points, g, base + 1 + n, 0) == 0.0
  {
  }

  /** Popping one table at point `k` extends the sums of the two cells it serves. */
  lemma {:induction false} PopTable(t: seq<nat>, points: seq<Point>, n: nat, r: nat, d: nat, g: Grid, base: nat, k: nat,
                                    upper: nat, lower: nat)
    requires StencilOk(points, n, r) && IndicesFit(points, n) && TableOk(t, points, n, d) && d <= 1 && k < |points|
    requires upper == base + d && lower == base + d + n
    requires InGrid(points, g, upper) && InGrid(points, g, lower)
    ensures 2 * k + 1 < |t| && base + t[2 * k] < |g| && base + t[2 * k + 1] < |g|
    ensures Sum(points, g, upper, k + 1) == Sum(points, g, upper, k) + points[k].coef * g[base + t[2 * k]]
    ensures Sum(points, g, lower, k + 1) == Sum(points, g, lower, k) + points[k].coef * g[base + t[2 * k + 1]]
  {
    TableLength(t, points, n, d);
    hide Sum, InGrid, TableOk, IndicesFit, StencilOk;
    Indirect(t, points, n, r, d, g, base, k);
    SumWith(points, g, upper, k, g[base + t[2 * k]]);
    SumWith(points, g, lower, k, g[base + t[2 * k + 1]]);
  }

  lemma {:induction false} SumWith(p: seq<Point>, g: Grid, base: nat, k: nat, v: real)
    requires k < |p| && InGrid(p, g, base) && base + p[k].off < |g| && v == g[base + p[k].off]
    ensures Sum(p, g, base, k + 1) == Sum(p, g, base, k) + p[k].coef * v
  {
    SumStep(p, g, base, k);
  }

  // ----- the coefficient stream of a row

  /** The coefficient table lies below the end of the address space. */
  ghost predicate TableFits(at: nat, points: nat, count: nat) {
    0 < points && 0 < count <= WORD && at + 8 * points <= WORD
  }

  /** The registers written for a row (line 450): the points, and the blocks of the row with stride 0. */
  function CoefBounds(points: nat, count: nat): (b: seq<nat>)
    ensures |b| == 2
  {
    Decs([points, count])
  }

  function CoefStrides(points: nat, count: nat): (s: seq<nat>)
    ensures |s| == 2
  {
    Relative([8, 0], [points, count], 0)
  }

  /** Element `k` lies `k % points` words into the table, and there are exactly `points * count`. */
  lemma {:induction false} CoefficientStream(at: nat, points: nat, count: nat, k: nat)
    requires TableFits(at, points, count)
    ensures var g := Generator(at, CoefBounds(points, count), CoefStrides(points, count), k);
            if k < points * count then g.Some? && g.value.1 == at + 8 * Rem(k, points) else g.None?
  {
    hide Generator, Decs, Relative, Digits, Dot, Quot, Rem, Prod;
    SetUpStream(at, [8, 0], [points, count], k);
    ProdTwo(points, count);
    DigitsTwo(k, points, count);
  }

  lemma {:induction false} ProdTwo(b0: nat, b1: nat)
    ensures Prod([b0, b1]) == b0 * b1
  {
    assert [b0, b1][1..] == [b1] && [b1][1..] == [];
    assert Prod([b1]) == b1 * Prod([]);
  }

  lemma {:induction false} DigitsTwo(k: nat, b0: nat, b1: nat)
    requires b0 > 0 && b1 > 0
    ensures Positive([b0, b1]) && Dot([8, 0], Digits(k, [b0, b1])) == 8 * Rem(k, b0)
  {
    hide Quot, Rem;
    assert [b0, b1][1..] == [b1] && [b1][1..] == [];
    DigitsStep(k, [b0, b1]);
    DigitsStep(Quot(k, b0), [b1]);
    var d1 := Rem(Quot(k, b0), b1);
    assert Digits(Quot(Quot(k, b0), b1), []) == [];
    assert [8] + [0] == [8, 0] && [0] + [] == [0] && [d1] + [] == [d1];
    DotStep(8, [0], Rem(k, b0), [d1]);
    DotStep(0, [], d1, []);
  }

  /** The generator after one more element. */
  function Step(g: Option<(seq<nat>, nat)>, bounds: seq<nat>, strides: seq<nat>): Option<(seq<nat>, nat)>
    requires |bounds| == |strides| && (g.Some? ==> |g.value.0| == |bounds|)
  {
    var (idx, ptr) :- g;
    var (next, stride) :- Advance(idx, bounds, strides);
    if |next| != |bounds| then None else Some((next, (ptr + stride) % WORD))
  }

  lemma {:induction false} StepIsNext(at: nat, bounds: seq<nat>, strides: seq<nat>, k: nat)
    requires |bounds| == |strides|
    ensures Step(Generator(at, bounds, strides, k), bounds, strides) == Generator(at, bounds, strides, k + 1)
  {
    hide Advance, Generator;
    GeneratorStep(at, bounds, strides, k + 1);
  }

  /** Starting the stream (line 454). */
  lemma {:induction false} StreamStarts(at: nat, points: nat, count: nat)
    ensures Generator(at, CoefBounds(points, count), CoefStrides(points, count), 0) == Some((Zeros(2), at))
  {
    hide Decs, Relative;
  }

  /** The word of the table at an address the stream generates. */
  lemma {:induction false} TableWord(at: nat, points: nat, count: nat, e: nat, j: nat)
    requires TableFits(at, points, count) && Rem(e, points) == 0 && Quot(e, points) < count && j < points
    ensures var g := Generator(at, CoefBounds(points, count), CoefStrides(points, count), e + j);
            g.Some? && g.value.1 == at + 8 * j
  {
    hide Quot, Rem, Generator, CoefBounds, CoefStrides;
    CoefficientStream(at, points, count, e + j);
    QuotRem(e, points);
    Unique(e + j, points, Quot(e, points), j);
    QuotBelow(e + j, points, count);
  }

  /** What one block pops: every element of the table once, each delivered four times (line 445). */
  method PopCoefficients(ca: seq<real>, at: nat, ghost points: seq<Point>, ghost count: nat, bounds: seq<nat>,
                         strides: seq<nat>, g: Option<(seq<nat>, nat)>, ghost e: nat)
    returns (ft2: seq<real>, g': Option<(seq<nat>, nat)>)
    requires CoefsOk(ca, points) && TableFits(at, |ca|, count)
    requires bounds == CoefBounds(|ca|, count) && strides == CoefStrides(|ca|, count)
    requires g == Generator(at, bounds, strides, e) && Rem(e, |ca|) == 0 && Quot(e, |ca|) < count
    ensures Repeated(ft2, points) && g' == Generator(at, bounds, strides, e + |ca|)
  {
    hide Quot, Rem, Generator, CoefBounds, CoefStrides, Advance, Step;
    ft2, g' := [], g;
    for j := 0 to |ca|
      invariant g' == Generator(at, bounds, strides, e + j)
      invariant |ft2| == 4 * j && forall i | 0 <= i < |ft2| :: ft2[i] == ca[i / 4]
    {
      TableWord(at, |ca|, count, e, j);
      var v := ca[(g'.value.1 - at) / 8];
      StepIsNext(at, bounds, strides, e + j);
      g' := Step(g', bounds, strides);
      ft2 := ft2 + [v, v, v, v];
    }
  }

  /** After the last block of the row the stream is exhausted. */
  lemma {:induction false} StreamEnds(at: nat, points: nat, count: nat, e: nat)
    requires TableFits(at, points, count) && Rem(e, points) == 0 && Quot(e, points) == count
    ensures Generator(at, CoefBounds(points, count), CoefStrides(points, count), e).None?
  {
    hide Quot, Rem, Generator, CoefBounds, CoefStrides;
    CoefficientStream(at, points, count, e);
    QuotBelow(e, points, count);
  }
}
