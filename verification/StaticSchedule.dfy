/**
 OpenMP static scheduling (`__kmpc_for_static_init_4`, sw/runtime/src/omp/kmp.c:
 237-297; section 2.7.1 of OpenMP 4.5) for loops, increasing or decreasing, that
 run at least once.

 `Unchunk` and `Chunked` are the bounds in unbounded integers; what the code
 computes in 32 bits is in `StaticScheduleCode`.
 */
module StaticSchedule {
  import opened Arithmetic

  /** What a thread gets: its first and last value, the distance to its next chunk and the last-iteration flag. */
  datatype Bounds = Bounds(lower: int, upper: int, stride: int, last: bool)

  /** `y` is `x` or lies behind it in the direction of the loop. */
  predicate Reaches(incr: int, x: int, y: int) {
    if incr > 0 then x <= y else y <= x
  }

  predicate LoopOk(lower: int, upper: int, incr: int, threads: nat) {
    incr != 0 && Reaches(incr, lower, upper) && threads > 0
  }

  function Abs(x: int): (a: nat)
    ensures x != 0 ==> a > 0
  {
    if x < 0 then -x else x
  }

  /** Number of iterations (line 247). */
  function Size(lower: int, upper: int, incr: int): nat
    requires incr != 0
  {
    Quot(Abs(upper - lower), Abs(incr)) + 1
  }

  /** The loop's `k`-th value. */
  function At(lower: int, incr: int, k: nat): int {
    lower + k * incr
  }

  // ----- no chunk size

  function Chunk(size: nat, threads: nat): nat
    requires threads > 0
  {
    Quot(size, threads)
  }

  function LeftOver(size: nat, threads: nat): nat
    requires threads > 0
  {
    Rem(size, threads)
  }

  /** The iterations of thread `t`: `Count` of them from `First` on. */
  function Count(size: nat, threads: nat, t: nat): nat
    requires threads > 0
  {
    Chunk(size, threads) + if t < LeftOver(size, threads) then 1 else 0
  }

  function First(size: nat, threads: nat, t: nat): nat
    requires threads > 0
  {
    if t == 0 then 0 else First(size, threads, t - 1) + Count(size, threads, t - 1)
  }

  lemma {:induction false} FirstClosed(size: nat, threads: nat, t: nat)
    requires threads > 0
    ensures First(size, threads, t)
            == t * Chunk(size, threads) + if t < LeftOver(size, threads) then t else LeftOver(size, threads)
  {
    hide Quot, Rem, Chunk, LeftOver;
    if t > 0 {
      FirstClosed(size, threads, t - 1);
      Distribute(Chunk(size, threads), t - 1, 1);
    }
  }

  /** The shares add up to the loop. */
  lemma {:induction false} SharesAddUp(size: nat, threads: nat)
    requires threads > 0
    ensures First(size, threads, threads) == size
  {
    hide Quot, Rem;
    FirstClosed(size, threads, threads);
    QuotRem(size, threads);
    Commute(threads, Chunk(size, threads));
  }

  lemma {:induction false} FirstGrows(size: nat, threads: nat, t: nat, u: nat)
    requires threads > 0 && t < u
    ensures First(size, threads, t) + Count(size, threads, t) <= First(size, threads, u)
  {
    hide Count;
    if t + 1 < u {
      FirstGrows(size, threads, t, u - 1);
    }
  }

  /** The thread that gets iteration `k`. */
  lemma {:induction false} SomeThread(size: nat, threads: nat, k: nat, u: nat) returns (t: nat)
    requires threads > 0 && k < First(size, threads, u)
    ensures t < u && First(size, threads, t) <= k < First(size, threads, t) + Count(size, threads, t)
  {
    hide Count;
    if k < First(size, threads, u - 1) {
      t := SomeThread(size, threads, k, u - 1);
    } else {
      t := u - 1;
    }
  }

  /** Lines 272-291. */
  function Unchunk(lower: int, upper: int, incr: int, threads: nat, t: nat): Bounds
    requires LoopOk(lower, upper, incr, threads)
  {
    var size := Size(lower, upper, incr);
    var n := Count(size, threads, t);
    var l := lower + t * n * incr + if t < LeftOver(size, threads) then 0 else LeftOver(size, threads);
    var u := l + n * incr - incr;
    Bounds(l, u, size, u == upper && l <= upper)
  }

  /** Thread `t` executes value `x`. */
  predicate Executes(b: Bounds, incr: int, x: int)
    requires incr != 0
  {
    Reaches(incr, b.lower, x) && Reaches(incr, x, b.upper) && Rem(Abs(x - b.lower), Abs(incr)) == 0
  }

  /** `x` is a value of the loop. */
  ghost predicate InLoop(lower: int, upper: int, incr: int, x: int)
    requires incr != 0
  {
    exists k: nat :: k < Size(lower, upper, incr) && x == At(lower, incr, k)
  }

  /** Given ranges `bs`, every value of the loop is executed by exactly one thread, and no other value by any. */
  ghost predicate Partitions(lower: int, upper: int, incr: int, bs: seq<Bounds>)
    requires incr != 0
  {
    && (forall t: nat, x: int | t < |bs| && Executes(bs[t], incr, x) :: InLoop(lower, upper, incr, x))
    && (forall x: int | InLoop(lower, upper, incr, x) :: exists t: nat :: t < |bs| && OnlyRunner(bs, incr, x, t))
  }

  /** Thread `t` and no other executes `x`. */
  ghost predicate OnlyRunner(bs: seq<Bounds>, incr: int, x: int, t: nat)
    requires incr != 0 && t < |bs|
  {
    Executes(bs[t], incr, x) && forall u: nat | u < |bs| && Executes(bs[u], incr, x) :: u == t
  }

  /** The ranges of all threads. */
  function Shares(lower: int, upper: int, incr: int, threads: nat): (bs: seq<Bounds>)
    requires LoopOk(lower, upper, incr, threads)
    ensures |bs| == threads && forall t | 0 <= t < threads :: bs[t] == Unchunk(lower, upper, incr, threads, t)
  {
    seq(threads, t requires 0 <= t < threads => Unchunk(lower, upper, incr, threads, t))
  }

  /** When the code is right: with steps of one, without remainder, or with fewer iterations than threads. */
  predicate Scaled(lower: int, upper: int, incr: int, threads: nat)
    requires LoopOk(lower, upper, incr, threads)
  {
    var size := Size(lower, upper, incr);
    incr == 1 || LeftOver(size, threads) == 0 || Chunk(size, threads) == 0
  }

  lemma {:induction false} Negated(k: int, incr: int)
    ensures k * -incr == -(k * incr)
  {
  }

  /** Going up, `n` steps reach the values of iterations `first` to `first + n - 1`. */
  lemma {:induction false} RunUp(incr: int, n: nat, d: int)
    requires incr > 0
    ensures 0 <= d <= n * incr - incr && Rem(Abs(d), incr) == 0 <==> exists j: nat :: j < n && d == j * incr
  {
    hide Quot, Rem;
    if 0 <= d <= n * incr - incr && Rem(d, incr) == 0 {
      QuotRem(d, incr);
      Commute(n, incr);
      QuotBelow(d, incr, n);
    }
    if j: nat :| j < n && d == j * incr {
      MulMono(j, n - 1, incr);
      Distribute(incr, n, -1);
      Unique(d, incr, j, 0);
    }
  }

  /** The values between two bounds `n - 1` steps apart. */
  lemma {:induction false} Run(lower: int, incr: int, first: nat, b: Bounds, n: nat, x: int)
    requires incr != 0 && b.lower == At(lower, incr, first) && b.upper == b.lower + n * incr - incr
    ensures Executes(b, incr, x) <==> exists k: nat :: first <= k < first + n && x == At(lower, incr, k)
  {
    hide Rem;
    var d := if incr > 0 then x - b.lower else b.lower - x;
    Negated(n, incr);
    RunUp(Abs(incr), n, d);
    if Executes(b, incr, x) {
      var j: nat :| j < n && d == j * Abs(incr);
      Negated(j, incr);
      Distribute(incr, first, j);
      assert x == At(lower, incr, first + j);
    }
    if k: nat :| first <= k < first + n && x == At(lower, incr, k) {
      Negated(k - first, incr);
      Distribute(incr, first, k - first);
      assert d == (k - first) * Abs(incr);
    }
  }

  /** Where the code is right, the remainder needs no scaling. */
  lemma {:induction false} ShareStart(incr: int, chunk: nat, left: nat, t: nat)
    requires incr == 1 || left == 0 || chunk == 0
    ensures var n := chunk + if t < left then 1 else 0;
            n > 0 ==> t * n * incr + (if t < left then 0 else left) == (t * chunk + if t < left then t else left) * incr
  {
    Distribute(t, chunk, 1);
    Distribute(incr, t * chunk, left);
  }

  lemma {:induction false} ShareBounds(lower: int, upper: int, incr: int, threads: nat, t: nat)
    requires LoopOk(lower, upper, incr, threads) && t < threads && Scaled(lower, upper, incr, threads)
    ensures var size := Size(lower, upper, incr);
            var b := Unchunk(lower, upper, incr, threads, t);
            var n, left := Count(size, threads, t), LeftOver(size, threads);
            && (b.last <==> b.upper == upper && b.lower <= upper)
            && b.upper == b.lower + n * incr - incr
            && (n > 0 ==> b.lower == At(lower, incr, First(size, threads, t)))
            && (n == 0 ==> b.lower == lower + left && left == size)
  {
    var size := Size(lower, upper, incr);
    var chunk, left := Chunk(size, threads), LeftOver(size, threads);
    FirstClosed(size, threads, t);
    QuotRem(size, threads);
    assert size == chunk * threads + left;
    hide Quot, Rem, Chunk, LeftOver, First, Size;
    ShareStart(incr, chunk, left, t);
  }

  /** Where the code is right, a thread executes exactly its share. */
  lemma {:induction false} RunsItsShare(lower: int, upper: int, incr: int, threads: nat, t: nat, x: int)
    requires LoopOk(lower, upper, incr, threads) && t < threads && Scaled(lower, upper, incr, threads)
    ensures var size := Size(lower, upper, incr);
            Executes(Unchunk(lower, upper, incr, threads, t), incr, x)
            <==> exists k: nat :: First(size, threads, t) <= k < First(size, threads, t) + Count(size, threads, t)
                                  && x == At(lower, incr, k)
  {
    var size := Size(lower, upper, incr);
    ShareBounds(lower, upper, incr, threads, t);
    hide Quot, Rem, Chunk, LeftOver, First, Size, Unchunk, Count, Scaled, At;
    var n := Count(size, threads, t);
    if n > 0 {
      Run(lower, incr, First(size, threads, t), Unchunk(lower, upper, incr, threads, t), n, x);
    }
  }

  lemma {:induction false} ScaledPartitions(lower: int, upper: int, incr: int, threads: nat)
    requires LoopOk(lower, upper, incr, threads) && Scaled(lower, upper, incr, threads)
    ensures Partitions(lower, upper, incr, Shares(lower, upper, incr, threads))
  {
    var size := Size(lower, upper, incr);
    var bs := Shares(lower, upper, incr, threads);
    SharesAddUp(size, threads);
    hide Quot, Rem, Chunk, LeftOver, First, Size, Unchunk, Executes, At, Scaled, Count, Shares;
    forall t: nat, x: int | t < threads && Executes(bs[t], incr, x) ensures InLoop(lower, upper, incr, x) {
      RunsItsShare(lower, upper, incr, threads, t, x);
      var k: nat :| First(size, threads, t) <= k < First(size, threads, t) + Count(size, threads, t)
          && x == At(lower, incr, k);
      FirstGrows(size, threads, t, threads);
    }
    forall x: int | InLoop(lower, upper, incr, x) ensures exists t: nat :: t < threads && OnlyRunner(bs, incr, x, t) {
      var k: nat :| k < size && x == At(lower, incr, k);
      var t := SomeThread(size, threads, k, threads);
      RunsItsShare(lower, upper, incr, threads, t, x);
      forall u: nat | u < threads && Executes(bs[u], incr, x) ensures u == t {
        RunsItsShare(lower, upper, incr, threads, u, x);
        var j: nat :| First(size, threads, u) <= j < First(size, threads, u) + Count(size, threads, u)
            && x == At(lower, incr, j);
        SameIteration(lower, incr, j, k);
        if u < t {
          FirstGrows(size, threads, u, t);
        } else if t < u {
          FirstGrows(size, threads, t, u);
        }
      }
      assert OnlyRunner(bs, incr, x, t);
    }
  }

  lemma {:induction false} SameIteration(lower: int, incr: int, j: nat, k: nat)
    requires incr != 0 && At(lower, incr, j) == At(lower, incr, k)
    ensures j == k
  {
    Negated(j, incr);
    Negated(k, incr);
    MulCancel(j, k, Abs(incr));
  }

  /** The iteration thread `t` would end before, were the remainder scaled. */
  lemma {:induction false} ShareEnds(size: nat, threads: nat, t: nat)
    requires t < threads && LeftOver(size, threads) > 0 && Chunk(size, threads) > 0
    ensures var chunk, left := Chunk(size, threads), LeftOver(size, threads);
            if t < left then (t + 1) * (chunk + 1) < size else (t + 1) * chunk <= size - left
  {
    var chunk, left := Chunk(size, threads), LeftOver(size, threads);
    QuotRem(size, threads);
    assert size == chunk * threads + left;
    hide Quot, Rem, Chunk, LeftOver;
    if t < left {
      MulMono(t + 1, left, chunk + 1);
      Distribute(left, chunk, 1);
      MulStep(left, threads, chunk);
      Commute(chunk, threads);
    } else {
      MulMono(t + 1, threads, chunk);
      Commute(chunk, threads);
    }
  }

  /** `left` values short of `left` iterations: with a step other than one that is before the last value. */
  lemma {:induction false} Short(incr: int, m: int, size: int, left: nat)
    requires incr != 0 && incr != 1 && left > 0 && m <= size - left
    ensures m * incr + left != size * incr && Reaches(incr, m * incr + left, size * incr)
  {
    Distribute(incr, size, -m);
    Negated(size - m, incr);
    Negated(m, incr);
    if incr > 0 {
      MulMono(left, size - m, incr);
      Distribute(left, incr, -1);
      assert left * (incr - 1) > 0;
    } else {
      MulMono(left, size - m, -incr);
    }
  }

  lemma {:induction false} Earlier(incr: int, m: int, size: int)
    requires incr != 0 && m < size
    ensures m * incr != size * incr && Reaches(incr, m * incr, size * incr)
  {
    Distribute(incr, size, -m);
    Negated(size - m, incr);
    Negated(m, incr);
    MulMono(1, size - m, Abs(incr));
  }

  /** Otherwise nobody executes the last iteration: every thread stops before it. */
  lemma {:induction false} LastIsMissed(lower: int, upper: int, incr: int, threads: nat, t: nat)
    requires LoopOk(lower, upper, incr, threads) && t < threads && !Scaled(lower, upper, incr, threads)
    ensures var last := At(lower, incr, Size(lower, upper, incr) - 1);
            var u := Unchunk(lower, upper, incr, threads, t).upper;
            u != last && Reaches(incr, u, last)
  {
    var size := Size(lower, upper, incr);
    var chunk, left := Chunk(size, threads), LeftOver(size, threads);
    ShareEnds(size, threads, t);
    hide Quot, Rem, Chunk, LeftOver, First, Size;
    Distribute(incr, size, -1);
    if t < left {
      Distribute(chunk + 1, t, 1);
      Distribute(incr, t * (chunk + 1), chunk + 1);
      Earlier(incr, (t + 1) * (chunk + 1), size);
    } else {
      Distribute(chunk, t, 1);
      Distribute(incr, t * chunk, chunk);
      Short(incr, (t + 1) * chunk, size, left);
    }
  }

  /** If every thread stops before the last iteration the ranges do not partition the loop. */
  lemma {:induction false} NobodyRunsLast(lower: int, upper: int, incr: int, bs: seq<Bounds>)
    requires incr != 0
    requires var last := At(lower, incr, Size(lower, upper, incr) - 1);
             forall t: nat | t < |bs| :: bs[t].upper != last && Reaches(incr, bs[t].upper, last)
    ensures !Partitions(lower, upper, incr, bs)
  {
    hide Size, At, Rem;
    SizePositive(lower, upper, incr);
    var x := At(lower, incr, Size(lower, upper, incr) - 1);
    assert InLoop(lower, upper, incr, x);
    forall t: nat | t < |bs| ensures !Executes(bs[t], incr, x) {
    }
  }

  lemma {:induction false} IdealPartitions(lower: int, upper: int, incr: int, threads: nat)
    requires LoopOk(lower, upper, incr, threads)
    ensures Partitions(lower, upper, incr, Shares(lower, upper, incr, threads)) <==> Scaled(lower, upper, incr, threads)
  {
    hide Quot, Rem, Chunk, LeftOver, First, Size, Unchunk, At, Scaled, Count, Executes, Shares, Reaches;
    if Scaled(lower, upper, incr, threads) {
      ScaledPartitions(lower, upper, incr, threads);
    } else {
      var bs := Shares(lower, upper, incr, threads);
      SizePositive(lower, upper, incr);
      forall t: nat | t < threads
        ensures var last := At(lower, incr, Size(lower, upper, incr) - 1);
                bs[t].upper != last && Reaches(incr, bs[t].upper, last)
      {
        LastIsMissed(lower, upper, incr, threads, t);
      }
      NobodyRunsLast(lower, upper, incr, bs);
    }
  }

  lemma {:induction false} SizePositive(lower: int, upper: int, incr: int)
    requires incr != 0
    ensures Size(lower, upper, incr) > 0
  {
  }

  /** With unit steps the shares differ by at most one and exactly the owner of the last iteration is flagged. */
  lemma {:induction false} UnitSteps(lower: int, upper: int, threads: nat, t: nat)
    requires LoopOk(lower, upper, 1, threads) && t < threads
    ensures var b := Unchunk(lower, upper, 1, threads, t);
            var share := b.upper - b.lower + 1;
            && Chunk(upper - lower + 1, threads) <= share <= Chunk(upper - lower + 1, threads) + 1
            && (b.last <==> Executes(b, 1, upper))
  {
    hide Quot, Rem;
    Unique(upper - lower, 1, upper - lower, 0);
    var size := upper - lower + 1;
    FirstClosed(size, threads, t);
    SharesAddUp(size, threads);
    FirstGrows(size, threads, t, threads);
    var chunk := Chunk(size, threads);
    Distribute(t, chunk, 1);
  }

  /** Where a share with iterations ends at the loop's last value it is the last share. */
  lemma {:induction false} ShareAtEnd(lower: int, incr: int, size: nat, first: nat, n: nat)
    requires incr != 0 && 0 < n && first + n <= size
    ensures At(lower, incr, first) + n * incr - incr == At(lower, incr, size - 1) <==> first + n == size
    ensures At(lower, incr, first) <= At(lower, incr, first) + n * incr - incr <==> incr > 0 || n == 1
  {
    Distribute(incr, first, n - 1);
    Distribute(incr, n, -1);
    if first + (n - 1) != size - 1 && At(lower, incr, first + (n - 1)) == At(lower, incr, size - 1) {
      SameIteration(lower, incr, first + (n - 1), size - 1);
    }
    Negated(n - 1, incr);
    MulMono(0, n - 1, Abs(incr));
    MulCancel(n - 1, 0, Abs(incr));
  }

  /**
   Where the ranges partition the loop, the flag is set for the thread that executes
   the last iteration and no other; but only if the upper bound is its value, and in
   a decreasing loop, whose lower bound is the larger one, only if that thread
   executes nothing else.
   */
  lemma {:induction false} FlagWithoutChunks(lower: int, upper: int, incr: int, threads: nat, t: nat)
    requires LoopOk(lower, upper, incr, threads) && t < threads && Scaled(lower, upper, incr, threads)
    ensures Unchunk(lower, upper, incr, threads, t).last
            <==> upper == At(lower, incr, Size(lower, upper, incr) - 1)
                 && Executes(Unchunk(lower, upper, incr, threads, t), incr, upper)
                 && (incr > 0 || Count(Size(lower, upper, incr), threads, t) == 1)
  {
    var size := Size(lower, upper, incr);
    var first, n, left := First(size, threads, t), Count(size, threads, t), LeftOver(size, threads);
    SizePositive(lower, upper, incr);
    ShareBounds(lower, upper, incr, threads, t);
    RunsItsShare(lower, upper, incr, threads, t, upper);
    LastReaches(lower, upper, incr);
    hide Quot, Rem, Chunk, LeftOver, First, Size, Executes, Unchunk, Count, Scaled;
    if n > 0 {
      FirstGrows(size, threads, t, threads);
      SharesAddUp(size, threads);
      ShareAtEnd(lower, incr, size, first, n);
      OffGrid(lower, upper, incr, size, first + n - 1);
      Distribute(incr, first, n - 1);
      Distribute(incr, n, -1);
      forall k: nat | first <= k < first + n && upper == At(lower, incr, k) && upper == At(lower, incr, size - 1)
        ensures k == size - 1
      {
        SameIteration(lower, incr, k, size - 1);
      }
    } else {
      EmptyShare(lower, upper, incr, left);
    }
  }

  /** No iteration but the last has the value of the upper bound, or lies behind it. */
  lemma {:induction false} OffGrid(lower: int, upper: int, incr: int, size: nat, k: nat)
    requires incr != 0 && k < size && Reaches(incr, At(lower, incr, size - 1), upper)
    ensures At(lower, incr, k) == upper ==> k == size - 1
  {
    Negated(k, incr);
    Negated(size - 1, incr);
    MulMono(k, size - 1, Abs(incr));
    if At(lower, incr, k) == upper {
      SameIteration(lower, incr, k, size - 1);
    }
  }

  lemma {:induction false} LastReaches(lower: int, upper: int, incr: int)
    requires incr != 0 && Reaches(incr, lower, upper)
    ensures Size(lower, upper, incr) > 0 && Reaches(incr, At(lower, incr, Size(lower, upper, incr) - 1), upper)
    ensures Abs(incr) == 1 ==> At(lower, incr, Size(lower, upper, incr) - 1) == upper
  {
    hide Quot, Rem;
    QuotRem(Abs(upper - lower), Abs(incr));
    Negated(Quot(Abs(upper - lower), Abs(incr)), incr);
  }

  /** An empty share ends at the upper bound only behind a step of one. */
  lemma {:induction false} EmptyShare(lower: int, upper: int, incr: int, left: nat)
    requires left > 0 && incr != 0 && Reaches(incr, At(lower, incr, left - 1), upper)
    requires Abs(incr) == 1 ==> At(lower, incr, left - 1) == upper
    requires Reaches(incr, lower, upper)
    ensures lower + left - incr == upper <==> incr == 1
    ensures incr == 1 ==> upper < lower + left
  {
    Distribute(incr, left, -1);
    if incr > 1 {
      MulMono(2, incr, left);
      Commute(incr, left);
    }
  }

  // ----- a chunk size

  /** The remainder of C, whose sign is that of `x`. */
  function CRem(x: int, b: int): int
    requires b != 0
  {
    var r: int := Rem(Abs(x), Abs(b));
    if x >= 0 then r else -r
  }

  /** Lines 261-269. */
  function Chunked(lower: int, upper: int, incr: int, chunk: int, threads: nat, t: nat): Bounds
    requires LoopOk(lower, upper, incr, threads) && chunk > 0
  {
    var span := incr * chunk;
    SpanNonzero(incr, chunk, threads);
    var stride := span * threads;
    var l := lower + span * t;
    var lastChunk := upper - CRem(upper, span);
    Bounds(l, l + span - incr, stride, CRem(lastChunk - l, stride) == 0)
  }

  lemma {:induction false} SpanPositive(incr: int, chunk: int, threads: nat)
    requires incr > 0 && chunk > 0 && threads > 0
    ensures incr * chunk > 0 && (incr * chunk) * threads > 0
  {
    MulStep(0, chunk, incr);
    Commute(incr, chunk);
    MulStep(0, threads, incr * chunk);
    Commute(incr * chunk, threads);
  }

  lemma {:induction false} SpanNonzero(incr: int, chunk: int, threads: nat)
    requires incr != 0 && chunk > 0 && threads > 0
    ensures incr * chunk != 0 && (incr * chunk) * threads != 0
  {
    SpanPositive(Abs(incr), chunk, threads);
    Mirrored(incr, chunk, threads);
  }

  lemma {:induction false} Mirrored(incr: int, chunk: int, x: int)
    ensures (-incr) * chunk == -(incr * chunk) && ((-incr) * chunk) * x == -((incr * chunk) * x)
  {
  }

  /** The `j`-th chunk of a thread, clipped at the loop's last value by the code that calls it. */
  predicate InChunk(b: Bounds, upper: int, incr: int, j: nat, x: int)
    requires incr != 0
  {
    var l := b.lower + j * b.stride;
    Executes(Bounds(l, l + (b.upper - b.lower), 0, false), incr, x) && Reaches(incr, x, upper)
  }

  /** Chunk `c` starts with iteration `c * chunk`. */
  lemma {:induction false} ChunkIs(lower: int, upper: int, incr: int, chunk: int, threads: nat, t: nat, j: nat, k: nat)
    requires LoopOk(lower, upper, incr, threads) && chunk > 0
    requires Reaches(incr, At(lower, incr, k), upper)
    ensures var c := j * threads + t;
            InChunk(Chunked(lower, upper, incr, chunk, threads, t), upper, incr, j, At(lower, incr, k))
            <==> c * chunk <= k < c * chunk + chunk
  {
    var c := j * threads + t;
    ChunkStart(incr, chunk, threads, t, j);
    hide Quot, Rem, CRem, Executes;
    var b := Chunked(lower, upper, incr, chunk, threads, t);
    var l := At(lower, incr, c * chunk);
    assert b.lower + j * b.stride == l;
    Commute(incr, chunk);
    Run(lower, incr, c * chunk, Bounds(l, l + (b.upper - b.lower), 0, false), chunk, At(lower, incr, k));
    if i: nat :| c * chunk <= i < c * chunk + chunk && At(lower, incr, k) == At(lower, incr, i) {
      SameIteration(lower, incr, i, k);
    }
  }

  /** Iteration `k` belongs to the chunk `k / chunk`, and chunks are dealt round robin. */
  lemma {:induction false} ChunkOwner(lower: int, upper: int, incr: int, chunk: int, threads: nat, t: nat, j: nat,
                                      k: nat)
    requires LoopOk(lower, upper, incr, threads) && chunk > 0 && t < threads
    requires Reaches(incr, At(lower, incr, k), upper)
    ensures InChunk(Chunked(lower, upper, incr, chunk, threads, t), upper, incr, j, At(lower, incr, k))
            <==> Rem(Quot(k, chunk), threads) == t && Quot(Quot(k, chunk), threads) == j
  {
    ChunkIs(lower, upper, incr, chunk, threads, t, j, k);
    hide Quot, Rem, InChunk, Chunked, At;
    var c := j * threads + t;
    if c * chunk <= k < c * chunk + chunk {
      Unique(k, chunk, c, k - c * chunk);
      Unique(c, threads, j, t);
    }
    QuotRem(k, chunk);
    QuotRem(Quot(k, chunk), threads);
  }

  lemma {:induction false} ChunkStart(incr: int, chunk: int, threads: nat, t: nat, j: nat)
    ensures (incr * chunk) * t + j * ((incr * chunk) * threads) == ((j * threads + t) * chunk) * incr
  {
    var span := incr * chunk;
    Product3(span, threads, j);
    Distribute(span, j * threads, t);
    Product3(chunk, incr, j * threads + t);
    Commute(chunk, incr);
  }

  lemma {:induction false} Product3(x: int, y: int, z: int)
    ensures z * (x * y) == x * (z * y) && z * (x * y) == (z * x) * y
  {
  }

  /** Every iteration is executed by exactly one thread, once. */
  lemma {:induction false} ChunksPartition(lower: int, upper: int, incr: int, chunk: int, threads: nat, k: nat)
    requires LoopOk(lower, upper, incr, threads) && chunk > 0 && Reaches(incr, At(lower, incr, k), upper)
    ensures var c := Quot(k, chunk);
            forall t: nat, j: nat | t < threads ::
              InChunk(Chunked(lower, upper, incr, chunk, threads, t), upper, incr, j, At(lower, incr, k))
              <==> t == Rem(c, threads) && j == Quot(c, threads)
  {
    hide Quot, Rem, Chunked, InChunk, At;
    forall t: nat, j: nat | t < threads
      ensures InChunk(Chunked(lower, upper, incr, chunk, threads, t), upper, incr, j, At(lower, incr, k))
              <==> t == Rem(Quot(k, chunk), threads) && j == Quot(Quot(k, chunk), threads)
    {
      ChunkOwner(lower, upper, incr, chunk, threads, t, j, k);
    }
  }

  /** The thread that executes the last iteration. */
  function LastOwner(lower: int, upper: int, incr: int, chunk: int, threads: nat): (t: nat)
    requires LoopOk(lower, upper, incr, threads) && chunk > 0
    ensures t < threads
  {
    Rem(Quot(Size(lower, upper, incr) - 1, chunk), threads)
  }

  /** Whether exactly that thread is flagged. */
  ghost predicate Flagged(lower: int, upper: int, incr: int, chunk: int, threads: nat)
    requires LoopOk(lower, upper, incr, threads) && chunk > 0
  {
    forall t: nat | t < threads ::
      Chunked(lower, upper, incr, chunk, threads, t).last <==> t == LastOwner(lower, upper, incr, chunk, threads)
  }

  /**
   The loop starts at a multiple of the span; and C's remainder, which rounds
   towards zero, rounds the last value back towards the start of its chunk.
   */
  predicate Aligned(lower: int, upper: int, incr: int, chunk: int, threads: nat)
    requires incr * chunk != 0
  {
    && CRem(lower, incr * chunk) == 0
    && (threads == 1 || CRem(upper, incr * chunk) == 0 || (upper > 0 <==> incr > 0))
  }

  /** The chunk of the last iteration of an increasing loop. */
  lemma {:induction false} LastChunkIs(lower: int, upper: int, incr: int, chunk: int)
    requires lower <= upper && incr > 0 && chunk > 0
    ensures incr * chunk > 0 && Quot(upper - lower, incr * chunk) == Quot(Size(lower, upper, incr) - 1, chunk)
  {
    hide Quot, Rem;
    SpanPositive(incr, chunk, 1);
    var d, k := upper - lower, Size(lower, upper, incr) - 1;
    QuotRem(d, incr);
    QuotRem(k, chunk);
    var c := Quot(k, chunk);
    Product3(chunk, incr, c);
    Commute(chunk, incr);
    Distribute(incr, c * chunk, Rem(k, chunk));
    MulStep(Rem(k, chunk), chunk, incr);
    Unique(d, incr * chunk, c, Rem(k, chunk) * incr + Rem(d, incr));
  }

  /** Division by a positive number, rounding towards zero. */
  lemma {:induction false} CDivide(x: int, b: int) returns (q: int)
    requires b > 0
    ensures x == q * b + CRem(x, b) && -b < CRem(x, b) < b
    ensures x >= 0 ==> CRem(x, b) >= 0 && q >= 0
    ensures x <= 0 ==> CRem(x, b) <= 0
  {
    hide Quot, Rem;
    if x >= 0 {
      QuotRem(x, b);
      q := Quot(x, b);
    } else {
      QuotRem(-x, b);
      var p: int := Quot(-x, b);
      q := -p;
      Mirrored(p, b, 1);
    }
  }

  /** Only a multiple has no remainder. */
  lemma {:induction false} CDivides(x: int, b: int, q: int, r: int)
    requires b > 0 && x == q * b + r && -b < r < b
    ensures r == 0 <==> CRem(x, b) == 0
  {
    hide CRem;
    var p := CDivide(x, b);
    Distribute(b, p, -q);
    Mirrored(q, b, 1);
    if p > q {
      MulMono(1, p - q, b);
    } else if p < q {
      MulMono(1, q - p, b);
      Mirrored(q - p, b, 1);
    }
  }

  /** Which thread the flag's test selects: the test compares two multiples of the span, `d` spans apart. */
  lemma {:induction false} Selected(d: nat, t: nat, span: nat, threads: nat)
    requires span > 0 && t < threads && span * threads > 0
    ensures CRem((d - t) * span, span * threads) == 0 <==> t == Rem(d, threads)
  {
    hide Quot, Rem, CRem;
    QuotRem(d, threads);
    var q, r := Quot(d, threads), Rem(d, threads);
    Distribute(span, q * threads, r - t);
    Product3(span, threads, q);
    Commute(span, q * threads);
    Commute(span, threads);
    Mirrored(r - t, span, 1);
    if r >= t {
      MulStep(r - t, threads, span);
    } else {
      MulStep(t - r, threads, span);
    }
    MulCancel(Abs(r - t), 0, span);
    CDivides((d - t) * span, span * threads, q, (r - t) * span);
  }

  /** From a multiple of the span to the rounded upper bound: one span too many if the rounding was upwards. */
  lemma {:induction false} SpansBetween(lower: int, upper: int, span: int) returns (d: nat)
    requires span > 0 && lower <= upper && CRem(lower, span) == 0
    ensures upper - CRem(upper, span) - lower == d * span
    ensures d == Quot(upper - lower, span) + if upper < 0 && CRem(upper, span) != 0 then 1 else 0
  {
    hide Quot, Rem, CRem;
    var m := CDivide(upper, span);
    var q := CDivide(lower, span);
    Distribute(span, m, -q);
    Mirrored(q, span, 1);
    assert upper - lower == (m - q) * span + CRem(upper, span);
    d := Spans(upper - lower, m - q, span, CRem(upper, span));
  }

  lemma {:induction false} Spans(x: nat, m: int, span: int, r: int) returns (d: nat)
    requires span > 0 && x == m * span + r && -span < r < span
    ensures d == m && d == Quot(x, span) + if r < 0 then 1 else 0
  {
    hide Quot, Rem;
    if m < 0 {
      MulMono(1, -m, span);
      Mirrored(m, span, 1);
      assert false;
    }
    d := m;
    if r >= 0 {
      Unique(x, span, d, r);
    } else {
      Distribute(span, d, -1);
      Unique(x, span, d - 1, span + r);
    }
  }

  /** Increasing from a multiple of the span, the test selects the thread of the span it counts to. */
  lemma {:induction false} AlignedFlag(lower: int, upper: int, incr: int, chunk: int, threads: nat, d: nat, t: nat)
    requires LoopOk(lower, upper, incr, threads) && incr > 0 && chunk > 0 && t < threads
    requires incr * chunk > 0 && upper - CRem(upper, incr * chunk) - lower == d * (incr * chunk)
    ensures Chunked(lower, upper, incr, chunk, threads, t).last <==> t == Rem(d, threads)
  {
    var span := incr * chunk;
    SpanPositive(incr, chunk, threads);
    hide Quot, Rem, CRem;
    Distribute(span, d - t, t);
    Commute(span, t);
    Selected(d, t, span, threads);
  }

  /** Increasing from anything else: no thread is flagged. */
  lemma {:induction false} MisalignedFlag(lower: int, upper: int, incr: int, chunk: int, threads: nat, t: nat)
    requires LoopOk(lower, upper, incr, threads) && incr > 0 && chunk > 0 && t < threads
    requires incr * chunk > 0 && CRem(lower, incr * chunk) != 0
    ensures !Chunked(lower, upper, incr, chunk, threads, t).last
  {
    var span := incr * chunk;
    SpanPositive(incr, chunk, threads);
    hide Quot, Rem, CRem;
    var m := CDivide(upper, span);
    var x := upper - CRem(upper, span) - (lower + span * t);
    var j := CDivide(x, span * threads);
    if CRem(x, span * threads) == 0 {
      LowerIsMultiple(lower, m, t, j, span, threads);
      CDivides(lower, span, m - t - j * threads, 0);
    }
  }

  lemma {:induction false} LowerIsMultiple(lower: int, q: int, t: int, j: int, span: int, threads: int)
    requires q * span - (lower + span * t) == j * (span * threads)
    ensures lower == (q - t - j * threads) * span
  {
    Product3(span, threads, j);
    Commute(span, j * threads);
    Commute(span, t);
    Distribute(span, q - t - j * threads, t + j * threads);
    Distribute(span, t, j * threads);
  }

  lemma {:induction false} NextThread(d: nat, threads: nat)
    requires threads > 0
    ensures Rem(d + 1, threads) == Rem(d, threads) <==> threads == 1
  {
    hide Quot, Rem;
    QuotNext(d, threads);
  }

  lemma {:induction false} FlagExactlyUp(lower: int, upper: int, incr: int, chunk: int, threads: nat)
    requires LoopOk(lower, upper, incr, threads) && incr > 0 && chunk > 0
    ensures incr * chunk > 0
    ensures Flagged(lower, upper, incr, chunk, threads) <==> Aligned(lower, upper, incr, chunk, threads)
  {
    SpanPositive(incr, chunk, threads);
    LastChunkIs(lower, upper, incr, chunk);
    var owner := LastOwner(lower, upper, incr, chunk, threads);
    CRemZero(incr * chunk);
    hide Chunked, Rem, Quot, CRem, Size;
    if CRem(lower, incr * chunk) == 0 {
      var d := SpansBetween(lower, upper, incr * chunk);
      NextThread(Quot(upper - lower, incr * chunk), threads);
      forall t: nat | t < threads
        ensures Chunked(lower, upper, incr, chunk, threads, t).last <==> t == Rem(d, threads)
      {
        AlignedFlag(lower, upper, incr, chunk, threads, d, t);
      }
      assert Chunked(lower, upper, incr, chunk, threads, owner).last <==> owner == Rem(d, threads);
    } else {
      MisalignedFlag(lower, upper, incr, chunk, threads, owner);
    }
  }

  lemma {:induction false} CRemZero(b: int)
    requires b != 0
    ensures CRem(0, b) == 0
  {
    hide Quot, Rem;
    Unique(0, Abs(b), 0, 0);
  }

  lemma {:induction false} CRemMirror(x: int, b: int)
    requires b != 0
    ensures CRem(-x, -b) == -CRem(x, b) && CRem(x, -b) == CRem(x, b)
  {
    CRemZero(b);
    hide Rem;
  }

  /** A loop and its mirror image get mirrored chunks and the same flags. */
  lemma {:induction false} ChunkedMirror(lower: int, upper: int, incr: int, chunk: int, threads: nat, t: nat)
    requires LoopOk(lower, upper, incr, threads) && chunk > 0
    ensures LoopOk(-lower, -upper, -incr, threads)
    ensures var b := Chunked(lower, upper, incr, chunk, threads, t);
            Chunked(-lower, -upper, -incr, chunk, threads, t) == Bounds(-b.lower, -b.upper, -b.stride, b.last)
  {
    var span := incr * chunk;
    SpanNonzero(incr, chunk, threads);
    Mirrored(incr, chunk, threads);
    Mirrored(incr, chunk, t);
    CRemMirror(upper, span);
    CRemMirror(upper - CRem(upper, span) - (lower + span * t), span * threads);
    hide CRem;
  }

  lemma {:induction false} AlignedMirror(lower: int, upper: int, incr: int, chunk: int, threads: nat)
    requires incr != 0 && incr * chunk != 0
    ensures (-incr) * chunk != 0
    ensures Aligned(-lower, -upper, -incr, chunk, threads) <==> Aligned(lower, upper, incr, chunk, threads)
  {
    Mirrored(incr, chunk, 1);
    CRemMirror(lower, incr * chunk);
    CRemMirror(upper, incr * chunk);
    CRemZero(incr * chunk);
    hide CRem;
  }

  lemma {:induction false} OwnerMirror(lower: int, upper: int, incr: int, chunk: int, threads: nat)
    requires LoopOk(lower, upper, incr, threads) && chunk > 0
    ensures LoopOk(-lower, -upper, -incr, threads)
    ensures LastOwner(-lower, -upper, -incr, chunk, threads) == LastOwner(lower, upper, incr, chunk, threads)
  {
    hide Quot, Rem;
    assert Abs(-upper - -lower) == Abs(upper - lower) && Abs(-incr) == Abs(incr);
  }

  /** A loop's mirror image is flagged right if the loop is. */
  lemma {:induction false} FlaggedMirror(lower: int, upper: int, incr: int, chunk: int, threads: nat)
    requires LoopOk(lower, upper, incr, threads) && chunk > 0 && Flagged(lower, upper, incr, chunk, threads)
    ensures LoopOk(-lower, -upper, -incr, threads) && Flagged(-lower, -upper, -incr, chunk, threads)
  {
    OwnerMirror(lower, upper, incr, chunk, threads);
    hide Chunked, LastOwner;
    var l, u, i := -lower, -upper, -incr;
    forall t: nat | t < threads
      ensures Chunked(l, u, i, chunk, threads, t).last <==> t == LastOwner(l, u, i, chunk, threads)
    {
      ChunkedMirror(lower, upper, incr, chunk, threads, t);
      assert Chunked(lower, upper, incr, chunk, threads, t).last
             <==> t == LastOwner(lower, upper, incr, chunk, threads);
    }
  }

  lemma {:induction false} IdealFlag(lower: int, upper: int, incr: int, chunk: int, threads: nat)
    requires LoopOk(lower, upper, incr, threads) && chunk > 0
    ensures incr * chunk != 0
    ensures Flagged(lower, upper, incr, chunk, threads) <==> Aligned(lower, upper, incr, chunk, threads)
  {
    SpanNonzero(incr, chunk, threads);
    hide Aligned, Flagged;
    if incr > 0 {
      FlagExactlyUp(lower, upper, incr, chunk, threads);
    } else {
      FlagExactlyUp(-lower, -upper, -incr, chunk, threads);
      AlignedMirror(lower, upper, incr, chunk, threads);
      if Flagged(lower, upper, incr, chunk, threads) {
        FlaggedMirror(lower, upper, incr, chunk, threads);
      }
      if Flagged(-lower, -upper, -incr, chunk, threads) {
        FlaggedMirror(-lower, -upper, -incr, chunk, threads);
      }
    }
  }
}
