/**
 What `__kmpc_for_static_init_4` (sw/runtime/src/omp/kmp.c:237-297) computes in
 32-bit arithmetic, overflows wrapping around, and when that is right.
 */
module StaticScheduleCode {
  import opened Wrappers
  import opened Arithmetic
  import opened Words
  import opened StaticSchedule

  // ----- the code's 32-bit arithmetic

  const INT_MIN: int := -0x8000_0000
  const INT_MAX: int := 0x7FFF_FFFF

  predicate InInt32(x: int) {
    INT_MIN <= x <= INT_MAX
  }

  /** A value stored in an `int`. */
  function Int32(x: int): (r: int)
    ensures InInt32(r) && (InInt32(x) ==> r == x)
  {
    (x - INT_MIN) % WORD + INT_MIN
  }

  /** The quotient of C, which rounds towards zero. */
  function CQuot(x: int, b: int): int
    requires b != 0
  {
    var q: int := Quot(Abs(x), Abs(b));
    if (x >= 0) == (b > 0) then q else -q
  }

  datatype Schedule = StaticChunked | Static

  /** What the code leaves for thread `t`; `None` when it takes a remainder by zero. */
  function Given(sched: Schedule, lower: int, upper: int, incr: int, chunk: int, threads: nat, t: nat): Option<Bounds>
    requires incr != 0 && threads > 0
  {
    match sched
    case StaticChunked => GivenChunked(lower, upper, incr, chunk, threads, t)
    case Static => Some(GivenStatic(lower, upper, incr, threads, t))
  }

  function GivenChunked(lower: int, upper: int, incr: int, chunk: int, threads: nat, t: nat): Option<Bounds> {
    var span := Int32(incr * chunk);
    var stride := Int32(span * threads);
    if span == 0 || stride == 0 then None
    else
      var l := Int32(lower + span * t);
      var begin := Int32(upper - CRem(upper, span));
      Some(Bounds(l, Int32(l + span - incr), stride, CRem(Int32(begin - l), stride) == 0))
  }

  /** Where `t` shares of `n` iterations end. */
  function Start(lower: int, incr: int, t: nat, n: int): int {
    lower + t * n * incr
  }

  /** The last of `n` values from `l` on. */
  function End(l: int, incr: int, n: int): int {
    l + n * incr - incr
  }

  function GivenStatic(lower: int, upper: int, incr: int, threads: nat, t: nat): Bounds
    requires incr != 0 && threads > 0
  {
    var size: nat := (CQuot(Int32(upper - lower), incr) + 1) % WORD;
    var chunk := Int32(Quot(size, threads));
    var left := Int32(size - chunk * threads);
    var n := if t < left then Int32(chunk + 1) else chunk;
    var l := Int32(Start(lower, incr, t, n) + if t < left then 0 else left);
    var u := Int32(End(l, incr, n));
    Bounds(l, u, Int32(size), u == upper && l <= upper)
  }

  /** Lines 261-269. */
  method ChunkedInit(lower: int, upper: int, incr: int, chunkSize: int, threads: nat, t: nat)
    returns (b: Option<Bounds>)
    ensures b == GivenChunked(lower, upper, incr, chunkSize, threads, t)
  {
    hide Quot, Rem, Int32, CRem;
    var span := Int32(incr * chunkSize);
    var stride := Int32(span * threads);
    var l := Int32(lower + span * t);
    var u := Int32(l + span - incr);
    if span == 0 {
      return None;
    }
    var beginLastChunk := Int32(upper - CRem(upper, span));
    if stride == 0 {
      return None;
    }
    b := Some(Bounds(l, u, stride, CRem(Int32(beginLastChunk - l), stride) == 0));
  }

  /** Lines 272-287. */
  method StaticInit(lower: int, upper: int, incr: int, loopSize: nat, threads: nat, t: nat) returns (b: Bounds)
    requires incr != 0 && threads > 0 && loopSize == (CQuot(Int32(upper - lower), incr) + 1) % WORD
    ensures b == GivenStatic(lower, upper, incr, threads, t)
  {
    hide Quot, Rem, Int32, CQuot, Start, End;
    var chunk := Int32(Quot(loopSize, threads));
    var leftOver := Int32(loopSize - chunk * threads);
    var l: int;
    if t < leftOver {
      chunk := Int32(chunk + 1);
      l := Int32(Start(lower, incr, t, chunk));
    } else {
      l := Int32(Start(lower, incr, t, chunk) + leftOver);
    }
    var u := Int32(End(l, incr, chunk));
    b := Bounds(l, u, Int32(loopSize), u == upper && l <= upper);
  }

  /** The scheduling function (lines 247-291), for thread `t`. */
  method ForStaticInit(sched: Schedule, lower: int, upper: int, incr: int, chunkSize: int, threads: nat, t: nat)
    returns (b: Option<Bounds>)
    requires incr != 0 && threads > 0
    ensures b == Given(sched, lower, upper, incr, chunkSize, threads, t)
  {
    hide GivenChunked, GivenStatic, Int32, CQuot;
    var loopSize: nat := (CQuot(Int32(upper - lower), incr) + 1) % WORD;
    if sched == StaticChunked {
      b := ChunkedInit(lower, upper, incr, chunkSize, threads, t);
    } else {
      var bounds := StaticInit(lower, upper, incr, loopSize, threads, t);
      b := Some(bounds);
    }
  }

  /** With a chunk size: the span, the stride, every thread's bounds and its distance to the last chunk fit. */
  ghost predicate ChunkedFits(lower: int, upper: int, incr: int, chunk: int, threads: nat)
    requires LoopOk(lower, upper, incr, threads) && chunk > 0
  {
    SpanNonzero(incr, chunk, threads);
    var span := incr * chunk;
    && InInt32(lower) && InInt32(upper) && InInt32(span) && InInt32(span * threads)
    && forall t: nat | t < threads ::
         var b := Chunked(lower, upper, incr, chunk, threads, t);
         InInt32(b.lower) && InInt32(b.upper) && InInt32(upper - CRem(upper, span) - b.lower)
  }

  lemma {:induction false} Towards(x: int, b: int)
    requires b != 0
    ensures x >= 0 ==> 0 <= x - CRem(x, b) <= x
    ensures x <= 0 ==> x <= x - CRem(x, b) <= 0
    decreases if b > 0 then 0 else 1
  {
    if b > 0 {
      var q := CDivide(x, b);
      if x >= 0 {
        MulMono(0, q, b);
      } else {
        Multiple(x, b, q);
      }
    } else {
      CRemMirror(x, b);
      Towards(x, -b);
    }
  }

  lemma {:induction false} Multiple(x: int, b: int, q: int)
    requires b > 0 && x <= 0 && x == q * b + CRem(x, b) && -b < CRem(x, b) <= 0
    ensures q * b <= 0
  {
    if q > 0 {
      MulMono(1, q, b);
    } else {
      Negated(-q, b);
      MulMono(0, -q, b);
      Mirrored(q, b, 1);
    }
  }

  lemma {:induction false} QuotZero(b: nat)
    requires b > 0
    ensures Quot(0, b) == 0
  {
    Unique(0, b, 0, 0);
  }

  lemma {:induction false} ChunkedIsIdeal(lower: int, upper: int, incr: int, chunk: int, threads: nat, t: nat)
    requires LoopOk(lower, upper, incr, threads) && chunk > 0 && t < threads
    requires ChunkedFits(lower, upper, incr, chunk, threads)
    ensures Given(StaticChunked, lower, upper, incr, chunk, threads, t)
            == Some(Chunked(lower, upper, incr, chunk, threads, t))
  {
    SpanNonzero(incr, chunk, threads);
    Towards(upper, incr * chunk);
    var b := Chunked(lower, upper, incr, chunk, threads, t);
    assert InInt32(b.lower) && InInt32(b.upper) && InInt32(upper - CRem(upper, incr * chunk) - b.lower);
    hide Quot, Rem, CRem, Int32, ChunkedFits;
  }

  // ----- without a chunk size, whatever fits

  /** The code's ranges, for all threads. */
  function Ranges(lower: int, upper: int, incr: int, threads: nat): (bs: seq<Bounds>)
    requires incr != 0 && threads > 0
    ensures |bs| == threads && forall t | 0 <= t < threads :: bs[t] == GivenStatic(lower, upper, incr, threads, t)
  {
    seq(threads, t requires 0 <= t < threads => GivenStatic(lower, upper, incr, threads, t))
  }

  /**
   What the code is given: values of type `int`, and a loop whose length it computes
   right.  Section 2.6 of OpenMP 4.5 leaves a loop unspecified whose bounds are
   further apart than an `int`; the code's length is right even then if the step is
   one or minus one, short of 2^32 iterations.
   */
  predicate LengthOk(lower: int, upper: int, incr: int, threads: nat) {
    && InInt32(lower) && InInt32(upper) && InInt32(incr) && InInt32(threads)
    && (InInt32(upper - lower) || (Abs(incr) == 1 && Abs(upper - lower) < WORD - 1))
  }

  /** The empty shares of a loop with fewer iterations than threads lie behind its start; none may wrap around. */
  predicate EmptySharesFit(lower: int, upper: int, incr: int, threads: nat)
    requires incr != 0
  {
    var size := Size(lower, upper, incr);
    size >= threads || (InInt32(lower + size) <==> InInt32(lower + size - incr))
  }

  lemma {:induction false} WrapTwice(x: int, d: int)
    ensures Int32(Int32(x) + d) == Int32(x + d)
  {
  }

  /** A value outside of an `int` by at most its range. */
  lemma {:induction false} WrapOnce(x: int)
    ensures INT_MAX < x <= INT_MAX + WORD ==> Int32(x) == x - WORD
    ensures INT_MIN - WORD <= x < INT_MIN ==> Int32(x) == x + WORD
  {
  }

  lemma {:induction false} WrapWord(x: int, k: int)
    ensures Int32(x + k * WORD) == Int32(x)
  {
  }

  lemma {:induction false} UnitQuot(x: int, incr: int)
    requires Abs(incr) == 1
    ensures CQuot(x, incr) == x * incr
  {
    hide Quot;
    Unique(Abs(x), 1, Abs(x), 0);
  }

  /** The code's length is right. */
  lemma {:induction false} LengthByCode(lower: int, upper: int, incr: int, threads: nat)
    requires LoopOk(lower, upper, incr, threads) && LengthOk(lower, upper, incr, threads)
    ensures var size := Size(lower, upper, incr);
            && (CQuot(Int32(upper - lower), incr) + 1) % WORD == size < WORD
            && (Abs(incr) != 1 ==> size <= INT_MAX)
  {
    var d := upper - lower;
    if Abs(incr) == 1 {
      Unique(Abs(d), 1, Abs(d), 0);
      UnitQuot(Int32(d), incr);
      hide Quot, CQuot;
    } else {
      HalfAtMost(Abs(d), Abs(incr));
      QuotZero(Abs(incr));
      hide Quot;
    }
  }

  lemma {:induction false} HalfAtMost(d: nat, b: nat)
    requires b >= 2
    ensures 2 * Quot(d, b) <= d
  {
    hide Quot, Rem;
    QuotRem(d, b);
    MulMono(2, b, Quot(d, b));
    Commute(b, Quot(d, b));
  }

  /** Quotient and remainder as the code stores them; only `size / threads` or its successor can wrap. */
  lemma {:induction false} SharesStored(size: nat, threads: nat, t: nat)
    requires 0 < threads && t < threads && size < WORD && InInt32(threads)
    ensures var chunk := Int32(Chunk(size, threads));
            var n := if t < LeftOver(size, threads) then Int32(chunk + 1) else chunk;
            && Int32(size - chunk * threads) == LeftOver(size, threads)
            && (if InInt32(Count(size, threads, t)) then n == Count(size, threads, t)
                else size > INT_MAX && t == 0 && n == Count(size, threads, t) - WORD)
  {
    QuotRem(size, threads);
    var q, left := Chunk(size, threads), LeftOver(size, threads);
    assert size == q * threads + left && left < threads;
    hide Quot, Rem, Chunk, LeftOver;
    if threads >= 2 {
      MulMono(2, threads, q);
      Commute(threads, q);
      Distribute(q, 2, threads - 2);
      TwoThreads(size, threads, q, left, t);
    } else {
      OneThread(q);
    }
  }

  lemma {:induction false} TwoThreads(size: nat, threads: nat, q: nat, left: nat, t: nat)
    requires 2 <= threads && size < WORD && size == q * threads + left && left < threads && 2 * q <= q * threads
    ensures InInt32(q) && (t < left && !InInt32(q + 1) ==> size > INT_MAX && t == 0)
  {
    if q == INT_MAX && left > 0 {
      ThreeHalves(threads, q);
    }
  }

  lemma {:induction false} ThreeHalves(threads: nat, q: nat)
    requires 2 <= threads && q == INT_MAX
    ensures if threads == 2 then q * threads == WORD - 2 else q * threads >= WORD
  {
    if threads > 2 {
      MulMono(3, threads, q);
      Commute(q, threads);
    }
  }

  lemma {:induction false} OneThread(q: nat)
    requires q < WORD
    ensures if InInt32(q) then Int32(q) == q else Int32(q) == q - WORD
    ensures Int32(q - Int32(q) * 1) == 0
  {
  }

  /** Lines 278-283 with any length. */
  function Stored(lower: int, upper: int, incr: int, threads: nat, t: nat, size: nat): (int, int)
    requires threads > 0
  {
    var chunk := Int32(Quot(size, threads));
    var left := Int32(size - chunk * threads);
    var n := if t < left then Int32(chunk + 1) else chunk;
    var l := Int32(lower + t * n * incr + if t < left then 0 else left);
    (l, Int32(l + n * incr - incr))
  }

  lemma {:induction false} GivenIsStored(lower: int, upper: int, incr: int, threads: nat, t: nat)
    requires LoopOk(lower, upper, incr, threads) && LengthOk(lower, upper, incr, threads)
    ensures var g := GivenStatic(lower, upper, incr, threads, t);
            (g.lower, g.upper) == Stored(lower, upper, incr, threads, t, Size(lower, upper, incr))
  {
    LengthByCode(lower, upper, incr, threads);
    hide Quot, Size, CQuot, Int32;
  }

  lemma {:induction false} StoredWraps(lower: int, upper: int, incr: int, threads: nat, t: nat, size: nat)
    requires 0 < threads && t < threads && size < WORD && InInt32(threads) && (Abs(incr) != 1 ==> size <= INT_MAX)
    ensures var left, n := LeftOver(size, threads), Count(size, threads, t);
            var l := lower + t * n * incr + if t < left then 0 else left;
            Stored(lower, upper, incr, threads, t, size) == (Int32(l), Int32(l + n * incr - incr))
  {
    SharesStored(size, threads, t);
    StoredIs(lower, upper, incr, threads, t, size);
    var left, n := LeftOver(size, threads), Count(size, threads, t);
    hide *;
    var c: int := if t < left then 0 else left;
    if InInt32(n) {
      WrapTwice(lower + t * n * incr + c, n * incr - incr);
    } else {
      FirstThread(n, incr);
      FirstThread(n - WORD, incr);
      WrappedCount(lower + 0 + c, n, incr);
    }
  }

  lemma {:induction false} FirstThread(n: int, incr: int)
    ensures 0 * n * incr == 0
  {
  }

  lemma {:induction false} WrappedCount(l: int, n: int, incr: int)
    ensures Int32(Int32(l) + (n - WORD) * incr - incr) == Int32(l + n * incr - incr)
  {
    hide Int32;
    WrapTwice(l, (n - WORD) * incr - incr);
    Distribute(incr, n, 0 - WORD);
    WrapWord(l + n * incr - incr, -incr);
  }

  lemma {:induction false} StoredIs(lower: int, upper: int, incr: int, threads: nat, t: nat, size: nat)
    requires threads > 0 && Int32(size - Int32(Chunk(size, threads)) * threads) == LeftOver(size, threads)
    ensures var chunk := Int32(Chunk(size, threads));
            var left := LeftOver(size, threads);
            var n := if t < left then Int32(chunk + 1) else chunk;
            var l := Int32(lower + t * n * incr + if t < left then 0 else left);
            Stored(lower, upper, incr, threads, t, size) == (l, Int32(l + n * incr - incr))
  {
    hide Quot, Rem, Int32;
  }

  /** The code's bounds are the ideal ones, wrapped around. */
  lemma {:induction false} GivenIsWrapped(lower: int, upper: int, incr: int, threads: nat, t: nat)
    requires LoopOk(lower, upper, incr, threads) && LengthOk(lower, upper, incr, threads) && t < threads
    ensures var b := Unchunk(lower, upper, incr, threads, t);
            var g := GivenStatic(lower, upper, incr, threads, t);
            g.lower == Int32(b.lower) && g.upper == Int32(b.upper)
  {
    LengthByCode(lower, upper, incr, threads);
    GivenIsStored(lower, upper, incr, threads, t);
    StoredWraps(lower, upper, incr, threads, t, Size(lower, upper, incr));
    hide Quot, Rem, Size, CQuot, Int32, LeftOver, Count, Stored, GivenStatic;
  }

  lemma {:induction false} Within(lower: int, upper: int, incr: int, k: nat)
    requires incr != 0 && Reaches(incr, lower, upper) && InInt32(lower) && InInt32(upper)
    requires k < Size(lower, upper, incr)
    ensures InInt32(At(lower, incr, k))
  {
    hide Quot, Rem;
    QuotRem(Abs(upper - lower), Abs(incr));
    MulMono(k, Quot(Abs(upper - lower), Abs(incr)), Abs(incr));
    Negated(k, incr);
  }

  /** Where the code is right a share with iterations does not wrap. */
  lemma {:induction false} FullShareFits(lower: int, upper: int, incr: int, threads: nat, t: nat)
    requires LoopOk(lower, upper, incr, threads) && LengthOk(lower, upper, incr, threads) && t < threads
    requires Scaled(lower, upper, incr, threads) && Count(Size(lower, upper, incr), threads, t) > 0
    ensures var b := Unchunk(lower, upper, incr, threads, t);
            var g := GivenStatic(lower, upper, incr, threads, t);
            g.lower == b.lower && g.upper == b.upper
  {
    var size := Size(lower, upper, incr);
    var first, n := First(size, threads, t), Count(size, threads, t);
    ShareBounds(lower, upper, incr, threads, t);
    GivenIsWrapped(lower, upper, incr, threads, t);
    FirstGrows(size, threads, t, threads);
    SharesAddUp(size, threads);
    Within(lower, upper, incr, first);
    Within(lower, upper, incr, first + n - 1);
    hide Quot, Rem, Size, Unchunk, GivenStatic, Scaled, Count, First, LeftOver, Int32;
    Distribute(incr, first, n - 1);
    Distribute(incr, n, -1);
  }

  /** An empty share, wrapped around. */
  lemma {:induction false} EmptyShareIs(lower: int, upper: int, incr: int, threads: nat, t: nat)
    requires LoopOk(lower, upper, incr, threads) && LengthOk(lower, upper, incr, threads) && t < threads
    requires Scaled(lower, upper, incr, threads) && Count(Size(lower, upper, incr), threads, t) == 0
    ensures var size := Size(lower, upper, incr);
            var b := Unchunk(lower, upper, incr, threads, t);
            var g := GivenStatic(lower, upper, incr, threads, t);
            && size < threads && b.lower == lower + size && b.upper == lower + size - incr
            && g.lower == Int32(lower + size) && g.upper == Int32(lower + size - incr)
  {
    ShareBounds(lower, upper, incr, threads, t);
    GivenIsWrapped(lower, upper, incr, threads, t);
    hide Quot, Rem, Size, Unchunk, GivenStatic, Scaled, Count, Int32, Chunk;
  }

  /** It executes nothing if it does not wrap around, and its first value otherwise. */
  lemma {:induction false} EmptyWrapped(lower: int, upper: int, incr: int, size: nat, b: Bounds)
    requires incr != 0 && InInt32(lower) && InInt32(incr) && 0 < size <= INT_MAX
    requires InInt32(upper) && Reaches(incr, lower, upper) && size == Size(lower, upper, incr)
    requires b.lower == Int32(lower + size) && b.upper == Int32(lower + size - incr)
    ensures if InInt32(lower + size) <==> InInt32(lower + size - incr) then !Reaches(incr, b.lower, b.upper)
            else Executes(b, incr, b.lower)
  {
    SmallStep(lower, upper, incr);
    Unique(0, Abs(incr), 0, 0);
    WrapOnce(lower + size);
    WrapOnce(lower + size - incr);
    hide Quot, Rem, Size, Int32;
  }

  lemma {:induction false} SmallStep(lower: int, upper: int, incr: int)
    requires incr != 0
    ensures Size(lower, upper, incr) <= Abs(upper - lower) + 1
  {
    hide Quot, Rem;
    QuotRem(Abs(upper - lower), Abs(incr));
    MulMono(1, Abs(incr), Quot(Abs(upper - lower), Abs(incr)));
    Commute(Abs(incr), Quot(Abs(upper - lower), Abs(incr)));
  }

  /** When the shares are scaled and the empty ones fit, the code's ranges execute what the ideal ones do. */
  lemma {:induction false} SameRuns(lower: int, upper: int, incr: int, threads: nat, t: nat, x: int)
    requires LoopOk(lower, upper, incr, threads) && LengthOk(lower, upper, incr, threads) && t < threads
    requires Scaled(lower, upper, incr, threads)
    requires Count(Size(lower, upper, incr), threads, t) > 0 || EmptySharesFit(lower, upper, incr, threads)
    ensures Executes(GivenStatic(lower, upper, incr, threads, t), incr, x)
            <==> Executes(Unchunk(lower, upper, incr, threads, t), incr, x)
  {
    var size := Size(lower, upper, incr);
    SizePositive(lower, upper, incr);
    hide Quot, Rem, Size, Unchunk, GivenStatic, Scaled, Count, First, LeftOver, Int32;
    if Count(size, threads, t) > 0 {
      FullShareFits(lower, upper, incr, threads, t);
    } else {
      EmptyShareIs(lower, upper, incr, threads, t);
      EmptyWrapped(lower, upper, incr, size, GivenStatic(lower, upper, incr, threads, t));
    }
  }

  lemma {:induction false} SameRunsPartition(lower: int, upper: int, incr: int, bs: seq<Bounds>, cs: seq<Bounds>)
    requires incr != 0 && |bs| == |cs| && Partitions(lower, upper, incr, bs)
    requires forall t: nat, x: int | t < |bs| :: Executes(bs[t], incr, x) <==> Executes(cs[t], incr, x)
    ensures Partitions(lower, upper, incr, cs)
  {
    hide Executes, InLoop;
    forall x: int | InLoop(lower, upper, incr, x) ensures exists t: nat :: t < |cs| && OnlyRunner(cs, incr, x, t) {
      var t: nat :| t < |bs| && OnlyRunner(bs, incr, x, t);
      assert OnlyRunner(cs, incr, x, t);
    }
  }

  /** The last thread's share is empty when there are fewer iterations than threads. */
  lemma {:induction false} LastShareEmpty(size: nat, threads: nat)
    requires 0 < size < threads
    ensures Count(size, threads, threads - 1) == 0 && Chunk(size, threads) == 0 && LeftOver(size, threads) == size
  {
    Unique(size, threads, 0, size);
    hide Quot, Rem;
  }

  /** An empty share that wraps around executes a value that is another thread's, or none of the loop. */
  lemma {:induction false} EmptyShareBreaks(lower: int, upper: int, incr: int, threads: nat)
    requires LoopOk(lower, upper, incr, threads) && LengthOk(lower, upper, incr, threads)
    requires !EmptySharesFit(lower, upper, incr, threads)
    ensures !Partitions(lower, upper, incr, Ranges(lower, upper, incr, threads))
  {
    var size := Size(lower, upper, incr);
    SizePositive(lower, upper, incr);
    LastShareEmpty(size, threads);
    assert Scaled(lower, upper, incr, threads);
    hide Quot, Rem, Size, Unchunk, GivenStatic, Scaled, Count, First, LeftOver, Int32, Executes, Ranges, Chunk;
    var u: nat := threads - 1;
    var bs := Ranges(lower, upper, incr, threads);
    EmptyShareIs(lower, upper, incr, threads, u);
    EmptyWrapped(lower, upper, incr, size, bs[u]);
    var x := bs[u].lower;
    if Partitions(lower, upper, incr, bs) {
      assert InLoop(lower, upper, incr, x);
      var t := OwnerOf(lower, upper, incr, threads, x);
      SameRuns(lower, upper, incr, threads, t, x);
      TwoRunners(lower, upper, incr, bs, x, t, u);
    }
  }

  lemma {:induction false} TwoRunners(lower: int, upper: int, incr: int, bs: seq<Bounds>, x: int, t: nat, u: nat)
    requires incr != 0 && t < |bs| && u < |bs| && t != u && InLoop(lower, upper, incr, x)
    requires Executes(bs[t], incr, x) && Executes(bs[u], incr, x)
    ensures !Partitions(lower, upper, incr, bs)
  {
    hide Executes, InLoop;
  }

  /** The thread whose share holds a value of the loop. */
  lemma {:induction false} OwnerOf(lower: int, upper: int, incr: int, threads: nat, x: int) returns (t: nat)
    requires LoopOk(lower, upper, incr, threads) && Scaled(lower, upper, incr, threads)
    requires InLoop(lower, upper, incr, x)
    ensures t < threads && Count(Size(lower, upper, incr), threads, t) > 0
    ensures Executes(Unchunk(lower, upper, incr, threads, t), incr, x)
  {
    var size := Size(lower, upper, incr);
    SharesAddUp(size, threads);
    hide Quot, Rem, Chunk, LeftOver, First, Size, Unchunk, Executes, At, Scaled, Count;
    var k: nat :| k < size && x == At(lower, incr, k);
    t := SomeThread(size, threads, k, threads);
    RunsItsShare(lower, upper, incr, threads, t, x);
  }

  /** Where the remainder is not scaled no bound wraps. */
  lemma {:induction false} UnscaledFits(lower: int, upper: int, incr: int, threads: nat, t: nat)
    requires LoopOk(lower, upper, incr, threads) && LengthOk(lower, upper, incr, threads) && t < threads
    requires !Scaled(lower, upper, incr, threads)
    ensures InInt32(Unchunk(lower, upper, incr, threads, t).upper)
  {
    var size := Size(lower, upper, incr);
    var chunk, left := Chunk(size, threads), LeftOver(size, threads);
    ShareEnds(size, threads, t);
    Within(lower, upper, incr, size - 1);
    hide Quot, Rem, Chunk, LeftOver, First, Size;
    Distribute(incr, size, -1);
    if t < left {
      Distribute(chunk + 1, t, 1);
      Distribute(incr, t * (chunk + 1), chunk + 1);
      Steps(incr, (t + 1) * (chunk + 1) - 1, size - 1);
      Distribute(incr, (t + 1) * (chunk + 1), -1);
    } else {
      Distribute(chunk, t, 1);
      Distribute(incr, t * chunk, chunk);
      MulMono(left, t, chunk);
      MulMono(1, chunk, left);
      Commute(chunk, left);
      Steps(incr, (t + 1) * chunk - 1, size - 1);
      Distribute(incr, (t + 1) * chunk, -1);
      Shifted(incr, (t + 1) * chunk - 1, left, size - 1);
    }
  }

  lemma {:induction false} Steps(incr: int, m: nat, last: nat)
    requires m <= last
    ensures if incr > 0 then 0 <= m * incr <= last * incr else last * incr <= m * incr <= 0
  {
    MulMono(m, last, Abs(incr));
    MulMono(0, m, Abs(incr));
    Negated(m, incr);
    Negated(last, incr);
  }

  /** `left` values behind step `m`, which is at least `left` steps from both ends. */
  lemma {:induction false} Shifted(incr: int, m: nat, left: nat, last: nat)
    requires incr != 0 && left <= m + 1 && m + left <= last && (incr < 0 ==> left <= m)
    ensures if incr > 0 then 0 <= m * incr + left <= last * incr else last * incr <= m * incr + left <= 0
  {
    Steps(incr, m, last);
    Steps(incr, m + left, last);
    Distribute(incr, m, left);
    MulMono(1, Abs(incr), left);
    Commute(Abs(incr), left);
    Negated(left, incr);
    if incr < 0 {
      MulMono(left, m, -incr);
      Negated(m, incr);
    }
  }

  lemma {:induction false} UnscaledBreaks(lower: int, upper: int, incr: int, threads: nat)
    requires LoopOk(lower, upper, incr, threads) && LengthOk(lower, upper, incr, threads)
    requires !Scaled(lower, upper, incr, threads)
    ensures !Partitions(lower, upper, incr, Ranges(lower, upper, incr, threads))
  {
    hide Quot, Rem, Chunk, LeftOver, First, Size, Unchunk, At, Scaled, Count, Executes, Ranges, Reaches, GivenStatic;
    var bs := Ranges(lower, upper, incr, threads);
    SizePositive(lower, upper, incr);
    forall t: nat | t < threads
      ensures var last := At(lower, incr, Size(lower, upper, incr) - 1);
              bs[t].upper != last && Reaches(incr, bs[t].upper, last)
    {
      LastIsMissed(lower, upper, incr, threads, t);
      GivenIsWrapped(lower, upper, incr, threads, t);
      UnscaledFits(lower, upper, incr, threads, t);
    }
    NobodyRunsLast(lower, upper, incr, bs);
  }

  /**
   Without a chunk size the ranges the code gives the threads partition the loop,
   whatever its direction, exactly when two things hold.  The step is one, the
   iterations divide evenly, or there are fewer iterations than threads: the
   remainder added at line 282 is not scaled by the step.  And no empty share wraps
   around.
   */
  lemma {:induction false} PartitionsExactly(lower: int, upper: int, incr: int, threads: nat)
    requires LoopOk(lower, upper, incr, threads) && LengthOk(lower, upper, incr, threads)
    ensures Partitions(lower, upper, incr, Ranges(lower, upper, incr, threads))
            <==> Scaled(lower, upper, incr, threads) && EmptySharesFit(lower, upper, incr, threads)
  {
    hide Scaled, EmptySharesFit, Partitions, Ranges, Shares, LengthOk, GivenStatic, Unchunk, Executes;
    if !Scaled(lower, upper, incr, threads) {
      UnscaledBreaks(lower, upper, incr, threads);
    } else if !EmptySharesFit(lower, upper, incr, threads) {
      EmptyShareBreaks(lower, upper, incr, threads);
    } else {
      var bs, cs := Shares(lower, upper, incr, threads), Ranges(lower, upper, incr, threads);
      IdealPartitions(lower, upper, incr, threads);
      forall t: nat, x: int | t < threads ensures Executes(bs[t], incr, x) <==> Executes(cs[t], incr, x) {
        SameRuns(lower, upper, incr, threads, t, x);
      }
      SameRunsPartition(lower, upper, incr, bs, cs);
    }
  }

  /**
   Five iterations of a step of two on two threads: values 6 and 8 are executed by
   nobody, and 5 and 7 are no values of the loop.
   */
  lemma {:induction false} UnscaledRemainderFails()
    ensures !Partitions(0, 8, 2, Ranges(0, 8, 2, 2))
  {
    Unique(8, 2, 4, 0);
    Unique(5, 2, 2, 1);
    hide Quot, Rem, Partitions, Ranges;
    PartitionsExactly(0, 8, 2, 2);
  }

  /** The empty share behind a decreasing loop wraps around as a whole, and its end happens to be the upper bound. */
  predicate EndsByCoincidence(lower: int, upper: int, incr: int, threads: nat, t: nat)
    requires incr != 0 && threads > 0
  {
    var size := Size(lower, upper, incr);
    Count(size, threads, t) == 0 && !InInt32(lower + size) && lower + size - incr == upper + WORD
  }

  /**
   Where these ranges partition the loop the code flags the thread that executes the
   last iteration and no other; but only if the upper bound is its value, and in a
   decreasing loop only if that thread executes nothing else.  The one exception is a
   thread without iterations whose range ends at the upper bound by coincidence.
   */
  lemma {:induction false} FlagByCode(lower: int, upper: int, incr: int, threads: nat, t: nat)
    requires LoopOk(lower, upper, incr, threads) && LengthOk(lower, upper, incr, threads) && t < threads
    requires Scaled(lower, upper, incr, threads) && EmptySharesFit(lower, upper, incr, threads)
    ensures var g := GivenStatic(lower, upper, incr, threads, t);
            var size := Size(lower, upper, incr);
            g.last <==> || EndsByCoincidence(lower, upper, incr, threads, t)
                        || (&& upper == At(lower, incr, size - 1) && Executes(g, incr, upper)
                            && (incr > 0 || Count(size, threads, t) == 1))
  {
    var size := Size(lower, upper, incr);
    FlagWithoutChunks(lower, upper, incr, threads, t);
    SameRuns(lower, upper, incr, threads, t, upper);
    FlagIs(lower, upper, incr, threads, t);
    ShareBounds(lower, upper, incr, threads, t);
    SmallStep(lower, upper, incr);
    WrapOnce(lower + size);
    WrapOnce(lower + size - incr);
    hide Quot, Rem, Size, Unchunk, GivenStatic, Scaled, Count, Int32, Chunk, Executes;
    if Count(size, threads, t) > 0 {
      FullShareFits(lower, upper, incr, threads, t);
    } else {
      EmptyShareIs(lower, upper, incr, threads, t);
    }
  }

  lemma {:induction false} FlagIs(lower: int, upper: int, incr: int, threads: nat, t: nat)
    requires LoopOk(lower, upper, incr, threads)
    ensures var g := GivenStatic(lower, upper, incr, threads, t); g.last <==> g.upper == upper && g.lower <= upper
  {
    hide Quot, CQuot, Int32;
  }

  /**
   With a chunk size the code flags exactly the owner of the last iteration if and
   only if the lower bound is a multiple of the span and the upper bound is rounded
   towards the start of its chunk, which takes a sign that goes with the step, a
   multiple of the span, or a single thread.
   */
  lemma {:induction false} FlagExactly(lower: int, upper: int, incr: int, chunk: int, threads: nat)
    requires LoopOk(lower, upper, incr, threads) && chunk > 0 && ChunkedFits(lower, upper, incr, chunk, threads)
    ensures forall t: nat | t < threads ::
              Given(StaticChunked, lower, upper, incr, chunk, threads, t)
                  == Some(Chunked(lower, upper, incr, chunk, threads, t))
    ensures incr * chunk != 0
    ensures Flagged(lower, upper, incr, chunk, threads) <==> Aligned(lower, upper, incr, chunk, threads)
  {
    IdealFlag(lower, upper, incr, chunk, threads);
    hide *;
    forall t: nat | t < threads {
      ChunkedIsIdeal(lower, upper, incr, chunk, threads, t);
    }
  }

  // ----- with a chunk size, whatever fits

  /** The spans before a thread are fewer than the stride. */
  lemma {:induction false} SpansBefore(span: int, threads: nat, t: nat)
    requires t < threads && InInt32(span * threads)
    ensures if span >= 0 then 0 <= span * t && span * t + span <= INT_MAX else INT_MIN <= span * t + span <= 0
    ensures InInt32(span) && InInt32(span * t) && (span < 0 ==> span * t <= 0)
  {
    MulMono(t + 1, threads, Abs(span));
    Distribute(span, t, 1);
    Commute(span, t);
    Commute(span, threads);
    Commute(span, t + 1);
    Negated(t, span);
    Negated(t + 1, span);
    Negated(threads, span);
    MulMono(0, t, Abs(span));
  }

  /** A chunk that wraps around starts with a value in front of the loop; one that ends behind an `int` runs nothing. */
  lemma {:induction false} ChunkWraps(lower: int, upper: int, incr: int, span: int, l: int, b: Bounds)
    requires incr != 0 && InInt32(lower) && InInt32(upper) && InInt32(incr) && Reaches(incr, lower, upper)
    requires InInt32(span)
    requires if incr > 0 then span >= incr && lower <= l <= INT_MAX + INT_MAX && l + span <= INT_MAX + INT_MAX
             else span <= incr && INT_MIN + INT_MIN <= l <= lower && INT_MIN + INT_MIN <= l + span
    requires if incr > 0 then l - lower <= INT_MAX else lower - l <= 0x8000_0000
    requires b.lower == Int32(l) && b.upper == Int32(l + span - incr)
    ensures if InInt32(l) && InInt32(l + span - incr) then b.lower == l && b.upper == l + span - incr
            else if InInt32(l) then !Reaches(incr, b.lower, b.upper)
            else Executes(b, incr, b.lower) && Reaches(incr, b.lower, upper) && !Reaches(incr, l, b.lower)
  {
    Unique(0, Abs(incr), 0, 0);
    WrapOnce(l);
    WrapOnce(l + span - incr);
    hide Quot, Rem, Int32;
  }

  /** The first chunk the code gives thread `t` holds the right iterations. */
  ghost predicate FirstChunkRight(lower: int, upper: int, incr: int, chunk: int, threads: nat, t: nat)
    requires LoopOk(lower, upper, incr, threads) && chunk > 0
  {
    var g := Given(StaticChunked, lower, upper, incr, chunk, threads, t);
    && g.Some?
    && forall x: int ::
         InChunk(g.value, upper, incr, 0, x)
         <==> InChunk(Chunked(lower, upper, incr, chunk, threads, t), upper, incr, 0, x)
  }

  lemma {:induction false} ChunkBounds(lower: int, upper: int, incr: int, chunk: int, threads: nat, t: nat)
    requires LoopOk(lower, upper, incr, threads) && chunk > 0 && t < threads
    requires InInt32(incr * chunk) && InInt32((incr * chunk) * threads)
    ensures var span := incr * chunk;
            var l := lower + span * t;
            var g := Given(StaticChunked, lower, upper, incr, chunk, threads, t);
            && g.Some? && g.value.lower == Int32(l) && g.value.upper == Int32(l + span - incr)
            && Chunked(lower, upper, incr, chunk, threads, t).lower == l
            && Chunked(lower, upper, incr, chunk, threads, t).upper == l + span - incr
  {
    SpanNonzero(incr, chunk, threads);
    WrapTwice(lower + (incr * chunk) * t, incr * chunk - incr);
    hide Quot, Rem, CRem, Int32;
  }

  lemma {:induction false} SpanReaches(incr: int, chunk: int)
    requires chunk > 0 && incr != 0
    ensures if incr > 0 then incr * chunk >= incr else incr * chunk <= incr
  {
    MulMono(1, chunk, Abs(incr));
    Commute(chunk, incr);
    Negated(chunk, incr);
  }

  lemma {:induction false} FirstOfChunk(b: Bounds, upper: int, incr: int, x: int)
    requires incr != 0
    ensures InChunk(b, upper, incr, 0, x) <==> Executes(b, incr, x) && Reaches(incr, x, upper)
    ensures Executes(b, incr, x) ==> Reaches(incr, b.lower, x) && Reaches(incr, b.lower, b.upper)
    ensures Executes(b, incr, b.lower) <==> Reaches(incr, b.lower, b.upper)
  {
    Unique(0, Abs(incr), 0, 0);
    hide Rem;
  }

  /**
   As long as the stride fits, a thread's first chunk is right exactly when its lower
   bound fits, and its upper bound too unless the chunk lies behind the loop.
   */
  lemma {:induction false} FirstChunkExactly(lower: int, upper: int, incr: int, chunk: int, threads: nat, t: nat)
    requires LoopOk(lower, upper, incr, threads) && chunk > 0 && t < threads
    requires InInt32(lower) && InInt32(upper) && InInt32(incr) && InInt32((incr * chunk) * threads)
    ensures var l := lower + (incr * chunk) * t;
            FirstChunkRight(lower, upper, incr, chunk, threads, t)
            <==> InInt32(l) && (InInt32(l + incr * chunk - incr) || !Reaches(incr, l, upper))
  {
    var span := incr * chunk;
    var l := lower + span * t;
    SpansBefore(span, threads, t);
    SpanReaches(incr, chunk);
    ChunkBounds(lower, upper, incr, chunk, threads, t);
    var g := Given(StaticChunked, lower, upper, incr, chunk, threads, t).value;
    var c := Chunked(lower, upper, incr, chunk, threads, t);
    ChunkWraps(lower, upper, incr, span, l, g);
    FirstOfChunk(g, upper, incr, g.lower);
    FirstOfChunk(c, upper, incr, g.lower);
    FirstOfChunk(c, upper, incr, l);
    FirstOfChunk(g, upper, incr, l);
    assert c.lower == l && c.upper == l + span - incr && Reaches(incr, c.lower, c.upper);
    hide Int32, Given, Chunked, InChunk, Executes;
    forall x: int | InInt32(l) && (InInt32(l + span - incr) || !Reaches(incr, l, upper))
      ensures InChunk(g, upper, incr, 0, x) <==> InChunk(c, upper, incr, 0, x)
    {
      FirstOfChunk(g, upper, incr, x);
      FirstOfChunk(c, upper, incr, x);
      ChunkSame(g, c, upper, incr, x);
    }
  }

  lemma {:induction false} ChunkSame(g: Bounds, c: Bounds, upper: int, incr: int, x: int)
    requires incr != 0
    requires (g.lower == c.lower && g.upper == c.upper)
             || (!Reaches(incr, g.lower, g.upper) && !Reaches(incr, c.lower, upper))
    ensures Executes(g, incr, x) && Reaches(incr, x, upper) <==> Executes(c, incr, x) && Reaches(incr, x, upper)
  {
    hide Rem;
  }

  // ----- what happens outside

  /** Sixteen iterations up to the largest `int` in one chunk: the second thread's chunk wraps around. */
  lemma {:induction false} ChunkOverflows()
    ensures var lower := INT_MAX - 15;
            && LoopOk(lower, INT_MAX, 1, 2) && !FirstChunkRight(lower, INT_MAX, 1, 16, 2, 1)
            && GivenChunked(lower, INT_MAX, 1, 16, 2, 1).Some?
            && GivenChunked(lower, INT_MAX, 1, 16, 2, 1).value.lower == INT_MIN
  {
    var lower := INT_MAX - 15;
    FirstChunkExactly(lower, INT_MAX, 1, 16, 2, 1);
    ChunkBounds(lower, INT_MAX, 1, 16, 2, 1);
    WrapOnce(INT_MAX + 1);
    hide FirstChunkRight, Chunked, GivenChunked, Int32;
  }

  /** A stride of 2^32 is stored as 0, and the code takes a remainder by it. */
  lemma {:induction false} StrideOverflows(t: nat)
    ensures LoopOk(0, INT_MAX, 1, 4) && !ChunkedFits(0, INT_MAX, 1, 0x4000_0000, 4)
    ensures Given(StaticChunked, 0, INT_MAX, 1, 0x4000_0000, 4, t) == None
  {
    assert !InInt32(0x4000_0000 * 4);
    WrapWord(0, 1);
    hide CRem, Chunked, Int32;
  }

  lemma {:induction false} WholeRange(threads: nat, t: nat)
    requires threads > 0
    ensures GivenStatic(INT_MIN, INT_MAX, 1, threads, t) == Bounds(INT_MIN, INT_MAX, 0, true)
  {
    UnitQuot(-1, 1);
    QuotZero(threads);
    WrapOnce(INT_MAX - INT_MIN);
    WrapOnce(INT_MIN - 1);
    NoShares(INT_MIN, 1, t);
    hide Quot, CQuot, Int32, Start, End;
    GivenSteps(INT_MIN, INT_MAX, 1, threads, t, 0, 0, 0, 0, INT_MIN, INT_MAX);
  }

  lemma {:induction false} NoShares(lower: int, incr: int, t: nat)
    ensures Start(lower, incr, t, 0) == lower && End(lower, incr, 0) == lower - incr
  {
  }

  lemma {:induction false} AllInts(x: int)
    ensures InLoop(INT_MIN, INT_MAX, 1, x) <==> InInt32(x)
    ensures Executes(Bounds(INT_MIN, INT_MAX, 0, true), 1, x) <==> InInt32(x)
  {
    Unique(INT_MAX - INT_MIN, 1, INT_MAX - INT_MIN, 0);
    Unique(Abs(x - INT_MIN), 1, Abs(x - INT_MIN), 0);
    hide Quot, Rem;
    if InInt32(x) {
      var k: nat := x - INT_MIN;
      assert x == At(INT_MIN, 1, k) && k < Size(INT_MIN, INT_MAX, 1);
    }
  }

  /**
   The whole range of an `int` has 2^32 iterations, stored as 0: every thread gets
   all of them, which is right for one thread only.
   */
  lemma {:induction false} LengthOverflows(threads: nat)
    requires threads > 0
    ensures !LengthOk(INT_MIN, INT_MAX, 1, threads)
    ensures forall t: nat | t < threads ::
              Given(Static, INT_MIN, INT_MAX, 1, 0, threads, t) == Some(Bounds(INT_MIN, INT_MAX, 0, true))
    ensures Partitions(INT_MIN, INT_MAX, 1, Ranges(INT_MIN, INT_MAX, 1, threads)) <==> threads == 1
  {
    hide GivenStatic, Ranges, Executes, InLoop;
    var bs := Ranges(INT_MIN, INT_MAX, 1, threads);
    forall t: nat | t < threads ensures bs[t] == Bounds(INT_MIN, INT_MAX, 0, true) {
      WholeRange(threads, t);
    }
    AllInts(0);
    if threads > 1 {
      TwoRunners(INT_MIN, INT_MAX, 1, bs, 0, 0, 1);
    } else {
      forall x: int ensures InLoop(INT_MIN, INT_MAX, 1, x) <==> Executes(bs[0], 1, x) {
        AllInts(x);
      }
      forall x: int | InLoop(INT_MIN, INT_MAX, 1, x) ensures exists t: nat :: t < |bs| && OnlyRunner(bs, 1, x, t) {
        assert OnlyRunner(bs, 1, x, 0);
      }
    }
  }

  /** The code's bounds, one step after the other. */
  lemma {:induction false} GivenSteps(lower: int, upper: int, incr: int, threads: nat, t: nat, size: nat, chunk: int,
                                      left: int, n: int, l: int, u: int)
    requires incr != 0 && threads > 0 && size == (CQuot(Int32(upper - lower), incr) + 1) % WORD
    requires chunk == Int32(Quot(size, threads)) && left == Int32(size - chunk * threads)
    requires n == if t < left then Int32(chunk + 1) else chunk
    requires l == Int32(Start(lower, incr, t, n) + if t < left then 0 else left) && u == Int32(End(l, incr, n))
    ensures GivenStatic(lower, upper, incr, threads, t) == Bounds(l, u, Int32(size), u == upper && l <= upper)
  {
    hide Quot, CQuot, Int32, Start, End;
  }

  lemma {:induction false} EmptyShareGiven()
    ensures GivenStatic(INT_MAX, INT_MAX, 1, 2, 1) == Bounds(INT_MIN, INT_MAX, 1, true)
  {
    Unique(1, 2, 0, 1);
    UnitQuot(0, 1);
    WrapOnce(INT_MAX + 1);
    WrapOnce(INT_MIN - 1);
    hide Quot, Rem, CQuot, Int32;
    GivenSteps(INT_MAX, INT_MAX, 1, 2, 1, 1, 0, 1, 0, INT_MIN, INT_MAX);
  }

  /** Behind a loop that ends at the largest `int` an empty share wraps around and becomes everything. */
  lemma {:induction false} EmptyShareOverflows()
    ensures LengthOk(INT_MAX, INT_MAX, 1, 2) && !EmptySharesFit(INT_MAX, INT_MAX, 1, 2)
    ensures Given(Static, INT_MAX, INT_MAX, 1, 0, 2, 1) == Some(Bounds(INT_MIN, INT_MAX, 1, true))
    ensures !Partitions(INT_MAX, INT_MAX, 1, Ranges(INT_MAX, INT_MAX, 1, 2))
  {
    QuotZero(1);
    hide Quot, Scaled, GivenStatic, Ranges, Partitions;
    EmptyShareGiven();
    PartitionsExactly(INT_MAX, INT_MAX, 1, 2);
  }

  // ----- bounds further apart than an `int`

  /** A third of 2^31 + 1. */
  const THIRD: int := 715827883

  lemma {:induction false} LuckyLength()
    ensures (CQuot(Int32(0 - INT_MIN), THIRD) + 1) % WORD == WORD - 1
  {
    Unique(0x8000_0000, THIRD, 2, 0x8000_0000 - 2 * THIRD);
    WrapOnce(0 - INT_MIN);
    hide Int32, Quot;
  }

  lemma {:induction false} LuckyBounds(t: nat)
    requires t < 2
    ensures GivenStatic(INT_MIN, 0, THIRD, 2, t)
            == if t == 0 then Bounds(INT_MIN, -THIRD, -1, false) else Bounds(1 - THIRD, 0, -1, true)
  {
    LuckyLength();
    Unique(WORD - 1, 2, INT_MAX, 1);
    WrapOnce(WORD - 1);
    WrapOnce(INT_MAX + 1);
    var half: int := (THIRD - 1) / 2;
    WrapWord(-THIRD, -half - 1);
    WrapWord(1 - THIRD, half);
    WrapWord(0, half - 1);
    hide Int32, Quot, CQuot;
  }

  lemma {:induction false} LuckyShape()
    ensures !LengthOk(INT_MIN, 0, THIRD, 2) && Size(INT_MIN, 0, THIRD) == 3
  {
    Unique(0x8000_0000, THIRD, 2, 0x8000_0000 - 2 * THIRD);
    hide Quot;
  }

  lemma {:induction false} LuckyLoop(x: int)
    ensures InLoop(INT_MIN, 0, THIRD, x) <==> x == INT_MIN || x == INT_MIN + THIRD || x == 1 - THIRD
  {
    Unique(0x8000_0000, THIRD, 2, 0x8000_0000 - 2 * THIRD);
    hide Quot;
    assert Size(INT_MIN, 0, THIRD) == 3;
    assert At(INT_MIN, THIRD, 0) == INT_MIN && At(INT_MIN, THIRD, 1) == INT_MIN + THIRD;
    assert At(INT_MIN, THIRD, 2) == 1 - THIRD;
  }

  /** From `l` to less than `n` steps further there are `n` values. */
  lemma {:induction false} FewValues(l: int, u: int, x: int)
    ensures l <= u < l + THIRD ==> (Executes(Bounds(l, u, -1, true), THIRD, x) <==> x == l)
    ensures l + THIRD <= u < l + 2 * THIRD ==>
              (Executes(Bounds(l, u, -1, false), THIRD, x) <==> x == l || x == l + THIRD)
  {
    QuotRem(Abs(x - l), THIRD);
    Unique(0, THIRD, 0, 0);
    Unique(THIRD, THIRD, 1, 0);
    hide Quot, Rem;
  }

  /**
   Where the length is wrong the code can be right by coincidence: it takes these
   three iterations for 2^32 - 1, and the two threads' bounds, computed modulo 2^32,
   partition the loop all the same.
   */
  lemma {:induction false} RightByCoincidence()
    ensures !LengthOk(INT_MIN, 0, THIRD, 2) && Size(INT_MIN, 0, THIRD) == 3
    ensures (CQuot(Int32(0 - INT_MIN), THIRD) + 1) % WORD == WORD - 1
    ensures Partitions(INT_MIN, 0, THIRD, Ranges(INT_MIN, 0, THIRD, 2))
  {
    LuckyShape();
    LuckyLength();
    LuckyBounds(0);
    LuckyBounds(1);
    var bs := Ranges(INT_MIN, 0, THIRD, 2);
    assert bs[0] == GivenStatic(INT_MIN, 0, THIRD, 2, 0) && bs[1] == GivenStatic(INT_MIN, 0, THIRD, 2, 1);
    hide *;
    forall x: int
      ensures InLoop(INT_MIN, 0, THIRD, x) <==> Executes(bs[0], THIRD, x) || Executes(bs[1], THIRD, x)
      ensures !(Executes(bs[0], THIRD, x) && Executes(bs[1], THIRD, x))
    {
      LuckyLoop(x);
      FewValues(INT_MIN, -THIRD, x);
      FewValues(1 - THIRD, 0, x);
    }
    TwoShares(INT_MIN, 0, THIRD, bs);
  }

  lemma {:induction false} TwoShares(lower: int, upper: int, incr: int, bs: seq<Bounds>)
    requires incr != 0 && |bs| == 2
    requires forall x: int :: InLoop(lower, upper, incr, x) <==> Executes(bs[0], incr, x) || Executes(bs[1], incr, x)
    requires forall x: int :: !(Executes(bs[0], incr, x) && Executes(bs[1], incr, x))
    ensures Partitions(lower, upper, incr, bs)
  {
    hide Executes, InLoop;
    forall x: int | InLoop(lower, upper, incr, x) ensures exists t: nat :: t < |bs| && OnlyRunner(bs, incr, x, t) {
      assert OnlyRunner(bs, incr, x, if Executes(bs[0], incr, x) then 0 else 1);
    }
  }

  // ----- the last-iteration flag

  lemma {:induction false} ChunkedSteps(lower: int, upper: int, incr: int, chunk: int, threads: nat, t: nat, span: int,
                                        stride: int, l: int, begin: int)
    requires span == incr * chunk && stride == span * threads && span != 0 && stride != 0
    requires l == lower + span * t && begin == upper - CRem(upper, span)
    requires InInt32(span) && InInt32(stride) && InInt32(l) && InInt32(begin) && InInt32(l + span - incr)
    requires InInt32(begin - l)
    ensures GivenChunked(lower, upper, incr, chunk, threads, t)
            == Some(Bounds(l, l + span - incr, stride, CRem(begin - l, stride) == 0))
  {
    hide CRem, Int32;
  }

  /**
   One to four in chunks of two on two threads, not starting at a multiple of two:
   the second thread runs the last iteration, and nobody is flagged.
   */
  lemma {:induction false} FlagMissed(t: nat)
    requires t < 2
    ensures Given(StaticChunked, 1, 4, 1, 2, 2, t)
            == Some(if t == 0 then Bounds(1, 2, 4, false) else Bounds(3, 4, 4, false))
    ensures Executes(Bounds(3, 4, 4, false), 1, 4) && CRem(1, 2) != 0
  {
    CRemIs(1, 2, 0, 1);
    CRemIs(4, 2, 2, 0);
    CRemIs(3, 4, 0, 3);
    CRemIs(1, 4, 0, 1);
    Unique(1, 1, 1, 0);
    ChunkedSteps(1, 4, 1, 2, 2, t, 2, 4, 1 + 2 * t, 4);
    hide Quot, Rem, CRem, GivenChunked;
  }

  lemma {:induction false} CRemIs(x: nat, b: nat, q: nat, r: nat)
    requires x == q * b + r && r < b
    ensures CRem(x, b) == r
  {
    Unique(x, b, q, r);
  }

  /** A decreasing loop of two iterations on one thread, without a chunk size: the only thread is not flagged. */
  lemma {:induction false} FlagMissedGoingDown()
    ensures Given(Static, 1, 0, -1, 0, 1, 0) == Some(Bounds(1, 0, 2, false))
    ensures Executes(Bounds(1, 0, 2, false), -1, 0)
  {
    Unique(2, 1, 2, 0);
    UnitQuot(-1, -1);
    Unique(1, 1, 1, 0);
    hide Quot, Rem, CQuot, Int32;
    GivenSteps(1, 0, -1, 1, 0, 2, 2, 0, 2, 1, 0);
  }
}
