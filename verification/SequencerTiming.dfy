/**
 Exactly when a run does not raise: every issue needs the instruction at its
 place in the stream to be offloaded, and the FREPs before it to be decoded.
 */
module SequencerTiming {
  import opened SequencerModel
  import opened SequencerNest
  import opened SequencerGeometry
  import opened SequencerReplay
  import opened SequencerUnrolling
  import opened SequencerStep
  import opened SequencerQueue
  import opened SequencerProgram
  import opened SequencerRun
  import opened SequencerLabels

  /**
   The condition on the events, after `m` issues, `o` offloads and `c` decodings:
   each issue has a place in the stream, that place is offloaded, and the FREPs in
   front of it are decoded.
   */
  predicate Timely(places: seq<nat>, stream: seq<Insn>, evs: seq<Event>, m: nat, o: nat, c: nat)
    decreases |evs|
  {
    evs == []
    || match evs[0]
       case Offload(_) => Timely(places, stream, evs[1..], m, o + 1, c)
       case Configure(_) => Timely(places, stream, evs[1..], m, o, c + 1)
       case Issued =>
         && m < |places| && places[m] < o && places[m] < |stream| && FrepCount(stream[..places[m]]) <= c
         && Timely(places, stream, evs[1..], m + 1, o, c)
  }

  // ----- one issue, on the emulator's state

  /** The number of FREPs queued in a row from `r` on. */
  function Leading(q: seq<Insn>, r: nat): nat
    decreases |q|
  {
    if r < |q| && q[r].isFrep then RemoveShorter(q, r); 1 + Leading(Remove(q, r), r) else 0
  }

  /** The next instruction is there, and so are the bounds of the loops it enters; `i` and `f` are still to come. */
  predicate Ready(l: State, i: nat, f: nat) {
    var k := Leading(l.insns, l.rdPtr);
    l.rdPtr + k + i < |l.insns| && l.nestDepth + k + f <= |l.cfgs|
  }

  lemma {:induction false} LeadingPart(q: seq<Insn>, x: seq<Insn>, r: nat)
    ensures r + Leading(q, r) < |q| || r + Leading(q + x, r) < |q| ==> Leading(q, r) == Leading(q + x, r)
    decreases |q|
  {
    if r < |q| && q[r].isFrep {
      RemoveShorter(q, r);
      assert Remove(q + x, r) == Remove(q, r) + x;
      LeadingPart(Remove(q, r), x, r);
    }
  }

  /** Entering loops pops the leading FREPs and enters as many loops. */
  lemma {:induction false} EnterCounts(s: State)
    requires EnterLoops(s).Some? && EnterLoops(s).value.rdPtr < |EnterLoops(s).value.insns|
    ensures var e, k := EnterLoops(s).value, Leading(s.insns, s.rdPtr);
            && e.nestDepth == s.nestDepth + k && e.loopIdx == s.loopIdx + k && e.rdPtr == s.rdPtr
            && |e.insns| == |s.insns| - k && |e.cfgs| == |s.cfgs|
    decreases |s.insns|
  {
    if FrepNext(s) {
      var a := s.loopIdx + 1;
      RemoveShorter(s.insns, s.rdPtr);
      EnterCounts(State(a, s.cfgs[a := s.cfgs[a].(basePtr := s.rdPtr)], s.nestDepth + 1, Remove(s.insns, s.rdPtr),
          s.rdPtr));
    }
  }

  lemma {:induction false} EnterWorks(s: State)
    requires s.rdPtr + Leading(s.insns, s.rdPtr) < |s.insns|
    requires s.loopIdx + Leading(s.insns, s.rdPtr) < |s.cfgs|
    ensures EnterLoops(s).Some? && EnterLoops(s).value.rdPtr < |EnterLoops(s).value.insns|
    decreases |s.insns|
  {
    if FrepNext(s) {
      var a := s.loopIdx + 1;
      RemoveShorter(s.insns, s.rdPtr);
      EnterWorks(State(a, s.cfgs[a := s.cfgs[a].(basePtr := s.rdPtr)], s.nestDepth + 1, Remove(s.insns, s.rdPtr),
          s.rdPtr));
    }
  }

  ghost predicate AllDecoded(c: seq<LoopCfg>, a: Idx) {
    a < |c| && forall j | 0 <= j <= a :: c[j].frep.Some?
  }

  lemma {:induction false} PropagateWorks(c: seq<LoopCfg>, i: nat)
    requires AllDecoded(c, i)
    ensures Propagate(c, i).Some?
    decreases i
  {
    if i > 0 && LastIter(c, i) {
      PropagateWorks(c[i - 1 := c[i - 1].(instIdx := c[i - 1].instIdx + 1)], i - 1);
    }
  }

  lemma {:induction false} UnwindWorks(c: seq<LoopCfg>, a: Idx)
    requires AllDecoded(c, a)
    ensures Unwind(c, a).Some?
    decreases a + 1
  {
    if a >= 0 && LastIter(c, a) && LastInst(c, a) {
      UnwindWorks(c[a := ResetCfg(c[a])], a - 1);
    }
  }

  lemma {:induction false} AdvanceWorks(s: State)
    requires s.loopIdx >= 0 && AllDecoded(s.cfgs, s.loopIdx)
    ensures Advance(s).Some?
  {
    var a := s.loopIdx;
    PropagateWorks(s.cfgs[a := s.cfgs[a].(instIdx := s.cfgs[a].instIdx + 1)], a);
  }

  lemma {:induction false} LeaveWorks(s: State)
    requires s.loopIdx >= 0 && AllDecoded(s.cfgs, s.loopIdx)
    ensures Leave(s).Some?
  {
    hide Unwind, Advance, NextIteration;
    var a := s.loopIdx;
    var c := s.cfgs[a := ResetCfg(s.cfgs[a])];
    UnwindWorks(c, a - 1);
    UnwindKeepsFreps(c, a - 1);
    var (cfgs, b) := Unwind(c, a - 1).value;
    assert forall j | 0 <= j <= a :: cfgs[j].frep == c[j].frep;
    if b > -1 {
      AdvanceWorks(State(b, cfgs, s.nestDepth, s.insns, s.rdPtr));
    }
  }

  /** With an instruction at the read pointer and the active loops decoded, an issue does not raise. */
  lemma {:induction false} IssueWorks(s: State)
    requires s.rdPtr < |s.insns| && AllDecoded(s.cfgs, s.loopIdx)
    ensures IssueOne(s).Some?
  {
    hide Leave, Advance;
    if s.loopIdx >= 0 {
      AdvanceWorks(s);
      LeaveWorks(s);
    }
  }

  lemma {:induction false} DepthCovers(w: Where)
    requires WhereOk(w)
    ensures FullState(w).loopIdx < FullState(w).nestDepth
  {
    hide Untouched, Stream, Freps, Queue, Cfgs;
  }

  lemma {:induction false} SimSizes(s: State, w: Where, g: seq<LoopCfg>, i: seq<Insn>, f: seq<Frep>, pend: bool)
    requires Sim(s, w, g, i, f, pend)
    ensures var l := FullState(w);
            && l.loopIdx == s.loopIdx && l.nestDepth == s.nestDepth && l.rdPtr == s.rdPtr && l.insns == s.insns + i
            && |l.cfgs| == |s.cfgs| + |f| - Bit(pend) && s.nestDepth + Bit(pend) <= |s.cfgs| && Bit(pend) <= |f|
            && (forall j | 0 <= j < |s.cfgs| - Bit(pend) :: s.cfgs[j].frep.Some?)
            && (pend ==> s.cfgs[|s.cfgs| - 1].frep.None?)
  {
    hide FullState, WhereOk, Untouched, FrepCount;
  }

  lemma {:induction false} SucceedsIfReady(s: State, b: nat)
    requires s.loopIdx < s.nestDepth && s.nestDepth + b <= |s.cfgs|
    requires FrepNext(s) ==> s.nestDepth == s.loopIdx + 1
    requires forall j | 0 <= j < |s.cfgs| - b :: s.cfgs[j].frep.Some?
    requires s.rdPtr + Leading(s.insns, s.rdPtr) < |s.insns|
    requires s.nestDepth + Leading(s.insns, s.rdPtr) + b <= |s.cfgs|
    ensures Emulate(s).Some?
  {
    hide Leading, IssueOne, EnterLoops;
    EnterWorks(s);
    EnterCounts(s);
    EnterShape(s);
    var e := EnterLoops(s).value;
    assert AllDecoded(e.cfgs, e.loopIdx);
    IssueWorks(e);
  }

  lemma {:induction false} ReadyIfSucceeds(s: State, b: nat)
    requires s.loopIdx < s.nestDepth && s.nestDepth + b <= |s.cfgs| && b <= 1
    requires FrepNext(s) ==> s.nestDepth == s.loopIdx + 1
    requires b == 1 ==> s.cfgs[|s.cfgs| - 1].frep.None?
    requires Emulate(s).Some?
    ensures s.rdPtr + Leading(s.insns, s.rdPtr) < |s.insns|
    ensures s.nestDepth + Leading(s.insns, s.rdPtr) + b <= |s.cfgs|
  {
    LeadingMeansFrep(s);
    hide Leading, IssueOne, EnterLoops;
    var e := EnterLoops(s).value;
    IssueNeedsInsn(e);
    EnterCounts(s);
    EnterShape(s);
    IssueShape(e);
  }

  lemma {:induction false} LeadingMeansFrep(s: State)
    ensures Leading(s.insns, s.rdPtr) > 0 ==> FrepNext(s)
  {
  }

  /**
   In a partly loaded state an issue succeeds exactly when the next instruction is
   offloaded and the loops it enters are decoded.
   */
  lemma {:induction false} SucceedsExactly(s: State, w: Where, g: seq<LoopCfg>, i: seq<Insn>, f: seq<Frep>, pend: bool)
    requires Sim(s, w, g, i, f, pend)
    ensures Emulate(s).Some? <==> Ready(FullState(w), |i|, |f|)
  {
    SimSizes(s, w, g, i, f, pend);
    DepthCovers(w);
    LeadingPart(s.insns, i, s.rdPtr);
    LeadingMeansFrep(FullState(w));
    hide Sim, FullState, Emulate, Leading;
    if FrepNext(s) {
      assert FullState(w).insns[s.rdPtr] == s.insns[s.rdPtr];
      FrepNextMeansIdleOrPending(w);
    }
    var b := Bit(pend);
    if Emulate(s).Some? {
      ReadyIfSucceeds(s, b);
    }
    if Ready(FullState(w), |i|, |f|) {
      SucceedsIfReady(s, b);
    }
  }

  // ----- places

  /** How many loops of a nest start at or before instruction `r` of its static body. */
  function Depth(n: Nest, r: nat): (d: nat)
    ensures d <= |n|
  {
    if n == [] then 0 else if r < |n[0].pre| then 1 else 1 + Depth(n[1..], r - |n[0].pre|)
  }

  lemma {:induction false} DepthIs(n: Nest, r: nat, j: nat)
    requires j < |n|
    ensures Base(n, j) <= r <==> j < Depth(n, r)
  {
    BaseFront(n, j);
    hide Base;
    if j > 0 && r >= |n[0].pre| {
      DepthIs(n[1..], r - |n[0].pre|, j - 1);
    }
  }

  lemma {:induction false} DepthFull(n: Nest, r: nat)
    requires r >= |Body(n)|
    ensures Depth(n, r) == |n|
  {
    if n != [] {
      DepthFull(n[1..], r - |n[0].pre|);
    }
  }

  lemma {:induction false} QueueLength(n: Nest, d: nat)
    requires d <= |n|
    ensures |Queue(n, d)| == |Body(n)| + |n| - d
    decreases |n| - d
  {
    hide Queue;
    if d == |n| {
      QueueDone(n);
    } else {
      QueueFrep(n, d);
      RemoveShorter(Queue(n, d), Base(n, d));
      QueueLength(n, d + 1);
    }
  }

  lemma {:induction false} QueueParts(n: Nest)
    requires n != []
    ensures Queue(n, 0) == [n[0].frep] + (n[0].pre + Queue(n[1..], 0) + n[0].post)
  {
    QueueRest(n);
  }

  /** The stream up to an instruction of one of four parts. */
  lemma {:induction false} FourPrefixes(f: Insn, p: seq<Insn>, q: seq<Insn>, o: seq<Insn>, k: nat)
    ensures k < |p| ==> ([f] + (p + q + o))[1 + k] == p[k] && ([f] + (p + q + o))[..1 + k] == [f] + p[..k]
    ensures k < |q| ==> ([f] + (p + q + o))[1 + |p| + k] == q[k]
                        && ([f] + (p + q + o))[..1 + |p| + k] == [f] + (p + q[..k])
    ensures k < |o| ==> ([f] + (p + q + o))[1 + |p| + |q| + k] == o[k]
                        && ([f] + (p + q + o))[..1 + |p| + |q| + k] == [f] + (p + q + o[..k])
  {
  }

  lemma {:induction false} PlainCount(s: seq<Insn>, k: nat)
    requires Plain(s) && k <= |s|
    ensures FrepCount(s[..k]) == 0 && FrepCount(s) == 0
  {
    UntouchedPlain(s);
    UntouchedPlain(s[..k]);
  }

  lemma {:induction false} CountThree(f: Insn, p: seq<Insn>, q: seq<Insn>, o: seq<Insn>)
    requires f.isFrep && FrepCount(p) == 0 && FrepCount(o) == 0
    ensures FrepCount([f] + p) == 1 && FrepCount([f] + (p + q)) == 1 + FrepCount(q)
    ensures FrepCount([f] + (p + q + o)) == 1 + FrepCount(q)
  {
    FrepCountConcat([f], p);
    FrepCountConcat([f], p + q);
    FrepCountConcat([f], p + q + o);
    FrepCountConcat(p + q, o);
    FrepCountConcat(p, q);
  }

  ghost predicate Placed(n: Nest, r: nat)
    requires r < |Body(n)|
  {
    var k := r + Depth(n, r);
    k < |Queue(n, 0)| && Queue(n, 0)[k] == Body(n)[r] && FrepCount(Queue(n, 0)[..k]) == Depth(n, r)
  }

  lemma {:induction false} BodyParts(n: Nest, r: nat)
    requires n != [] && r < |Body(n)|
    ensures var p, b, o := n[0].pre, Body(n[1..]), n[0].post;
            && |Body(n)| == |p| + |b| + |o|
            && (r < |p| ==> Body(n)[r] == p[r] && Depth(n, r) == 1)
            && (|p| <= r < |p| + |b| ==> Body(n)[r] == b[r - |p|])
            && (r >= |p| + |b| ==> Body(n)[r] == o[r - |p| - |b|])
            && (r >= |p| ==> Depth(n, r) == 1 + Depth(n[1..], r - |p|))
  {
  }

  lemma {:induction false} PlacedPre(n: Nest, r: nat)
    requires n != [] && r < |Body(n)| && ValidLevels(n) && r < |n[0].pre|
    ensures Placed(n, r)
  {
    var f, p, q, o := n[0].frep, n[0].pre, Queue(n[1..], 0), n[0].post;
    QueueParts(n);
    BodyParts(n, r);
    PlainCount(p, r);
    PlainCount([], 0);
    hide Queue, FrepCount, Plain, Body, Depth;
    FourPrefixes(f, p, q, o, r);
    CountThree(f, p[..r], [], []);
  }

  lemma {:induction false} InnerPrefix(f: Insn, p: seq<Insn>, q: seq<Insn>, o: seq<Insn>, k: nat,
                                       s: seq<Insn>, at: nat, x: Insn, d: nat)
    requires k < |q| && f.isFrep && FrepCount(p) == 0 && q[k] == x && FrepCount(q[..k]) == d
    requires s == [f] + (p + q + o) && at == 1 + |p| + k
    ensures at < |s| && s[at] == x && FrepCount(s[..at]) == 1 + d
  {
    PlainCount([], 0);
    hide FrepCount;
    FourPrefixes(f, p, q, o, k);
    CountThree(f, p, q[..k], []);
  }

  lemma {:induction false} InnerAt(n: Nest, j: nat, d: nat, at: nat)
    requires n != [] && ValidLevels(n) && j < |Body(n[1..])| && Placed(n[1..], j)
    requires d == Depth(n[1..], j) && at == 1 + |n[0].pre| + (j + d)
    ensures at < |Queue(n, 0)| && Queue(n, 0)[at] == Body(n[1..])[j] && FrepCount(Queue(n, 0)[..at]) == 1 + d
  {
    hide *;
    PlacedIs(n[1..], j);
    QueueParts(n);
    FrontPlain(n);
    InnerPrefix(n[0].frep, n[0].pre, Queue(n[1..], 0), n[0].post, j + d, Queue(n, 0), at, Body(n[1..])[j], d);
  }

  lemma {:induction false} PlacedInner(n: Nest, r: nat)
    requires n != [] && ValidLevels(n) && |n[0].pre| <= r < |n[0].pre| + |Body(n[1..])| && r < |Body(n)|
    requires Placed(n[1..], r - |n[0].pre|)
    ensures Placed(n, r)
  {
    var j := r - |n[0].pre|;
    var d := Depth(n[1..], j);
    hide *;
    InnerAt(n, j, d, r + 1 + d);
    BodyParts(n, r);
    IsPlaced(n, r, r + 1 + d, 1 + d);
  }

  lemma {:induction false} FrontPlain(n: Nest)
    requires n != [] && ValidLevels(n)
    ensures n[0].frep.isFrep && FrepCount(n[0].pre) == 0
  {
    PlainCount(n[0].pre, 0);
  }

  lemma {:induction false} PlacedIs(n: Nest, r: nat)
    requires r < |Body(n)| && Placed(n, r)
    ensures var k := r + Depth(n, r);
            k < |Queue(n, 0)| && Queue(n, 0)[k] == Body(n)[r] && FrepCount(Queue(n, 0)[..k]) == Depth(n, r)
  {
  }

  lemma {:induction false} IsPlaced(n: Nest, r: nat, k: nat, d: nat)
    requires r < |Body(n)| && k == r + d && d == Depth(n, r)
    requires k < |Queue(n, 0)| && Queue(n, 0)[k] == Body(n)[r] && FrepCount(Queue(n, 0)[..k]) == d
    ensures Placed(n, r)
  {
  }

  lemma {:induction false} PostAt(n: Nest, k: nat, at: nat)
    requires n != [] && ValidLevels(n) && k < |n[0].post|
    requires at == 1 + |n[0].pre| + |Queue(n[1..], 0)| + k
    ensures at < |Queue(n, 0)| && Queue(n, 0)[at] == n[0].post[k] && FrepCount(Queue(n, 0)[..at]) == |n|
  {
    var f, p, q, o := n[0].frep, n[0].pre, Queue(n[1..], 0), n[0].post;
    assert ValidLevels(n[1..]);
    UntouchedNest(n[1..]);
    QueueParts(n);
    FrontPlain(n);
    PlainCount(o, k);
    hide *;
    FourPrefixes(f, p, q, o, k);
    CountThree(f, p, q, o[..k]);
  }

  lemma {:induction false} PlacedPost(n: Nest, r: nat)
    requires n != [] && ValidLevels(n) && |n[0].pre| + |Body(n[1..])| <= r < |Body(n)|
    ensures Placed(n, r)
  {
    hide *;
    DepthFull(n[1..], r - |n[0].pre|);
    QueueLength(n[1..], 0);
    BodyParts(n, r);
    PostAt(n, r - |n[0].pre| - |Body(n[1..])|, r + |n|);
    IsPlaced(n, r, r + |n|, |n|);
  }

  /** Instruction `r` of the static body sits behind `r` instructions and as many FREPs as loops have started. */
  lemma {:induction false} QueuePlace(n: Nest, r: nat)
    requires r < |Body(n)| && ValidLevels(n)
    ensures Placed(n, r)
  {
    hide Placed;
    BodyParts(n, r);
    if r < |n[0].pre| {
      PlacedPre(n, r);
    } else if r < |n[0].pre| + |Body(n[1..])| {
      assert ValidLevels(n[1..]);
      QueuePlace(n[1..], r - |n[0].pre|);
      PlacedInner(n, r);
    } else {
      PlacedPost(n, r);
    }
  }

  /** Every instruction of a stream is labelled with its position. */
  ghost predicate Positioned(stream: seq<Insn>) {
    forall j | 0 <= j < |stream| :: stream[j].sec == j
  }

  /** The stream from the current item on. */
  ghost function Behind(w: Where): seq<Insn> {
    (match w.cur case None => [] case Some(np) => Queue(np.0, 0)) + Stream(w.rest)
  }

  ghost predicate Within(w: Where, stream: seq<Insn>) {
    |Behind(w)| <= |stream| && stream[|stream| - |Behind(w)|..] == Behind(w)
  }

  /** The start of the innermost loop entered so far is offloaded; `i` instructions are still to come. */
  ghost predicate InnerQueued(w: Where, i: nat) {
    w.cur.Some? ==>
      var (n, p) := w.cur.value;
      0 < p.d <= |n| ==> Base(n, p.d - 1) + i < |Queue(n, p.d)| + |Stream(w.rest)|
  }

  lemma {:induction false} FacingKeeps(w: Where, stream: seq<Insn>, i: nat)
    requires WhereOk(w) && Within(w, stream) && InnerQueued(w, i)
    ensures Within(Facing(w), stream) && InnerQueued(Facing(w), i)
  {
    if w.cur.None? && w.rest != [] && w.rest[0].Loops? {
      StreamFront(w.rest);
      hide Queue, Stream;
      assert [] + Stream(w.rest) == Stream(w.rest);
    }
  }

  lemma {:induction false} SuffixCount(stream: seq<Insn>, b: seq<Insn>, k: nat)
    requires |b| <= |stream| && stream[|stream| - |b|..] == b && k <= |b|
    ensures FrepCount(stream[..|stream| - |b| + k]) + FrepCount(b) == FrepCount(stream) + FrepCount(b[..k])
  {
    hide FrepCount;
    var a := stream[..|stream| - |b|];
    assert stream == a + b && stream[..|a| + k] == a + b[..k];
    FrepCountConcat(a, b);
    FrepCountConcat(a, b[..k]);
  }

  lemma {:induction false} SingleState(w: Where)
    requires WhereOk(w) && w.cur.None? && w.rest != [] && w.rest[0].Single?
    ensures var insn, lq := w.rest[0].insn, Stream(w.rest[1..]);
            && !insn.isFrep && Left(w) != [] && Left(w)[0].sec == insn.sec && Behind(w) == [insn] + lq
            && FullState(w).rdPtr == 0 == FullState(w).nestDepth && FullState(w).insns == [insn] + lq
            && |FullState(w).cfgs| == FrepCount(lq)
  {
    var insn, lq := w.rest[0].insn, Stream(w.rest[1..]);
    StreamSingle(w.rest);
    StreamFreps(w.rest);
    StreamFreps(w.rest[1..]);
    hide Stream, Freps, Trace, Untouched, FrepCount, ValidProgram;
    assert [] + Trace(w.rest) == Trace(w.rest) && [] + Stream(w.rest) == Stream(w.rest);
  }

  lemma {:induction false} NoneLeading(insn: Insn, lq: seq<Insn>)
    requires !insn.isFrep
    ensures Leading([insn] + lq, 0) == 0 && FrepCount([insn]) == 0 && FrepCount([insn][..0]) == 0
  {
    PlainCount([insn], 0);
  }

  lemma {:induction false} SingleReady(l: State, insn: Insn, lq: seq<Insn>, i: nat, f: nat)
    requires l.rdPtr == 0 == l.nestDepth && l.insns == [insn] + lq && !insn.isFrep
    ensures Ready(l, i, f) <==> i < 1 + |lq| && f <= |l.cfgs|
  {
    NoneLeading(insn, lq);
    hide Leading;
  }

  lemma {:induction false} SingleAt(insn: Insn, lq: seq<Insn>, stream: seq<Insn>, b: seq<Insn>)
    requires !insn.isFrep && Positioned(stream) && b == [insn] + lq
    requires |b| <= |stream| && stream[|stream| - |b|..] == b
    ensures var at := |stream| - 1 - |lq|;
            0 <= at < |stream| && insn.sec == at && FrepCount(stream[..at]) + FrepCount(lq) == FrepCount(stream)
  {
    hide *;
    NoneLeading(insn, lq);
    PlaceInSuffix(stream, [insn], lq, 0);
  }

  lemma {:induction false} SingleFits(l: State, insn: Insn, lq: seq<Insn>, stream: seq<Insn>, b: seq<Insn>, i: nat,
                                      f: nat)
    requires l.rdPtr == 0 == l.nestDepth && l.insns == [insn] + lq && !insn.isFrep && |l.cfgs| == FrepCount(lq)
    requires Positioned(stream) && b == [insn] + lq && |b| <= |stream| && stream[|stream| - |b|..] == b
    ensures insn.sec < |stream|
    ensures Ready(l, i, f) <==> insn.sec + i < |stream| && FrepCount(stream[..insn.sec]) + f <= FrepCount(stream)
  {
    hide *;
    SingleReady(l, insn, lq, i, f);
    SingleAt(insn, lq, stream, b);
  }

  /** A single instruction comes next. */
  lemma {:induction false} SinglePlace(w: Where, stream: seq<Insn>, i: nat, f: nat)
    requires WhereOk(w) && w.cur.None? && w.rest != [] && w.rest[0].Single?
    requires Positioned(stream) && Within(w, stream) && f <= FrepCount(stream)
    requires FullState(w).nestDepth + f <= |FullState(w).cfgs|
    ensures Left(w) != [] && Left(w)[0].sec < |stream|
    ensures var at := Left(w)[0].sec;
            Ready(FullState(w), i, f) <==> at + i < |stream| && FrepCount(stream[..at]) + f <= FrepCount(stream)
  {
    var insn, lq := w.rest[0].insn, Stream(w.rest[1..]);
    hide *;
    SingleState(w);
    WithinIs(w, stream);
    SingleFits(FullState(w), insn, lq, stream, Behind(w), i, f);
  }

  lemma {:induction false} DepthCovered(n: Nest, p: Pos)
    requires PosOk(n, p) && !Pending(n, p)
    ensures Depth(n, p.r) <= p.d
    ensures Depth(n, p.r) < p.d ==> p.r < Base(n, p.d - 1)
  {
    hide Depth, Base, Framed;
    if p.d < |n| {
      DepthIs(n, p.r, p.d);
    }
    if p.d > 0 {
      DepthIs(n, p.r, p.d - 1);
    }
  }

  lemma {:induction false} PendingDepth(n: Nest, p: Pos)
    requires PosOk(n, p) && Pending(n, p)
    ensures Depth(n, p.r) >= Entered(n, p).d && Base(n, Entered(n, p).d - 1) == p.r
  {
    hide Depth, RestPending, RestAt, Current;
    SettleRest(n, p.iters, p.a, p.r);
    DepthIs(n, p.r, Entered(n, p).a);
  }

  /** What the loaded state in a nest amounts to. */
  lemma {:induction false} NestSizes(n: Nest, p: Pos, lc: seq<LoopCfg>, lq: seq<Insn>)
    requires PosOk(n, p)
    ensures var l, e := AtPos(n, p, lc, lq), Entered(n, p);
            && PosOk(n, e) && !Pending(n, e) && p.r < |Body(n)| && p.d <= e.d <= |n| && e.r == p.r
            && l.rdPtr == p.r && l.nestDepth == p.d && |l.cfgs| == |n| + |lc|
            && |l.insns| == |Body(n)| + |n| - p.d + |lq|
            && Leading(l.insns, l.rdPtr) == e.d - p.d
  {
    var l, e := AtPos(n, p, lc, lq), Entered(n, p);
    EnterClosed(n, p, lc, lq);
    NextIsPlain(n, e);
    QueueLength(n, p.d);
    hide Leading, Queue, Body, EnterLoops, Settled, Base;
    EnterCounts(l);
  }

  /** In a nest the next instruction is offloaded, and its loops decoded, exactly when its place is. */
  lemma {:induction false} NestReady(n: Nest, p: Pos, lc: seq<LoopCfg>, lq: seq<Insn>, i: nat, f: nat)
    requires PosOk(n, p) && (p.d > 0 ==> Base(n, p.d - 1) + i < |Queue(n, p.d)| + |lq|)
    requires p.d + f <= |n| + |lc|
    ensures var d := Depth(n, p.r);
            Ready(AtPos(n, p, lc, lq), i, f)
            <==> p.r + d + i < |Body(n)| + |n| + |lq| && d + f <= |n| + |lc|
  {
    var e := Entered(n, p);
    NestSizes(n, p, lc, lq);
    DepthCovered(n, e);
    QueueLength(n, p.d);
    if Pending(n, p) {
      PendingDepth(n, p);
    }
    hide Leading, Queue, Body, AtPos, Depth, Base, PosOk;
  }

  /** An instruction of the stream's last part. */
  lemma {:induction false} PlaceInSuffix(stream: seq<Insn>, q: seq<Insn>, lq: seq<Insn>, k: nat)
    requires Positioned(stream) && k < |q|
    requires |q + lq| <= |stream| && stream[|stream| - |q + lq|..] == q + lq
    ensures var at := |stream| - |q| - |lq| + k;
            && 0 <= at < |stream| && q[k].sec == at
            && FrepCount(stream[..at]) + FrepCount(q) + FrepCount(lq) == FrepCount(stream) + FrepCount(q[..k])
  {
    hide FrepCount;
    var at := |stream| - |q + lq| + k;
    assert (q + lq)[..k] == q[..k] && (q + lq)[k] == q[k];
    assert stream[at] == stream[|stream| - |q + lq|..][k];
    SuffixCount(stream, q + lq, k);
    FrepCountConcat(q, lq);
  }

  lemma {:induction false} NextInBody(n: Nest, p: Pos)
    requires PosOk(n, p)
    ensures p.r < |Body(n)| && ValidLevels(n)
  {
    NestSizes(n, p, [], []);
    hide Body, Queue, Leading, AtPos, Depth;
    assert ValidNest(n);
    ValidNestLevels(n);
  }

  lemma {:induction false} NestParts(n: Nest, p: Pos)
    requires PosOk(n, p)
    ensures p.r < |Body(n)|
    ensures var q, k := Queue(n, 0), p.r + Depth(n, p.r);
            && k < |q| == |Body(n)| + |n| && q[k] == Body(n)[p.r]
            && FrepCount(q) == |n| && FrepCount(q[..k]) == Depth(n, p.r)
  {
    hide *;
    NextInBody(n, p);
    QueueLength(n, 0);
    UntouchedNest(n);
    QueuePlace(n, p.r);
    PlacedIs(n, p.r);
  }

  /** Where the next instruction of a nest sits in the stream. */
  lemma {:induction false} NestAt(n: Nest, p: Pos, stream: seq<Insn>, lq: seq<Insn>)
    requires PosOk(n, p) && Positioned(stream)
    requires |Queue(n, 0) + lq| <= |stream| && stream[|stream| - |Queue(n, 0) + lq|..] == Queue(n, 0) + lq
    ensures p.r < |Body(n)|
    ensures var at := |stream| - |Body(n)| - |n| - |lq| + p.r + Depth(n, p.r);
            && 0 <= at < |stream| && Body(n)[p.r].sec == at
            && FrepCount(stream[..at]) + |n| + FrepCount(lq) == FrepCount(stream) + Depth(n, p.r)
  {
    hide *;
    assert p.r + Depth(n, p.r) < |Queue(n, 0)| by {
      NestParts(n, p);
    }
    PlaceInSuffix(stream, Queue(n, 0), lq, p.r + Depth(n, p.r));
    NestParts(n, p);
  }

  lemma {:induction false} NestHead(w: Where)
    requires WhereOk(w) && w.cur.Some?
    ensures var (n, p) := w.cur.value;
            p.r < |Body(n)| && Left(w) != [] && Left(w)[0].sec == Body(n)[p.r].sec
  {
    var (n, p) := w.cur.value;
    NestSizes(n, p, [], []);
    EmulateInNest(n, p, [], []);
    hide Rest, Emulate, AtPos, Trace;
  }

  lemma {:induction false} NestState(w: Where)
    requires WhereOk(w) && w.cur.Some?
    ensures FrepCount(Stream(w.rest)) == |Freps(w.rest)|
    ensures var (n, p) := w.cur.value;
            var lc := Untouched(Stream(w.rest), Freps(w.rest));
            && |lc| == FrepCount(Stream(w.rest)) && FullState(w) == AtPos(n, p, lc, Stream(w.rest))
            && FullState(w).nestDepth == p.d && |FullState(w).cfgs| == |n| + |lc|
            && Behind(w) == Queue(n, 0) + Stream(w.rest)
  {
    StreamFreps(w.rest);
    NestSizes(w.cur.value.0, w.cur.value.1, Untouched(Stream(w.rest), Freps(w.rest)), Stream(w.rest));
  }

  lemma {:induction false} NestPlaceIn(n: Nest, p: Pos, lc: seq<LoopCfg>, lq: seq<Insn>, stream: seq<Insn>, i: nat,
                                       f: nat)
    requires PosOk(n, p) && Positioned(stream) && (p.d > 0 ==> Base(n, p.d - 1) + i < |Queue(n, p.d)| + |lq|)
    requires |lc| == FrepCount(lq) && p.d + f <= |n| + |lc| && f <= FrepCount(stream)
    requires |Queue(n, 0) + lq| <= |stream| && stream[|stream| - |Queue(n, 0) + lq|..] == Queue(n, 0) + lq
    ensures p.r < |Body(n)| && Body(n)[p.r].sec < |stream|
    ensures var at := Body(n)[p.r].sec;
            Ready(AtPos(n, p, lc, lq), i, f) <==> at + i < |stream| && FrepCount(stream[..at]) + f <= FrepCount(stream)
  {
    hide *;
    NestReady(n, p, lc, lq, i, f);
    NestAt(n, p, stream, lq);
  }

  lemma {:induction false} QueuedInner(w: Where, i: nat)
    requires w.cur.Some? && InnerQueued(w, i) && WhereOk(w)
    ensures var (n, p) := w.cur.value;
            p.d > 0 ==> p.d <= |n| && Base(n, p.d - 1) + i < |Queue(n, p.d)| + |Stream(w.rest)|
  {
    hide Base, Queue, Stream, Framed, Settled;
  }

  lemma {:induction false} WithinIs(w: Where, stream: seq<Insn>)
    requires Within(w, stream)
    ensures |Behind(w)| <= |stream| && stream[|stream| - |Behind(w)|..] == Behind(w)
  {
    hide Behind;
  }

  lemma {:induction false} NestPlace(w: Where, stream: seq<Insn>, i: nat, f: nat)
    requires WhereOk(w) && w.cur.Some?
    requires Positioned(stream) && Within(w, stream) && f <= FrepCount(stream) && InnerQueued(w, i)
    requires FullState(w).nestDepth + f <= |FullState(w).cfgs|
    ensures Left(w) != [] && Left(w)[0].sec < |stream|
    ensures var at := Left(w)[0].sec;
            Ready(FullState(w), i, f) <==> at + i < |stream| && FrepCount(stream[..at]) + f <= FrepCount(stream)
  {
    var (n, p) := w.cur.value;
    NestSizes(n, p, [], []);
    hide *;
    NestState(w);
    QueuedInner(w, i);
    WithinIs(w, stream);
    NestHead(w);
    NestPlaceIn(n, p, Untouched(Stream(w.rest), Freps(w.rest)), Stream(w.rest), stream, i, f);
  }

  /** The next instruction can be issued exactly when its place is offloaded and the FREPs before it are decoded. */
  lemma {:induction false} PlaceReady(w: Where, stream: seq<Insn>, i: nat, f: nat)
    requires WhereOk(w) && Left(w) != []
    requires Positioned(stream) && Within(w, stream) && f <= FrepCount(stream) && InnerQueued(w, i)
    requires FullState(w).nestDepth + f <= |FullState(w).cfgs|
    ensures Left(w)[0].sec < |stream|
    ensures var at := Left(w)[0].sec;
            Ready(FullState(w), i, f) <==> at + i < |stream| && FrepCount(stream[..at]) + f <= FrepCount(stream)
  {
    FacingSame(w);
    FacingKeeps(w, stream, i);
    var v := Facing(w);
    assert v.cur.None? ==> v.rest != [] && v.rest[0].Single?;
    hide FullState, Left, Ready, WhereOk, Within, InnerQueued, FrepCount;
    if v.cur.Some? {
      NestPlace(v, stream, i, f);
    } else {
      SinglePlace(v, stream, i, f);
    }
  }

  lemma {:induction false} SuffixOf(stream: seq<Insn>, a: seq<Insn>, b: seq<Insn>)
    requires |a + b| <= |stream| && stream[|stream| - |a + b|..] == a + b
    ensures |b| <= |stream| && stream[|stream| - |b|..] == b
  {
    assert stream[|stream| - |b|..] == stream[|stream| - |a + b|..][|a|..];
  }

  /** An issue keeps the place in the stream. */
  lemma {:induction false} OnwardKeeps(w: Where, stream: seq<Insn>, i: nat, f: nat)
    requires WhereOk(w) && Left(w) != [] && Within(w, stream) && InnerQueued(w, i)
    requires Ready(FullState(w), i, f)
    ensures Within(Onward(w), stream) && InnerQueued(Onward(w), i)
  {
    FacingSame(w);
    FacingKeeps(w, stream, i);
    var v := Facing(w);
    assert v.cur.None? ==> v.rest != [] && v.rest[0].Single?;
    hide Left, InnerQueued, Within, Ready;
    match v.cur {
      case None =>
        OnwardSingle(w, stream, i);
      case Some(np) =>
        OnwardNest(w, stream, i, f);
    }
  }

  lemma {:induction false} OnwardSingle(w: Where, stream: seq<Insn>, i: nat)
    requires WhereOk(w) && Facing(w).cur.None? && Facing(w).rest != [] && Facing(w).rest[0].Single?
    requires WhereOk(Facing(w)) && Within(Facing(w), stream)
    ensures Within(Onward(w), stream) && InnerQueued(Onward(w), i)
  {
    var v := Facing(w);
    StreamSingle(v.rest);
    hide Stream;
    assert Behind(v) == [v.rest[0].insn] + Stream(v.rest[1..]);
    SuffixOf(stream, [v.rest[0].insn], Stream(v.rest[1..]));
    assert Behind(Onward(w)) == Stream(v.rest[1..]);
  }

  lemma {:induction false} InnerKeeps(n: Nest, p: Pos, lc: seq<LoopCfg>, lq: seq<Insn>, i: nat, f: nat)
    requires PosOk(n, p) && (p.d > 0 ==> Base(n, p.d - 1) + i < |Queue(n, p.d)| + |lq|)
    requires Ready(AtPos(n, p, lc, lq), i, f)
    ensures var d := Entered(n, p).d; 0 < d <= |n| ==> Base(n, d - 1) + i < |Queue(n, d)| + |lq|
  {
    var e := Entered(n, p);
    NestSizes(n, p, lc, lq);
    QueueLength(n, p.d);
    QueueLength(n, e.d);
    if Pending(n, p) {
      PendingDepth(n, p);
    }
    hide Queue, Leading, Base, AtPos, Depth, PosOk, Body;
  }

  lemma {:induction false} NextKeepsDepth(n: Nest, e: Pos)
    requires Framed(n, e.a, e.iters, e.r) && e.a >= 0
    ensures Next(n, e).Some? ==> Next(n, e).value.d == e.d
  {
    hide Settle, Outer, Base, Size, ZeroAbove;
  }

  lemma {:induction false} OnwardIs(w: Where)
    requires WhereOk(w) && Facing(w).cur.Some? && WhereOk(Facing(w))
    ensures var v, o := Facing(w), Onward(w);
            var (n, p) := v.cur.value;
            o.rest == v.rest
            && (o.cur.Some? ==> o.cur.value.0 == n && o.cur.value.1.d == Entered(n, p).d)
  {
    var (n, p) := Facing(w).cur.value;
    EnterClosed(n, p, [], []);
    EnteredFramed(n, p);
    NextKeepsDepth(n, Entered(n, p));
    hide PosOk, Next, Entered, AtPos, Framed, Facing, EnterLoops, Pending;
  }

  lemma {:induction false} EnteredFramed(n: Nest, p: Pos)
    requires PosOk(n, p) && PosOk(n, Entered(n, p))
    ensures var e := Entered(n, p); Framed(n, e.a, e.iters, e.r)
  {
    hide Entered, Framed;
  }

  /** What follows the current nest, and what is left of it, are still the last part of the stream. */
  lemma {:induction false} WithinNest(w: Where, o: Where, stream: seq<Insn>)
    requires Within(w, stream) && w.cur.Some? && o.rest == w.rest
    requires o.cur.Some? ==> o.cur.value.0 == w.cur.value.0
    ensures Within(o, stream)
  {
    hide Queue, Stream;
    SuffixOf(stream, Queue(w.cur.value.0, 0), Stream(w.rest));
    assert [] + Stream(w.rest) == Stream(w.rest);
  }

  lemma {:induction false} InnerNest(v: Where, o: Where, i: nat, f: nat)
    requires WhereOk(v) && v.cur.Some? && InnerQueued(v, i) && Ready(FullState(v), i, f) && o.rest == v.rest
    requires var (n, p) := v.cur.value;
             o.cur.Some? ==> o.cur.value.0 == n && o.cur.value.1.d == Entered(n, p).d
    ensures InnerQueued(o, i)
  {
    NestState(v);
    var (n, p) := v.cur.value;
    hide Queue, Stream, Base, Entered, Ready, AtPos, Untouched, PosOk, FullState, FrepCount, Behind, Freps;
    InnerKeeps(n, p, Untouched(Stream(v.rest), Freps(v.rest)), Stream(v.rest), i, f);
  }

  lemma {:induction false} OnwardNest(w: Where, stream: seq<Insn>, i: nat, f: nat)
    requires WhereOk(w) && Facing(w).cur.Some? && WhereOk(Facing(w))
    requires Within(Facing(w), stream) && InnerQueued(Facing(w), i) && Ready(FullState(Facing(w)), i, f)
    ensures Within(Onward(w), stream) && InnerQueued(Onward(w), i)
  {
    var v := Facing(w);
    hide *;
    OnwardIs(w);
    WithinNest(v, Onward(w), stream);
    InnerNest(v, Onward(w), i, f);
  }

  // ----- whole runs

  lemma {:induction false} StepsFromReady(s: State, w: Where, g: seq<LoopCfg>, stream: seq<Insn>, i: seq<Insn>,
                                          f: seq<Frep>, pend: bool)
    requires Sim(s, w, g, i, f, pend) && Positioned(stream) && Within(w, stream) && InnerQueued(w, |i|)
    requires |i| <= |stream| && |f| <= FrepCount(stream)
    ensures Left(w) == [] ==> Emulate(s).None?
    ensures Left(w) != [] ==>
              var at := Left(w)[0].sec;
              && at < |stream|
              && (Emulate(s).Some? <==> at < |stream| - |i| && FrepCount(stream[..at]) <= FrepCount(stream) - |f|)
    ensures Emulate(s).Some? ==> Within(Onward(w), stream) && InnerQueued(Onward(w), |i|)
  {
    SucceedsExactly(s, w, g, i, f, pend);
    SimSizes(s, w, g, i, f, pend);
    LeftEmpty(w);
    hide Sim, Emulate, Left, FullState, Within, InnerQueued, FrepCount, Onward, WhereOk;
    if Left(w) == [] {
      assert FullState(w).insns == [];
    } else {
      PlaceReady(w, stream, |i|, |f|);
      if Emulate(s).Some? {
        OnwardKeeps(w, stream, |i|, |f|);
      }
    }
  }
}
