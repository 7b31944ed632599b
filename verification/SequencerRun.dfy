/**
 Whole runs of the emulator: offloads, decodings and issues in any interleaving.
 Whatever does not raise issues the program's instructions in order, and once
 everything is offloaded and issued the emulator is back in its initial state.
 */
module SequencerRun {
  import opened Wrappers
  import opened SequencerModel
  import opened SequencerNest
  import opened SequencerGeometry
  import opened SequencerReplay
  import opened SequencerUnrolling
  import opened SequencerStep
  import opened SequencerQueue
  import opened SequencerProgram

  datatype Event = Offload(insn: Insn) | Configure(frep: Frep) | Issued

  /** The trace tool's calls in order; `None` once one of them raises. */
  function Run(s: State, evs: seq<Event>): Option<(State, seq<Issue>)>
    decreases |evs|
  {
    if evs == [] then Some((s, []))
    else match evs[0]
      case Offload(insn) => Run(Push(s, insn), evs[1..])
      case Configure(frep) =>
        var s1 :- Decode(s, frep);
        Run(s1, evs[1..])
      case Issued =>
        var (s1, x) :- Emulate(s);
        var (s2, out) :- Run(s1, evs[1..]);
        Some((s2, [x] + out))
  }

  function Offloads(evs: seq<Event>): seq<Insn> {
    if evs == [] then []
    else (if evs[0].Offload? then [evs[0].insn] else []) + Offloads(evs[1..])
  }

  function Configured(evs: seq<Event>): seq<Frep> {
    if evs == [] then []
    else (if evs[0].Configure? then [evs[0].frep] else []) + Configured(evs[1..])
  }

  /** A FREP is decoded before the next FREP is offloaded, and nothing else is. */
  predicate Disciplined(evs: seq<Event>, pend: bool) {
    evs == []
    || match evs[0]
       case Offload(insn) => !(insn.isFrep && pend) && Disciplined(evs[1..], pend || insn.isFrep)
       case Configure(_) => pend && Disciplined(evs[1..], false)
       case Issued => Disciplined(evs[1..], pend)
  }

  function Bit(pend: bool): nat {
    if pend then 1 else 0
  }

  /**
   The state `s` after part of the stream: `i` and `f` are still to be offloaded
   and decoded, `w` is where the emulator stands in the program, `g` are the
   configurations of `s` once decoded.
   */
  ghost predicate Sim(s: State, w: Where, g: seq<LoopCfg>, i: seq<Insn>, f: seq<Frep>, pend: bool): (r: bool)
    ensures r ==> WhereOk(w)
  {
    && WhereOk(w) && CfgsPart(s.cfgs, g)
    && Bit(pend) <= |f| && FrepCount(i) == |f| - Bit(pend)
    && Loaded(s, g, Untouched(i, f[Bit(pend)..]), i) == FullState(w)
    && Half(s, g, f, pend)
  }

  /** Only the configuration pushed last may still be undecoded, and its loop is not entered. */
  ghost predicate Half(s: State, g: seq<LoopCfg>, f: seq<Frep>, pend: bool) {
    && |s.cfgs| == |g| && s.nestDepth + Bit(pend) <= |s.cfgs| && Bit(pend) <= |f|
    && (forall j | 0 <= j < |s.cfgs| - Bit(pend) :: s.cfgs[j].frep.Some?)
    && (pend ==> s.cfgs[|g| - 1].frep.None? && g[|g| - 1].frep == Some(f[0]))
  }

  lemma {:induction false} Empties<T>(s: seq<T>)
    ensures [] + s == s && s[0..] == s
  {
  }

  lemma {:induction false} SimInit(prog: Program)
    requires ValidProgram(prog)
    ensures Sim(INIT, Where(None, prog), [], Stream(prog), Freps(prog), false)
    ensures Left(Where(None, prog)) == Trace(prog)
  {
    StreamFreps(prog);
    hide Stream, Freps, Untouched, FrepCount, Trace, ValidProgram, Rest, AtPos;
    Empties(Freps(prog));
    Empties(Untouched(Stream(prog), Freps(prog)));
    Empties(Stream(prog));
    Empties(Trace(prog));
  }

  lemma {:induction false} SnocAssoc<T>(a: seq<T>, x: T, b: seq<T>)
    ensures a + ([x] + b) == a + [x] + b
  {
  }

  lemma {:induction false} SimOffload(s: State, w: Where, g: seq<LoopCfg>, insn: Insn, i: seq<Insn>, f: seq<Frep>,
                                      pend: bool)
    returns (g': seq<LoopCfg>)
    requires Sim(s, w, g, [insn] + i, f, pend) && !(insn.isFrep && pend)
    ensures Sim(Push(s, insn), w, g', i, f, pend || insn.isFrep)
  {
    assert ([insn] + i)[1..] == i;
    var k := Bit(pend);
    SnocAssoc(s.insns, insn, i);
    if insn.isFrep {
      var x := LoopCfg(insn.pc, 0, 0, 0, Some(f[0]));
      assert f[0..] == f;
      assert Untouched([insn] + i, f) == [x] + Untouched(i, f[1..]);
      g' := g + [x];
      SnocAssoc(g, x, Untouched(i, f[1..]));
    } else {
      g' := g;
      assert Untouched([insn] + i, f[k..]) == Untouched(i, f[k..]);
    }
    hide Untouched, FullState, WhereOk, FrepCount;
  }

  lemma {:induction false} SimConfigure(s: State, w: Where, g: seq<LoopCfg>, i: seq<Insn>, frep: Frep, f: seq<Frep>)
    requires Sim(s, w, g, i, [frep] + f, true)
    ensures Decode(s, frep).Some? && Sim(Decode(s, frep).value, w, g, i, f, false)
  {
    hide Untouched, FullState, WhereOk, FrepCount;
    assert ([frep] + f)[1..] == f && f[0..] == f;
    var last := |g| - 1;
    assert CfgPart(s.cfgs[last], g[last]);
    assert s.cfgs[last].(frep := Some(frep)) == g[last];
  }

  // ----- an issue

  /** Whether the next instruction queued is a FREP. */
  predicate FrepNext(s: State) {
    s.rdPtr < |s.insns| && s.insns[s.rdPtr].isFrep
  }

  lemma {:induction false} EnterShape(s: State)
    requires EnterLoops(s).Some? && (FrepNext(s) ==> s.nestDepth == s.loopIdx + 1)
    requires s.nestDepth <= |s.cfgs|
    ensures var e := EnterLoops(s).value;
            && |e.cfgs| == |s.cfgs| && (forall j | 0 <= j < |s.cfgs| :: e.cfgs[j].frep == s.cfgs[j].frep)
            && (e == s || e.nestDepth == e.loopIdx + 1 > 0)
            && e.nestDepth <= |e.cfgs|
    decreases |s.insns|
  {
    if FrepNext(s) && s.loopIdx + 1 < |s.cfgs| {
      var a := s.loopIdx + 1;
      EnterShape(State(a, s.cfgs[a := s.cfgs[a].(basePtr := s.rdPtr)], s.nestDepth + 1, Remove(s.insns, s.rdPtr),
          s.rdPtr));
    }
  }

  lemma {:induction false} PropagateShape(c: seq<LoopCfg>, i: nat)
    requires i < |c| && Propagate(c, i).Some?
    ensures forall j | 0 <= j < |c| :: Propagate(c, i).value[j].frep == c[j].frep
    decreases i
  {
    if i > 0 && LastIter(c, i) {
      PropagateShape(c[i - 1 := c[i - 1].(instIdx := c[i - 1].instIdx + 1)], i - 1);
    }
  }

  ghost predicate SameShape(s: State, s': State) {
    s'.nestDepth == s.nestDepth && |s'.cfgs| == |s.cfgs|
    && forall j | 0 <= j < |s.cfgs| :: s'.cfgs[j].frep == s.cfgs[j].frep
  }

  ghost predicate DroppedShape(s: State, s': State) {
    && s'.nestDepth == 0 && s.nestDepth <= |s.cfgs| && |s'.cfgs| == |s.cfgs| - s.nestDepth
    && forall j | 0 <= j < |s'.cfgs| :: s'.cfgs[j].frep == s.cfgs[s.nestDepth + j].frep
  }

  lemma {:induction false} AdvanceShape(s: State)
    requires 0 <= s.loopIdx < |s.cfgs| && Advance(s).Some?
    ensures SameShape(s, Advance(s).value)
  {
    PropagateShape(s.cfgs[s.loopIdx := s.cfgs[s.loopIdx].(instIdx := s.cfgs[s.loopIdx].instIdx + 1)], s.loopIdx);
  }

  lemma {:induction false} LeaveShape(s: State)
    requires Decoded(s.cfgs, s.loopIdx) && Leave(s).Some? && s.nestDepth <= |s.cfgs|
    ensures SameShape(s, Leave(s).value) || DroppedShape(s, Leave(s).value)
  {
    hide Unwind, Advance;
    var c := s.cfgs[s.loopIdx := ResetCfg(s.cfgs[s.loopIdx])];
    UnwindKeepsFreps(c, s.loopIdx - 1);
    var (cfgs, b) := Unwind(c, s.loopIdx - 1).value;
    assert forall j | 0 <= j < |s.cfgs| :: cfgs[j].frep == s.cfgs[j].frep;
    if b > -1 && !LastInst(cfgs, b) {
      AdvanceShape(State(b, cfgs, s.nestDepth, s.insns, s.rdPtr));
    }
  }

  lemma {:induction false} IssueShape(s: State)
    requires IssueOne(s).Some? && s.nestDepth <= |s.cfgs|
    ensures SameShape(s, IssueOne(s).value.0) || DroppedShape(s, IssueOne(s).value.0)
    ensures s.loopIdx >= 0 ==> Decoded(s.cfgs, s.loopIdx)
  {
    hide Leave, Advance, Reenter;
    if s.loopIdx >= 0 {
      if !LastInst(s.cfgs, s.loopIdx) {
        AdvanceShape(s);
      } else if LastIter(s.cfgs, s.loopIdx) {
        LeaveShape(s);
      }
    }
  }

  ghost predicate Dropped(s: State, k: nat, s': State) {
    var d := |s.cfgs| - |s'.cfgs|;
    && d >= 0 && d + s'.nestDepth + k <= |s.cfgs|
    && forall j | 0 <= j < |s'.cfgs| :: s'.cfgs[j].frep == s.cfgs[d + j].frep
  }

  lemma {:induction false} ShapesCompose(s: State, e: State, s': State, k: nat)
    requires |e.cfgs| == |s.cfgs| && forall j | 0 <= j < |s.cfgs| :: e.cfgs[j].frep == s.cfgs[j].frep
    requires SameShape(e, s') || DroppedShape(e, s')
    requires e.nestDepth + k <= |s.cfgs|
    ensures Dropped(s, k, s')
  {
  }

  /**
   A call only drops configurations from the front, as many as it takes off the
   nest depth, and a loop whose bounds are not decoded is not entered.
   */
  lemma {:induction false} EmulateShape(s: State, k: nat)
    requires Emulate(s).Some? && s.nestDepth + k <= |s.cfgs|
    requires forall j | |s.cfgs| - k <= j < |s.cfgs| :: s.cfgs[j].frep.None?
    requires FrepNext(s) ==> s.nestDepth == s.loopIdx + 1
    ensures Dropped(s, k, Emulate(s).value.0)
  {
    EnterShape(s);
    var e, s' := EnterLoops(s).value, Emulate(s).value.0;
    hide EnterLoops, IssueOne, SameShape, DroppedShape, Dropped;
    IssueShape(e);
    assert e.loopIdx >= 0 ==> e.cfgs[e.loopIdx].frep == s.cfgs[e.loopIdx].frep;
    ShapesCompose(s, e, s', k);
  }

  lemma {:induction false} HalfKept(s: State, s': State, g: seq<LoopCfg>, g': seq<LoopCfg>, t: seq<LoopCfg>,
                                   q: seq<Insn>, f: seq<Frep>, pend: bool)
    requires Half(s, g, f, pend) && CfgsPart(s.cfgs, g) && CfgsPart(s'.cfgs, g')
    requires FrepNext(s) ==> s.nestDepth == s.loopIdx + 1
    requires s.rdPtr < |s.insns|
    requires Emulate(s).Some? && Emulate(s).value.0 == s'
    requires Emulate(Loaded(s, g, t, q)).Some? && Emulate(Loaded(s, g, t, q)).value.0 == Loaded(s', g', t, q)
    ensures Half(s', g', f, pend)
  {
    hide Emulate;
    EmulateShape(s, Bit(pend));
    var l, l' := Loaded(s, g, t, q), Loaded(s', g', t, q);
    assert l.insns[s.rdPtr] == s.insns[s.rdPtr];
    EmulateShape(l, 0);
    if pend {
      var d := |g| - |g'|;
      assert l'.cfgs[|g'| - 1] == g'[|g'| - 1] && l.cfgs[|g| - 1] == g[|g| - 1];
      assert l'.cfgs[|g'| - 1].frep == l.cfgs[d + (|g'| - 1)].frep;
      assert s'.cfgs[|g'| - 1].frep == s.cfgs[d + (|g'| - 1)].frep;
    }
    forall j | 0 <= j < |s'.cfgs| - Bit(pend) ensures s'.cfgs[j].frep.Some? {
      assert s'.cfgs[j].frep == s.cfgs[|g| - |g'| + j].frep;
    }
  }

  /** Whatever the emulator stands at the last instruction of a nest, the whole nest is queued. */
  lemma {:induction false} OuterDone(n: Nest, iters: seq<nat>, a: Idx, r: nat)
    requires ValidNest(n) && 0 <= a < |n| == |iters| && Outer(n, iters, a, r) == -1
    ensures r + 1 == |Body(n)|
    decreases a
  {
    hide Body;
    if a == 0 {
      BodyIsSize(n);
      assert Base(n, 0) == 0;
    } else {
      OuterDone(n, iters, a - 1, r);
    }
  }

  lemma {:induction false} CfgOfPos(n: Nest, p: Pos, lc: seq<LoopCfg>, lq: seq<Insn>, j: nat)
    requires Framed(n, p.a, p.iters, p.r) && j < |n|
    ensures Size(n, j) > 0
    ensures var s := AtPos(n, p, lc, lq);
            && s.loopIdx == p.a && s.rdPtr == p.r
            && Decoded(s.cfgs, j) && s.cfgs[j].iterIdx == p.iters[j]
            && s.cfgs[j].frep.value == Frep(n[j].maxIter, Size(n, j) - 1)
            && (j == p.a ==> s.cfgs[j].instIdx == p.r - Base(n, p.a))
  {
    SizePositive(n, j);
    hide Body, Queue, ValidNest, Size, Base;
    assert AtPos(n, p, lc, lq).cfgs[j] == CfgAt(n, p.a, p.iters, p.r, p.d, j);
  }

  lemma {:induction false} LeavingFacts(s: State)
    requires Decoded(s.cfgs, s.loopIdx) && LeavesNest(s)
    ensures s.cfgs[s.loopIdx].iterIdx == s.cfgs[s.loopIdx].frep.value.maxIter
    ensures s.cfgs[s.loopIdx].instIdx == s.cfgs[s.loopIdx].frep.value.maxInst
    ensures var u := Unwind(s.cfgs[s.loopIdx := ResetCfg(s.cfgs[s.loopIdx])], s.loopIdx - 1); u.Some? && u.value.1 == -1
  {
  }

  lemma {:induction false} FramedAt(n: Nest, p: Pos)
    requires PosOk(n, p) && p.a >= 0
    ensures Framed(n, p.a, p.iters, p.r) && p.a < p.d && ValidNest(n) && p.a < |n| == |p.iters|
  {
  }

  lemma {:induction false} LeavingUnwinds(n: Nest, p: Pos, lc: seq<LoopCfg>, lq: seq<Insn>, s: State)
    requires PosOk(n, p) && !Pending(n, p) && 0 <= p.a < p.d && Framed(n, p.a, p.iters, p.r) && s == AtPos(n, p, lc, lq)
    requires Decoded(s.cfgs, p.a) && s.loopIdx == p.a && LeavesNest(s)
    requires s.cfgs[p.a].iterIdx == p.iters[p.a] && s.cfgs[p.a].frep.value == Frep(n[p.a].maxIter, Size(n, p.a) - 1)
    requires s.cfgs[p.a].instIdx == p.r - Base(n, p.a)
    ensures p.d == |n| && Outer(n, p.iters, p.a, p.r) == -1
  {
    hide *;
    LeavingFacts(s);
    EndMeansAllEntered(n, p);
    UnwindAtEnd(n, p, lc, lq);
  }

  lemma {:induction false} LeavingEnds(n: Nest, p: Pos, lc: seq<LoopCfg>, lq: seq<Insn>, s: State)
    requires PosOk(n, p) && !Pending(n, p) && p.a >= 0 && s == AtPos(n, p, lc, lq)
    requires Decoded(s.cfgs, p.a) && LeavesNest(s)
    ensures p.d == |n| && p.r + 1 == |Body(n)|
    ensures Decoded(s.cfgs, 0) && s.cfgs[0].frep.value.maxInst == p.r
  {
    FramedAt(n, p);
    hide *;
    CfgOfPos(n, p, lc, lq, p.a);
    CfgOfPos(n, p, lc, lq, 0);
    LeavingUnwinds(n, p, lc, lq, s);
    OuterDone(n, p.iters, p.a, p.r);
    BodyIsSize(n);
  }

  lemma {:induction false} LeavesLoaded(e: State, g: seq<LoopCfg>, t: seq<LoopCfg>, q: seq<Insn>)
    requires CfgsPart(e.cfgs, g) && Decoded(e.cfgs, e.loopIdx) && LeavesNest(e)
    ensures Decoded(Loaded(e, g, t, q).cfgs, e.loopIdx) && LeavesNest(Loaded(e, g, t, q))
  {
    var a := e.loopIdx;
    assert (g + t)[a] == g[a];
    PartUpdate(e.cfgs, g, t, a, ResetCfg(e.cfgs[a]), ResetCfg(g[a]));
    var g1 := UnwindPart(e.cfgs[a := ResetCfg(e.cfgs[a])], g[a := ResetCfg(g[a])], t, a - 1);
  }

  lemma {:induction false} LeftEmpty(w: Where)
    requires WhereOk(w)
    ensures Left(w) == [] <==> FullState(w) == INIT
    ensures Left(w) == [] <==> FullState(w).insns == []
  {
    FacingSame(w);
    var v := Facing(w);
    if v.cur.Some? || v.rest != [] {
      hide FullState, Left, PosOk;
      if v.cur.Some? {
        var x := StepNest(v);
      } else {
        var x := StepSingle(v);
      }
    }
  }

  lemma {:induction false} EnterNeedsInsn(s: State)
    requires Emulate(s).Some?
    ensures s.insns != [] && s.rdPtr < |s.insns|
  {
  }

  lemma {:induction false} FrepNextMeansIdleOrPending(w: Where)
    requires WhereOk(w) && FrepNext(FullState(w))
    ensures FullState(w).nestDepth == FullState(w).loopIdx + 1
  {
    FacingSame(w);
    var v := Facing(w);
    hide Untouched, Stream, Body, Queue, Cfgs;
    if v.cur.Some? && !Pending(v.cur.value.0, v.cur.value.1) {
      NextIsPlain(v.cur.value.0, v.cur.value.1);
      assert false;
    }
  }

  lemma {:induction false} LeavingIsEnd(w: Where, e: State)
    requires WhereOk(w) && EnterLoops(FullState(w)) == Some(e)
    requires Decoded(e.cfgs, e.loopIdx) && LeavesNest(e)
    ensures Decoded(e.cfgs, 0) && e.cfgs[0].frep.value.maxInst == e.rdPtr
  {
    FacingSame(w);
    var v := Facing(w);
    hide LeavesNest, Body, Queue, Untouched, Freps, Cfgs, Left;
    StreamFreps(v.rest);
    match v.cur {
      case Some(np) =>
        var lc, lq := Untouched(Stream(v.rest), Freps(v.rest)), Stream(v.rest);
        EnterClosed(np.0, np.1, lc, lq);
        LeavingEnds(np.0, Entered(np.0, np.1), lc, lq, e);
      case None =>
        assert false;
    }
  }

  /** At the last instruction of a nest the whole nest is queued, however little else is. */
  lemma {:induction false} NestIsQueued(s: State, w: Where, g: seq<LoopCfg>, t: seq<LoopCfg>, i: seq<Insn>)
    requires WhereOk(w) && CfgsPart(s.cfgs, g) && Unseen(t) && Loaded(s, g, t, i) == FullState(w)
    requires Emulate(s).Some? && s.nestDepth <= |s.cfgs|
    requires var e := EnterLoops(s).value; Decoded(e.cfgs, e.loopIdx) && LeavesNest(e)
    requires FrepNext(s) ==> s.nestDepth == s.loopIdx + 1
    ensures NestQueued(EnterLoops(s).value)
  {
    var e := EnterLoops(s).value;
    IssueNeedsInsn(e);
    EnterShape(s);
    var g1 := EnterPart(s, g, t, i);
    LeavesLoaded(e, g1, t, i);
    hide LeavesNest, FullState, EnterLoops, IssueOne, WhereOk;
    LeavingIsEnd(w, Loaded(e, g1, t, i));
    assert Loaded(e, g1, t, i).cfgs[0] == g1[0];
    assert CfgPart(e.cfgs[0], g1[0]);
  }

  /** An issue that does not raise is the next instruction of the program. */
  lemma {:induction false} SimIssue(s: State, w: Where, g: seq<LoopCfg>, i: seq<Insn>, f: seq<Frep>, pend: bool)
    returns (g': seq<LoopCfg>)
    requires Sim(s, w, g, i, f, pend) && Emulate(s).Some?
    ensures var (s', x) := Emulate(s).value;
            && Sim(s', Onward(w), g', i, f, pend)
            && Left(w) != [] && x == Left(w)[0] && Left(Onward(w)) == Left(w)[1..]
  {
    hide Onward, Emulate, EnterLoops, FullState, Untouched, Left, WhereOk, FrepCount;
    var t := Untouched(i, f[Bit(pend)..]);
    EnterNeedsInsn(s);
    var l := Loaded(s, g, t, i);
    assert l.insns[s.rdPtr] == s.insns[s.rdPtr];
    if FrepNext(s) {
      FrepNextMeansIdleOrPending(w);
    }
    LeftEmpty(w);
    var x := StepLoaded(w);
    EnterIsPart(s);
    var e := EnterLoops(s).value;
    if Decoded(e.cfgs, e.loopIdx) && LeavesNest(e) {
      NestIsQueued(s, w, g, t, i);
    }
    g' := EmulatePart(s, g, t, i);
    HalfKept(s, Emulate(s).value.0, g, g', t, i, f, pend);
  }

  lemma {:induction false} EnterIsPart(s: State)
    requires Emulate(s).Some?
    ensures EnterLoops(s).Some?
  {
  }

  lemma {:induction false} HeadAndTail<T>(s: seq<T>, out: seq<T>, rest: seq<T>)
    requires s != [] && out + rest == s[1..]
    ensures [s[0]] + out + rest == s
  {
  }

  /** Any further events keep the simulation and issue what is left, in order. */
  lemma {:induction false} RunSim(s: State, w: Where, g: seq<LoopCfg>, evs: seq<Event>, i: seq<Insn>, f: seq<Frep>,
                                  pend: bool)
    returns (w': Where, g': seq<LoopCfg>, pend': bool)
    requires Sim(s, w, g, Offloads(evs) + i, Configured(evs) + f, pend)
    requires Disciplined(evs, pend) && Run(s, evs).Some?
    ensures Sim(Run(s, evs).value.0, w', g', i, f, pend')
    ensures Run(s, evs).value.1 + Left(w') == Left(w)
    decreases |evs|
  {
    hide Sim, Left, Emulate, Onward;
    if evs == [] {
      w', g', pend' := w, g, pend;
      Empties(i);
      Empties(f);
      Empties(Left(w));
    } else {
      var rest := evs[1..];
      Assoc(if evs[0].Offload? then [evs[0].insn] else [], Offloads(rest), i);
      Assoc(if evs[0].Configure? then [evs[0].frep] else [], Configured(rest), f);
      Empties(Offloads(rest) + i);
      Empties(Configured(rest) + f);
      match evs[0] {
        case Offload(insn) =>
          var g1 := SimOffload(s, w, g, insn, Offloads(rest) + i, Configured(rest) + f, pend);
          w', g', pend' := RunSim(Push(s, insn), w, g1, rest, i, f, pend || insn.isFrep);
        case Configure(frep) =>
          SimConfigure(s, w, g, Offloads(rest) + i, frep, Configured(rest) + f);
          w', g', pend' := RunSim(Decode(s, frep).value, w, g, rest, i, f, false);
        case Issued =>
          var g1 := SimIssue(s, w, g, Offloads(rest) + i, Configured(rest) + f, pend);
          var (s1, x) := Emulate(s).value;
          w', g', pend' := RunSim(s1, Onward(w), g1, rest, i, f, pend);
          HeadAndTail(Left(w), Run(s1, rest).value.1, Left(w'));
      }
    }
  }

  lemma {:induction false} FullyLoaded(s: State, w: Where, g: seq<LoopCfg>)
    requires Sim(s, w, g, [], [], false)
    ensures s == FullState(w)
  {
    hide FullState, WhereOk;
    assert g + [] == g && s.insns + [] == s.insns;
    forall j | 0 <= j < |g| ensures s.cfgs[j] == g[j] {
      assert CfgPart(s.cfgs[j], g[j]);
    }
    assert s.cfgs == g;
  }

  /**
   Whatever the interleaving of offloads, decodings and issues, the instructions
   issued so far are the first ones of the program's issues.
   */
  lemma {:induction false} IssuesInOrder(prog: Program, evs: seq<Event>, i: seq<Insn>, f: seq<Frep>)
    requires ValidProgram(prog) && Disciplined(evs, false)
    requires Offloads(evs) + i == Stream(prog) && Configured(evs) + f == Freps(prog)
    requires Run(INIT, evs).Some?
    ensures Run(INIT, evs).value.1 <= Trace(prog)
  {
    SimInit(prog);
    hide Sim, Left, Stream, Freps, Trace;
    var w', g', pend' := RunSim(INIT, Where(None, prog), [], evs, i, f, false);
  }

  /**
   Once the whole program is offloaded and decoded: the emulator can always go on
   until every instruction is issued, it is then back in its initial state, and
   `terminate` warns exactly when something was not issued.
   */
  lemma {:induction false} Drains(prog: Program, evs: seq<Event>)
    requires ValidProgram(prog) && Disciplined(evs, false)
    requires Offloads(evs) == Stream(prog) && Configured(evs) == Freps(prog)
    requires Run(INIT, evs).Some?
    ensures var (s, out) := Run(INIT, evs).value;
            && out <= Trace(prog)
            && (Emulate(s).Some? <==> |out| < |Trace(prog)|)
            && (Terminate(s) <==> |out| < |Trace(prog)|)
            && (s == INIT <==> |out| == |Trace(prog)|)
  {
    SimInit(prog);
    hide Sim, Left, Stream, Freps, Trace, Emulate, FullState, Disciplined;
    assert Stream(prog) + [] == Stream(prog) && Freps(prog) + [] == Freps(prog);
    var w', g', pend' := RunSim(INIT, Where(None, prog), [], evs, [], [], false);
    var (s, out) := Run(INIT, evs).value;
    NothingPending(s, w', g', pend');
    FullyLoaded(s, w', g');
    LeftEmpty(w');
    if Left(w') != [] {
      var x := StepLoaded(w');
    } else {
      InitCannotIssue();
    }
  }

  lemma {:induction false} NothingPending(s: State, w: Where, g: seq<LoopCfg>, pend: bool)
    requires Sim(s, w, g, [], [], pend)
    ensures !pend
  {
  }

  lemma {:induction false} InitCannotIssue()
    ensures Emulate(INIT).None?
  {
  }
}
