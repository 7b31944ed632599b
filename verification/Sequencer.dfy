/**
 The FREP sequencer emulator of the trace tool (util/trace/sequencer.py).

 `Sequencer` is the emulator itself: a class whose methods update the
 instruction queue, the stack of loop configurations and the read pointer in
 place.  `State` is a snapshot of its fields and `Emulate`, `Push`, `Decode` are
 the state transformers the methods are proved against; a Python exception
 (an index out of range, a key not yet decoded) is the result `None`.
 */
module SequencerModel {
  import opened Wrappers

  /** An offloaded instruction: program counter, trace section, FREP flag. */
  datatype Insn = Insn(pc: string, sec: nat, isFrep: bool)

  /** The part of a loop configuration that only `decode_frep` fills in. */
  datatype Frep = Frep(maxIter: nat, maxInst: nat)

  datatype LoopCfg = LoopCfg(pc: string, iterIdx: nat, instIdx: nat, basePtr: nat, frep: Option<Frep>)

  datatype Status = Status(pc: string, iterIdx: nat, instIdx: nat)

  datatype Issue = Issue(pc: string, sec: nat, status: Option<Status>)

  /** Index of a loop, -1 when no loop is active. */
  type Idx = i: int | -1 <= i witness -1

  datatype State = State(loopIdx: Idx, cfgs: seq<LoopCfg>, nestDepth: nat, insns: seq<Insn>, rdPtr: nat)

  const INIT := State(-1, [], 0, [], 0)

  function Remove<T>(s: seq<T>, i: nat): seq<T>
    requires i < |s|
  {
    s[..i] + s[i + 1..]
  }

  /** `del s[:k]`, which is clipped at the length. */
  function Drop<T>(s: seq<T>, k: nat): seq<T> {
    if k <= |s| then s[k..] else []
  }

  predicate Decoded(cfgs: seq<LoopCfg>, i: int) {
    0 <= i < |cfgs| && cfgs[i].frep.Some?
  }

  predicate LastIter(cfgs: seq<LoopCfg>, i: int)
    requires Decoded(cfgs, i)
  {
    cfgs[i].iterIdx == cfgs[i].frep.value.maxIter
  }

  predicate LastInst(cfgs: seq<LoopCfg>, i: int)
    requires Decoded(cfgs, i)
  {
    cfgs[i].instIdx == cfgs[i].frep.value.maxInst
  }

  function FreshCfg(pc: string): LoopCfg {
    LoopCfg(pc, 0, 0, 0, None)
  }

  function Push(s: State, insn: Insn): State {
    var cfgs := if insn.isFrep then s.cfgs + [FreshCfg(insn.pc)] else s.cfgs;
    State(s.loopIdx, cfgs, s.nestDepth, s.insns + [insn], s.rdPtr)
  }

  /** `decode_frep` fills the configuration pushed last; it raises when there is none. */
  function Decode(s: State, f: Frep): Option<State> {
    if s.cfgs == [] then None
    else
      var last := |s.cfgs| - 1;
      Some(State(s.loopIdx, s.cfgs[last := s.cfgs[last].(frep := Some(f))], s.nestDepth, s.insns, s.rdPtr))
  }

  /** Lines 85-92: pop every FREP found at the read pointer, entering its loop. */
  function EnterLoops(s: State): Option<State>
    decreases |s.insns|
  {
    if s.insns == [] then Some(s)
    else if s.rdPtr >= |s.insns| then None
    else if !s.insns[s.rdPtr].isFrep then Some(s)
    else if s.loopIdx + 1 >= |s.cfgs| then None
    else EnterLoops(State(s.loopIdx + 1,
                          s.cfgs[s.loopIdx + 1 := s.cfgs[s.loopIdx + 1].(basePtr := s.rdPtr)],
                          s.nestDepth + 1,
                          Remove(s.insns, s.rdPtr),
                          s.rdPtr))
  }

  /** Lines 116-119 and 171-174: advance the enclosing loops while the inner one is in its last iteration. */
  function Propagate(cfgs: seq<LoopCfg>, i: nat): (r: Option<seq<LoopCfg>>)
    requires i < |cfgs|
    ensures r.Some? ==> |r.value| == |cfgs|
    decreases i
  {
    if i == 0 then Some(cfgs)
    else if !Decoded(cfgs, i) then None
    else if !LastIter(cfgs, i) then Some(cfgs)
    else Propagate(cfgs[i - 1 := cfgs[i - 1].(instIdx := cfgs[i - 1].instIdx + 1)], i - 1)
  }

  /** Lines 124-128: re-enter the inner loops that start at the read pointer. */
  function Reenter(cfgs: seq<LoopCfg>, idx: Idx, rdPtr: nat): (r: Idx)
    requires idx < |cfgs|
    ensures idx <= r < |cfgs|
    decreases |cfgs| - idx
  {
    if |cfgs| > idx + 1 && cfgs[idx + 1].basePtr == rdPtr then Reenter(cfgs, idx + 1, rdPtr) else idx
  }

  function ResetCfg(c: LoopCfg): LoopCfg {
    c.(instIdx := 0, iterIdx := 0)
  }

  /** Lines 148-151: leave every loop that is at its last instruction of its last iteration. */
  function Unwind(cfgs: seq<LoopCfg>, idx: Idx): (r: Option<(seq<LoopCfg>, Idx)>)
    requires idx < |cfgs|
    ensures r.Some? ==> |r.value.0| == |cfgs| && -1 <= r.value.1 <= idx
    ensures r.Some? && r.value.1 > -1 ==> Decoded(r.value.0, r.value.1)
    decreases idx + 1
  {
    if idx == -1 then Some((cfgs, idx))
    else if !Decoded(cfgs, idx) then None
    else if LastIter(cfgs, idx) && LastInst(cfgs, idx) then Unwind(cfgs[idx := ResetCfg(cfgs[idx])], idx - 1)
    else Some((cfgs, idx))
  }

  /** Lines 109-128 and 164-174: step to the following instruction of the active loop. */
  function Advance(s: State): Option<State>
    requires 0 <= s.loopIdx < |s.cfgs|
  {
    var a := s.loopIdx;
    var cfgs :- Propagate(s.cfgs[a := s.cfgs[a].(instIdx := s.cfgs[a].instIdx + 1)], a);
    Some(State(a, cfgs, s.nestDepth, s.insns, s.rdPtr + 1))
  }

  function BumpIter(c: LoopCfg): LoopCfg {
    c.(instIdx := 0, iterIdx := c.iterIdx + 1)
  }

  /** Lines 132-138 and 177-180: start the next iteration of the active loop. */
  function NextIteration(s: State): State
    requires 0 <= s.loopIdx < |s.cfgs|
  {
    State(s.loopIdx, s.cfgs[s.loopIdx := BumpIter(s.cfgs[s.loopIdx])], s.nestDepth, s.insns, s.cfgs[s.loopIdx].basePtr)
  }

  /** Lines 140-180: the active loop has just issued the last instruction of its last iteration. */
  function Leave(s: State): Option<State>
    requires Decoded(s.cfgs, s.loopIdx)
  {
    var a := s.loopIdx;
    var (cfgs, b) :- Unwind(s.cfgs[a := ResetCfg(s.cfgs[a])], a - 1);
    if b == -1 then
      if !Decoded(cfgs, 0) then None
      else Some(State(-1, Drop(cfgs, s.nestDepth), 0, Drop(s.insns, cfgs[0].frep.value.maxInst + 1), 0))
    else
      var s1 := State(b, cfgs, s.nestDepth, s.insns, s.rdPtr);
      if !LastInst(cfgs, b) then Advance(s1) else Some(NextIteration(s1))
  }

  /** Lines 94-188, once no FREP is left at the read pointer. */
  function IssueOne(s: State): Option<(State, Issue)> {
    if s.rdPtr >= |s.insns| then None
    else if s.loopIdx == -1 then
      Some((State(-1, s.cfgs, s.nestDepth, Remove(s.insns, s.rdPtr), s.rdPtr),
            Issue(s.insns[s.rdPtr].pc, s.insns[s.rdPtr].sec, None)))
    else if !Decoded(s.cfgs, s.loopIdx) then None
    else
      var a, insn := s.loopIdx, s.insns[s.rdPtr];
      var issue := Issue(insn.pc, insn.sec, Some(Status(s.cfgs[a].pc, s.cfgs[a].iterIdx, s.cfgs[a].instIdx)));
      if !LastInst(s.cfgs, a) then
        var s1 :- Advance(s);
        Some((State(Reenter(s1.cfgs, a, s1.rdPtr), s1.cfgs, s1.nestDepth, s1.insns, s1.rdPtr), issue))
      else if !LastIter(s.cfgs, a) then Some((NextIteration(s), issue))
      else
        var s1 :- Leave(s);
        Some((s1, issue))
  }

  function Emulate(s: State): Option<(State, Issue)> {
    var s1 :- EnterLoops(s);
    IssueOne(s1)
  }

  /** `terminate` warns when configurations or instructions are left over. */
  predicate Terminate(s: State) {
    s.cfgs != [] || s.insns != []
  }

  class Sequencer {
    var loopIdx: Idx
    var loopCfg: seq<LoopCfg>
    var nestDepth: nat
    var insns: seq<Insn>
    var rdPtr: nat

    ghost function View(): State
      reads this
    {
      State(loopIdx, loopCfg, nestDepth, insns, rdPtr)
    }

    constructor ()
      ensures View() == INIT
    {
      loopIdx, loopCfg, nestDepth, insns, rdPtr := -1, [], 0, [], 0;
    }

    method PushInsn(insn: Insn)
      modifies this
      ensures View() == Push(old(View()), insn)
    {
      insns := insns + [insn];
      if insn.isFrep {
        loopCfg := loopCfg + [FreshCfg(insn.pc)];
      }
    }

    /** Fills the configuration and returns the PC of its FREP and the number of issues annotated. */
    method DecodeFrep(f: Frep) returns (r: Option<(string, nat)>)
      modifies this
      ensures r.None? <==> Decode(old(View()), f).None?
      ensures r.Some? ==> View() == Decode(old(View()), f).value
                          && r.value == (loopCfg[|loopCfg| - 1].pc, (f.maxInst + 1) * (f.maxIter + 1))
    {
      if loopCfg == [] {
        return None;
      }
      var last := |loopCfg| - 1;
      loopCfg := loopCfg[last := loopCfg[last].(frep := Some(f))];
      r := Some((loopCfg[last].pc, (f.maxInst + 1) * (f.maxIter + 1)));
    }

    /** Lines 109-119 and 164-174: advance the active loop and, lazily, the loops around it. */
    method AdvanceLoop() returns (ok: bool)
      requires 0 <= loopIdx < |loopCfg|
      modifies this
      ensures ok <==> Advance(old(View())).Some?
      ensures ok ==> View() == Advance(old(View())).value && |loopCfg| == |old(loopCfg)|
    {
      loopCfg := loopCfg[loopIdx := loopCfg[loopIdx].(instIdx := loopCfg[loopIdx].instIdx + 1)];
      rdPtr := rdPtr + 1;
      ghost var bumped := loopCfg;
      var i := loopIdx;
      while i >= 1
        invariant 0 <= i < |loopCfg| == |bumped|
        invariant loopIdx == old(loopIdx) && nestDepth == old(nestDepth) && insns == old(insns)
        invariant rdPtr == old(rdPtr) + 1 && loopIdx < |bumped|
        invariant Propagate(loopCfg, i) == Propagate(bumped, loopIdx)
      {
        if !Decoded(loopCfg, i) {
          return false;
        }
        if !LastIter(loopCfg, i) {
          break;
        }
        i := i - 1;
        loopCfg := loopCfg[i := loopCfg[i].(instIdx := loopCfg[i].instIdx + 1)];
      }
      return true;
    }

    /** Lines 140-180: leave the active loop and every enclosing loop that is finished too. */
    method LeaveLoop() returns (ok: bool)
      requires Decoded(loopCfg, loopIdx)
      modifies this
      ensures ok <==> Leave(old(View())).Some?
      ensures ok ==> View() == Leave(old(View())).value
    {
      loopCfg := loopCfg[loopIdx := ResetCfg(loopCfg[loopIdx])];
      loopIdx := loopIdx - 1;
      ghost var cfgs0, a0 := loopCfg, loopIdx;
      while loopIdx > -1
        invariant -1 <= loopIdx < |loopCfg|
        invariant Unwind(loopCfg, loopIdx) == Unwind(cfgs0, a0)
        invariant nestDepth == old(nestDepth) && insns == old(insns) && rdPtr == old(rdPtr)
      {
        if !Decoded(loopCfg, loopIdx) {
          return false;
        }
        if !(LastIter(loopCfg, loopIdx) && LastInst(loopCfg, loopIdx)) {
          break;
        }
        loopCfg := loopCfg[loopIdx := ResetCfg(loopCfg[loopIdx])];
        loopIdx := loopIdx - 1;
      }
      assert Unwind(cfgs0, a0) == Some((loopCfg, loopIdx));
      if loopIdx == -1 {
        if !Decoded(loopCfg, 0) {
          return false;
        }
        insns := Drop(insns, loopCfg[0].frep.value.maxInst + 1);
        loopCfg := Drop(loopCfg, nestDepth);
        nestDepth, rdPtr := 0, 0;
        return true;
      } else if !LastInst(loopCfg, loopIdx) {
        ok := AdvanceLoop();
      } else {
        var c := loopCfg[loopIdx];
        loopCfg := loopCfg[loopIdx := BumpIter(c)];
        rdPtr := c.basePtr;
        return true;
      }
    }

    /** Lines 121-128: the scan that re-enters inner loops. */
    method ReenterLoops()
      requires loopIdx < |loopCfg|
      modifies this`loopIdx
      ensures loopIdx == Reenter(loopCfg, old(loopIdx), rdPtr)
    {
      while |loopCfg| > loopIdx + 1 && loopCfg[loopIdx + 1].basePtr == rdPtr
        invariant loopIdx < |loopCfg|
        invariant Reenter(loopCfg, loopIdx, rdPtr) == Reenter(loopCfg, old(loopIdx), rdPtr)
      {
        loopIdx := loopIdx + 1;
      }
    }

    /** Lines 85-92: pop the FREPs at the read pointer. */
    method EnterLoopsAtPtr() returns (ok: bool)
      modifies this
      ensures ok <==> EnterLoops(old(View())).Some?
      ensures ok ==> View() == EnterLoops(old(View())).value
    {
      while insns != []
        invariant EnterLoops(View()) == EnterLoops(old(View()))
        decreases |insns|
      {
        if rdPtr >= |insns| {
          return false;
        }
        if !insns[rdPtr].isFrep {
          return true;
        }
        if loopIdx + 1 >= |loopCfg| {
          return false;
        }
        loopIdx := loopIdx + 1;
        nestDepth := nestDepth + 1;
        insns := Remove(insns, rdPtr);
        loopCfg := loopCfg[loopIdx := loopCfg[loopIdx].(basePtr := rdPtr)];
      }
      return true;
    }

    /** One instruction issue; `None` is a Python exception. */
    method EmulateStep() returns (r: Option<Issue>)
      modifies this
      ensures r.None? <==> Emulate(old(View())).None?
      ensures r.Some? ==> Emulate(old(View())) == Some((View(), r.value))
    {
      var ok := EnterLoopsAtPtr();
      if !ok || rdPtr >= |insns| {
        return None;
      }
      var insn := insns[rdPtr];
      if loopIdx == -1 {
        insns := Remove(insns, rdPtr);
        return Some(Issue(insn.pc, insn.sec, None));
      }
      if !Decoded(loopCfg, loopIdx) {
        return None;
      }
      var c := loopCfg[loopIdx];
      var issue := Issue(insn.pc, insn.sec, Some(Status(c.pc, c.iterIdx, c.instIdx)));
      if !LastInst(loopCfg, loopIdx) {
        ok := AdvanceLoop();
        if ok {
          ReenterLoops();
        }
      } else if !LastIter(loopCfg, loopIdx) {
        loopCfg := loopCfg[loopIdx := BumpIter(c)];
        rdPtr := c.basePtr;
      } else {
        ok := LeaveLoop();
      }
      r := if ok then Some(issue) else None;
    }

    method TerminateCheck() returns (warn: bool)
      ensures warn == Terminate(View())
    {
      warn := false;
      if loopCfg != [] {
        warn := true;
      }
      if |insns| != 0 {
        warn := true;
      }
    }
  }
}
