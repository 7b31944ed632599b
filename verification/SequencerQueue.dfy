/**
 Instructions reach the emulator while it is already issuing.  A state that has
 received only part of the stream behaves as the fully loaded one: whenever it
 does not raise, it issues the same instruction and stays a part of it.
 */
module SequencerQueue {
  import opened Wrappers
  import opened SequencerModel

  /** `g` is `c` or `c` once its FREP is decoded. */
  ghost predicate CfgPart(c: LoopCfg, g: LoopCfg) {
    g.frep.Some? && (c == g || c == LoopCfg(g.pc, g.iterIdx, g.instIdx, g.basePtr, None))
  }

  ghost predicate CfgsPart(c: seq<LoopCfg>, g: seq<LoopCfg>) {
    |c| == |g| && forall i | 0 <= i < |c| :: CfgPart(c[i], g[i])
  }

  /** Configurations of FREPs not offloaded yet. */
  ghost predicate Unseen(t: seq<LoopCfg>) {
    forall i | 0 <= i < |t| :: t[i].basePtr == 0 && t[i].frep.Some?
  }

  /** `s` plus the configurations `t` and the instructions `q` still to come is the loaded state. */
  ghost function Loaded(s: State, g: seq<LoopCfg>, t: seq<LoopCfg>, q: seq<Insn>): State {
    State(s.loopIdx, g + t, s.nestDepth, s.insns + q, s.rdPtr)
  }

  lemma {:induction false} PartUpdate(c: seq<LoopCfg>, g: seq<LoopCfg>, t: seq<LoopCfg>, i: nat, x: LoopCfg, y: LoopCfg)
    requires CfgsPart(c, g) && i < |c| && CfgPart(x, y)
    ensures CfgsPart(c[i := x], g[i := y])
    ensures (g + t)[i := y] == g[i := y] + t
  {
  }

  lemma {:induction false} PropagatePart(c: seq<LoopCfg>, g: seq<LoopCfg>, t: seq<LoopCfg>, i: nat)
    returns (g': seq<LoopCfg>)
    requires CfgsPart(c, g) && i < |c| && Propagate(c, i).Some?
    ensures Propagate(g + t, i) == Some(g' + t) && CfgsPart(Propagate(c, i).value, g')
    decreases i
  {
    g' := g;
    if i > 0 && LastIter(c, i) {
      var x := c[i - 1].(instIdx := c[i - 1].instIdx + 1);
      var y := g[i - 1].(instIdx := g[i - 1].instIdx + 1);
      PartUpdate(c, g, t, i - 1, x, y);
      g' := PropagatePart(c[i - 1 := x], g[i - 1 := y], t, i - 1);
    }
  }

  lemma {:induction false} ReenterPart(c: seq<LoopCfg>, g: seq<LoopCfg>, t: seq<LoopCfg>, a: Idx, r: nat)
    requires CfgsPart(c, g) && Unseen(t) && a < |c| && r > 0
    ensures Reenter(g + t, a, r) == Reenter(c, a, r)
    decreases |c| - a
  {
    if a + 1 < |c| {
      assert (g + t)[a + 1] == g[a + 1];
      if c[a + 1].basePtr == r {
        ReenterPart(c, g, t, a + 1, r);
      }
    } else if t != [] {
      assert (g + t)[a + 1] == t[0];
    }
  }

  lemma {:induction false} UnwindPart(c: seq<LoopCfg>, g: seq<LoopCfg>, t: seq<LoopCfg>, a: Idx)
    returns (g': seq<LoopCfg>)
    requires CfgsPart(c, g) && a < |c| && Unwind(c, a).Some?
    ensures Unwind(g + t, a) == Some((g' + t, Unwind(c, a).value.1))
    ensures CfgsPart(Unwind(c, a).value.0, g')
    decreases a + 1
  {
    g' := g;
    if a >= 0 {
      assert (g + t)[a] == g[a];
      if LastIter(c, a) && LastInst(c, a) {
        PartUpdate(c, g, t, a, ResetCfg(c[a]), ResetCfg(g[a]));
        g' := UnwindPart(c[a := ResetCfg(c[a])], g[a := ResetCfg(g[a])], t, a - 1);
      }
    }
  }

  lemma {:induction false} AdvancePart(s: State, g: seq<LoopCfg>, t: seq<LoopCfg>, q: seq<Insn>)
    returns (g': seq<LoopCfg>)
    requires CfgsPart(s.cfgs, g) && 0 <= s.loopIdx < |s.cfgs| && Advance(s).Some?
    ensures Advance(Loaded(s, g, t, q)) == Some(Loaded(Advance(s).value, g', t, q))
    ensures CfgsPart(Advance(s).value.cfgs, g')
  {
    var a := s.loopIdx;
    var x := s.cfgs[a].(instIdx := s.cfgs[a].instIdx + 1);
    var y := g[a].(instIdx := g[a].instIdx + 1);
    PartUpdate(s.cfgs, g, t, a, x, y);
    assert (g + t)[a] == g[a];
    g' := PropagatePart(s.cfgs[a := x], g[a := y], t, a);
  }

  lemma {:induction false} NextIterationPart(s: State, g: seq<LoopCfg>, t: seq<LoopCfg>, q: seq<Insn>)
    returns (g': seq<LoopCfg>)
    requires CfgsPart(s.cfgs, g) && 0 <= s.loopIdx < |s.cfgs|
    ensures NextIteration(Loaded(s, g, t, q)) == Loaded(NextIteration(s), g', t, q)
    ensures CfgsPart(NextIteration(s).cfgs, g')
  {
    var a := s.loopIdx;
    assert (g + t)[a] == g[a];
    PartUpdate(s.cfgs, g, t, a, BumpIter(s.cfgs[a]), BumpIter(g[a]));
    g' := g[a := BumpIter(g[a])];
  }

  /** The nest being left is entirely in the queue. */
  ghost predicate NestQueued(s: State) {
    && s.nestDepth <= |s.cfgs|
    && (Decoded(s.cfgs, 0) ==> s.cfgs[0].frep.value.maxInst < |s.insns|)
  }

  /** A loop's bounds never change. */
  lemma {:induction false} UnwindKeepsFreps(c: seq<LoopCfg>, a: Idx)
    requires a < |c| && Unwind(c, a).Some?
    ensures forall i | 0 <= i < |c| :: Unwind(c, a).value.0[i].frep == c[i].frep
    decreases a + 1
  {
    if a >= 0 && LastIter(c, a) && LastInst(c, a) {
      UnwindKeepsFreps(c[a := ResetCfg(c[a])], a - 1);
    }
  }

  /** The next instruction is the last one of the outermost loop's last iteration. */
  ghost predicate LeavesNest(s: State)
    requires Decoded(s.cfgs, s.loopIdx)
  {
    var u := Unwind(s.cfgs[s.loopIdx := ResetCfg(s.cfgs[s.loopIdx])], s.loopIdx - 1);
    LastIter(s.cfgs, s.loopIdx) && LastInst(s.cfgs, s.loopIdx) && u.Some? && u.value.1 == -1
  }

  lemma {:induction false} LeavePart(s: State, g: seq<LoopCfg>, t: seq<LoopCfg>, q: seq<Insn>)
    returns (g': seq<LoopCfg>)
    requires CfgsPart(s.cfgs, g) && Decoded(s.cfgs, s.loopIdx) && Leave(s).Some?
    requires LastIter(s.cfgs, s.loopIdx) && LastInst(s.cfgs, s.loopIdx)
    requires LeavesNest(s) ==> NestQueued(s)
    ensures Decoded(g + t, s.loopIdx)
    ensures Leave(Loaded(s, g, t, q)) == Some(Loaded(Leave(s).value, g', t, q))
    ensures CfgsPart(Leave(s).value.cfgs, g')
  {
    hide Unwind, Advance, NextIteration;
    var a := s.loopIdx;
    assert (g + t)[a] == g[a];
    PartUpdate(s.cfgs, g, t, a, ResetCfg(s.cfgs[a]), ResetCfg(g[a]));
    var c1 := s.cfgs[a := ResetCfg(s.cfgs[a])];
    var g1 := UnwindPart(c1, g[a := ResetCfg(g[a])], t, a - 1);
    var u := Unwind(c1, a - 1).value;
    UnwindKeepsFreps(c1, a - 1);
    if u.1 == -1 {
      assert (g1 + t)[0] == g1[0];
      g' := g1[s.nestDepth..];
      assert Drop(g1 + t, s.nestDepth) == g' + t;
      var k := u.0[0].frep.value.maxInst + 1;
      assert Drop(s.insns + q, k) == Drop(s.insns, k) + q;
    } else {
      var s1 := State(u.1, u.0, s.nestDepth, s.insns, s.rdPtr);
      assert (g1 + t)[u.1] == g1[u.1];
      if !LastInst(u.0, u.1) {
        g' := AdvancePart(s1, g1, t, q);
      } else {
        g' := NextIterationPart(s1, g1, t, q);
      }
    }
  }

  lemma {:induction false} IssuePart(s: State, g: seq<LoopCfg>, t: seq<LoopCfg>, q: seq<Insn>)
    returns (g': seq<LoopCfg>)
    requires CfgsPart(s.cfgs, g) && Unseen(t) && IssueOne(s).Some?
    requires Decoded(s.cfgs, s.loopIdx) && LeavesNest(s) ==> NestQueued(s)
    ensures var (s', x) := IssueOne(s).value;
            IssueOne(Loaded(s, g, t, q)) == Some((Loaded(s', g', t, q), x)) && CfgsPart(s'.cfgs, g')
  {
    hide Advance, Leave, NextIteration, Reenter, LeavesNest, NestQueued;
    var f := Loaded(s, g, t, q);
    assert f.insns[s.rdPtr] == s.insns[s.rdPtr];
    if s.loopIdx == -1 {
      g' := g;
      assert Remove(s.insns + q, s.rdPtr) == Remove(s.insns, s.rdPtr) + q;
    } else {
      assert f.cfgs[s.loopIdx] == g[s.loopIdx];
      if !LastInst(s.cfgs, s.loopIdx) {
        g' := AdvancePart(s, g, t, q);
        AdvanceSteps(s);
        ReenterPart(Advance(s).value.cfgs, g', t, s.loopIdx, s.rdPtr + 1);
      } else if !LastIter(s.cfgs, s.loopIdx) {
        g' := NextIterationPart(s, g, t, q);
      } else {
        g' := LeavePart(s, g, t, q);
      }
    }
  }

  lemma {:induction false} AdvanceSteps(s: State)
    requires 0 <= s.loopIdx < |s.cfgs| && Advance(s).Some?
    ensures Advance(s).value.rdPtr == s.rdPtr + 1 && Advance(s).value.loopIdx == s.loopIdx
    ensures |Advance(s).value.cfgs| == |s.cfgs|
  {
  }

  lemma {:induction false} EnterPart(s: State, g: seq<LoopCfg>, t: seq<LoopCfg>, q: seq<Insn>)
    returns (g': seq<LoopCfg>)
    requires CfgsPart(s.cfgs, g)
    requires EnterLoops(s).Some? && EnterLoops(s).value.rdPtr < |EnterLoops(s).value.insns|
    ensures EnterLoops(Loaded(s, g, t, q)) == Some(Loaded(EnterLoops(s).value, g', t, q))
    ensures CfgsPart(EnterLoops(s).value.cfgs, g')
    decreases |s.insns|
  {
    g' := g;
    var f := Loaded(s, g, t, q);
    if s.insns != [] {
      assert f.insns[s.rdPtr] == s.insns[s.rdPtr];
      if s.insns[s.rdPtr].isFrep {
        var a := s.loopIdx + 1;
        var x, y := s.cfgs[a].(basePtr := s.rdPtr), g[a].(basePtr := s.rdPtr);
        assert f.cfgs[a] == g[a];
        PartUpdate(s.cfgs, g, t, a, x, y);
        assert Remove(s.insns + q, s.rdPtr) == Remove(s.insns, s.rdPtr) + q;
        var s1 := State(a, s.cfgs[a := x], s.nestDepth + 1, Remove(s.insns, s.rdPtr), s.rdPtr);
        assert EnterLoops(s) == EnterLoops(s1);
        assert EnterLoops(f) == EnterLoops(Loaded(s1, g[a := y], t, q));
        g' := EnterPart(s1, g[a := y], t, q);
      }
    }
  }

  /** One call on a partly loaded state is one call on the loaded one. */
  lemma {:induction false} EmulatePart(s: State, g: seq<LoopCfg>, t: seq<LoopCfg>, q: seq<Insn>)
    returns (g': seq<LoopCfg>)
    requires CfgsPart(s.cfgs, g) && Unseen(t) && Emulate(s).Some?
    requires var e := EnterLoops(s).value; Decoded(e.cfgs, e.loopIdx) && LeavesNest(e) ==> NestQueued(e)
    ensures var (s', x) := Emulate(s).value;
            Emulate(Loaded(s, g, t, q)) == Some((Loaded(s', g', t, q), x)) && CfgsPart(s'.cfgs, g')
  {
    hide IssueOne, EnterLoops, LeavesNest, NestQueued;
    IssueNeedsInsn(EnterLoops(s).value);
    g' := EnterPart(s, g, t, q);
    g' := IssuePart(EnterLoops(s).value, g', t, q);
  }

  lemma {:induction false} IssueNeedsInsn(s: State)
    requires IssueOne(s).Some?
    ensures s.rdPtr < |s.insns|
  {
  }
}
