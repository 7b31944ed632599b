/**
 One call of the emulator at any point of the replay of any chain-shaped nest:
 what it returns, the state it leaves, and the decomposition of what remains.
 */
module SequencerStep {
  import opened Wrappers
  import opened SequencerModel
  import opened SequencerNest
  import opened SequencerGeometry
  import opened SequencerReplay
  import opened SequencerUnrolling

  lemma {:induction false} OffsetNextIteration(n: Nest, b: nat, iters: seq<nat>, next: seq<nat>, r: nat, j: nat)
    requires Framed(n, b, iters, r) && Framed(n, b, next, Base(n, b)) && j < b
    requires iters[b] < n[b].maxIter && forall i | 0 <= i < b :: next[i] == iters[i]
    ensures Offset(n, b, iters, r, j) == Offset(n, b, next, Base(n, b), j)
    decreases b - j
  {
    if j + 1 < b {
      OffsetNextIteration(n, b, iters, next, r, j + 1);
    } else {
      assert Offset(n, b, next, Base(n, b), b) == 0;
    }
  }

  lemma {:induction false} NextIterationCfgs(n: Nest, b: nat, iters: seq<nat>, next: seq<nat>, r: nat, d: nat)
    requires Framed(n, b, iters, r) && Framed(n, b, next, Base(n, b)) && d > b
    requires iters[b] < n[b].maxIter && next == iters[b := iters[b] + 1]
    ensures var s := Cfgs(n, b, iters, r, d);
            s[b := BumpIter(s[b])] == Cfgs(n, b, next, Base(n, b), d)
  {
    hide Body, Size, Base;
    forall j | 0 <= j < b
      ensures CfgAt(n, b, iters, r, d, j) == CfgAt(n, b, next, Base(n, b), d, j)
    {
      OffsetNextIteration(n, b, iters, next, r, j);
    }
  }

  /** Starting the next iteration of a loop keeps the closed form. */
  lemma {:induction false} NextIterationClosed(n: Nest, b: nat, iters: seq<nat>, next: seq<nat>, r: nat, d: nat,
                            lc: seq<LoopCfg>, lq: seq<Insn>)
    requires Framed(n, b, iters, r) && d > b
    requires iters[b] < n[b].maxIter && next == iters[b := iters[b] + 1]
    ensures Framed(n, b, next, Base(n, b))
    ensures NextIteration(AtPos(n, Pos(b, iters, r, d), lc, lq)) == AtPos(n, Pos(b, next, Base(n, b), d), lc, lq)
  {
    hide Body, Queue, Offset;
    SizePositive(n, b);
    NextIterationCfgs(n, b, iters, next, r, d);
    var s := Cfgs(n, b, iters, r, d);
    UpdateLeft(s, lc, b, BumpIter(s[b]));
  }

  /** Leaving every finished loop, then stepping on in the first unfinished one. */
  lemma {:induction false} UnwindAtEnd(n: Nest, p: Pos, lc: seq<LoopCfg>, lq: seq<Insn>)
    requires p.a >= 0 && Framed(n, p.a, p.iters, p.r)
    requires p.iters[p.a] == n[p.a].maxIter && p.r + 1 == Base(n, p.a) + Size(n, p.a)
    ensures var s, b := AtPos(n, p, lc, lq), Outer(n, p.iters, p.a, p.r);
            && b < p.a && Framed(n, b, ZeroAbove(p.iters, b), p.r)
            && Unwind(s.cfgs[p.a := ResetCfg(s.cfgs[p.a])], p.a - 1)
               == Some((Cfgs(n, b, ZeroAbove(p.iters, b), p.r, p.d) + lc, b))
  {
    hide Body, Queue, Offset, ValidNest, Size, Unwind;
    FramedOutward(n, p.a, p.iters, p.r);
    OutwardCfgs(n, p.a, p.iters, p.r, p.d, lc);
    OuterIgnores(n, p.iters, p.a, p.a - 1, p.r);
    var z := p.iters[p.a := 0];
    UnwindClosed(n, p.a - 1, z, p.r, p.d, lc);
    var b := Outer(n, p.iters, p.a, p.r);
    assert ZeroAbove(z, b) == ZeroAbove(p.iters, b);
  }

  lemma {:induction false} DropAll<T>(s: seq<T>, t: seq<T>)
    ensures Drop(s + t, |s|) == t
  {
  }

  lemma {:induction false} BodyIsSize(n: Nest)
    ensures Size(n, 0) == |Body(n)|
  {
    assert n[0..] == n;
  }

  /** Leaving the outermost loop deletes exactly the nest's configurations and instructions. */
  lemma {:induction false} LeaveNest(n: Nest, p: Pos, lc: seq<LoopCfg>, lq: seq<Insn>)
    requires p.a >= 0 && Framed(n, p.a, p.iters, p.r) && p.d == |n|
    requires p.iters[p.a] == n[p.a].maxIter && p.r + 1 == Base(n, p.a) + Size(n, p.a)
    requires Outer(n, p.iters, p.a, p.r) == -1
    ensures Leave(AtPos(n, p, lc, lq)) == Some(Finished(lc, lq))
  {
    hide Body, Queue, Offset, Unwind;
    UnwindAtEnd(n, p, lc, lq);
    QueueDone(n);
    BodyIsSize(n);
    SizePositive(n, 0);
    var c := Cfgs(n, -1, ZeroAbove(p.iters, -1), p.r, p.d);
    assert (c + lc)[0] == c[0];
    DropAll(c, lc);
    DropAll(Queue(n, p.d), lq);
  }

  lemma {:induction false} LeaveIs(s: State, cfgs: seq<LoopCfg>, b: nat)
    requires Decoded(s.cfgs, s.loopIdx) && s.loopIdx > 0
    requires Unwind(s.cfgs[s.loopIdx := ResetCfg(s.cfgs[s.loopIdx])], s.loopIdx - 1) == Some((cfgs, b))
    ensures b < |cfgs| && Decoded(cfgs, b)
    ensures var s1 := State(b, cfgs, s.nestDepth, s.insns, s.rdPtr);
            Leave(s) == if !LastInst(cfgs, b) then Advance(s1) else Some(NextIteration(s1))
  {
  }

  lemma {:induction false} LeaveToOuter(n: Nest, p: Pos, b: nat, lc: seq<LoopCfg>, lq: seq<Insn>)
    requires p.a >= 0 && Framed(n, p.a, p.iters, p.r) && p.d == |n|
    requires p.iters[p.a] == n[p.a].maxIter && p.r + 1 == Base(n, p.a) + Size(n, p.a)
    requires b == Outer(n, p.iters, p.a, p.r)
    requires var q := Next(n, p); q.Some? && Framed(n, q.value.a, q.value.iters, q.value.r)
    ensures p.a < |AtPos(n, p, lc, lq).cfgs| && Decoded(AtPos(n, p, lc, lq).cfgs, p.a)
    ensures Leave(AtPos(n, p, lc, lq)) == Some(AtPos(n, Next(n, p).value, lc, lq))
  {
    hide Body, Queue, Unwind, Leave, Advance, NextIteration, ValidNest, Outer, Base;
    UnwindAtEnd(n, p, lc, lq);
    var z := Pos(b, ZeroAbove(p.iters, b), p.r, p.d);
    SizePositive(n, b);
    var c := Cfgs(n, b, z.iters, p.r, p.d);
    assert (c + lc)[b] == c[b];
    assert AtPos(n, p, lc, lq).cfgs[p.a] == CfgAt(n, p.a, p.iters, p.r, p.d, p.a);
    LeaveIs(AtPos(n, p, lc, lq), c + lc, b);
    if p.r + 1 < Base(n, b) + Size(n, b) {
      AdvanceClosed(n, z, lc, lq);
    } else {
      OuterStops(n, p.iters, p.a, p.r);
      NextIterationClosed(n, b, z.iters, z.iters[b := z.iters[b] + 1], p.r, p.d, lc, lq);
    }
  }

  /** Stepping within a loop, including the scan that re-enters inner loops. */
  lemma {:induction false} AdvanceAndReenter(n: Nest, p: Pos, lc: seq<LoopCfg>, lq: seq<Insn>)
    requires PosOk(n, p) && !Pending(n, p) && p.r + 1 < Base(n, p.a) + Size(n, p.a)
    requires forall i | 0 <= i < |lc| :: lc[i].basePtr == 0
    ensures p.a >= 0 && Next(n, p).Some? && PosOk(n, Next(n, p).value)
    ensures var s := Advance(AtPos(n, p, lc, lq));
            && s.Some?
            && State(Reenter(s.value.cfgs, p.a, s.value.rdPtr), s.value.cfgs, s.value.nestDepth, s.value.insns,
               s.value.rdPtr)
               == AtPos(n, Next(n, p).value, lc, lq)
  {
    hide Body, Queue, Offset, Reenter, Propagate, Rest;
    NextWithin(n, p);
    AdvanceClosed(n, p, lc, lq);
    if p.d == |n| {
      ReenterClosed(n, p.a, p.iters, p.r + 1, lc);
    } else {
      NoReenter(n, p.(r := p.r + 1), lc);
    }
  }

  /** The branch one call takes, read off the point of the replay. */
  lemma {:induction false} IssueBranch(n: Nest, p: Pos, lc: seq<LoopCfg>, lq: seq<Insn>)
    requires PosOk(n, p) && !Pending(n, p)
    ensures p.a >= 0 && p.r < |Body(n)|
    ensures var s := AtPos(n, p, lc, lq);
            && Decoded(s.cfgs, p.a)
            && IssueOne(s)
               == if p.r + 1 < Base(n, p.a) + Size(n, p.a) then
                    (match Advance(s)
                     case None => None
                     case Some(t) =>
                       Some((State(Reenter(t.cfgs, p.a, t.rdPtr), t.cfgs, t.nestDepth, t.insns, t.rdPtr),
                           IssueAt(n, p))))
                  else if p.iters[p.a] < n[p.a].maxIter then Some((NextIteration(s), IssueAt(n, p)))
                  else match Leave(s) case None => None case Some(t) => Some((t, IssueAt(n, p)))
  {
    NextIsPlain(n, p);
    SizePositive(n, p.a);
    var s := AtPos(n, p, lc, lq);
    assert s.insns[p.r] == Body(n)[p.r];
    assert s.cfgs[p.a] == CfgAt(n, p.a, p.iters, p.r, p.d, p.a);
    hide Body, Queue, Advance, Leave, NextIteration, Reenter, Base, ValidNest;
  }

  /** The last instruction of an iteration that is not the last. */
  lemma {:induction false} IterationEnds(n: Nest, p: Pos, lc: seq<LoopCfg>, lq: seq<Insn>)
    requires PosOk(n, p) && !Pending(n, p) && p.r + 1 == Base(n, p.a) + Size(n, p.a)
    requires p.iters[p.a] < n[p.a].maxIter
    ensures Next(n, p).Some? && PosOk(n, Next(n, p).value)
    ensures NextIteration(AtPos(n, p, lc, lq)) == AtPos(n, Next(n, p).value, lc, lq)
  {
    hide Body, Queue, NextIteration, Base, ValidNest, Rest, AtPos;
    NextAtIterationEnd(n, p);
    assert ZeroAbove(p.iters, p.a) == p.iters;
    NextIterationClosed(n, p.a, p.iters, p.iters[p.a := p.iters[p.a] + 1], p.r, p.d, lc, lq);
  }

  /** The last instruction of the last iteration. */
  lemma {:induction false} LoopEnds(n: Nest, p: Pos, lc: seq<LoopCfg>, lq: seq<Insn>)
    requires PosOk(n, p) && !Pending(n, p) && p.r + 1 == Base(n, p.a) + Size(n, p.a)
    requires p.iters[p.a] == n[p.a].maxIter
    ensures Next(n, p).Some? ==> PosOk(n, Next(n, p).value)
    ensures p.a < |AtPos(n, p, lc, lq).cfgs| && Decoded(AtPos(n, p, lc, lq).cfgs, p.a)
    ensures Leave(AtPos(n, p, lc, lq)) == Some(AfterIssue(n, p, lc, lq))
  {
    hide Body, Queue, Leave, Base, ValidNest, Rest;
    EndMeansAllEntered(n, p);
    assert AtPos(n, p, lc, lq).cfgs[p.a] == CfgAt(n, p.a, p.iters, p.r, p.d, p.a);
    NextAtLoopEnd(n, p);
    if Next(n, p).None? {
      LeaveNest(n, p, lc, lq);
    } else {
      LeaveToOuter(n, p, Outer(n, p.iters, p.a, p.r), lc, lq);
    }
  }

  /** What one call issues once the FREPs are popped. */
  lemma {:induction false} IssueClosed(n: Nest, p: Pos, lc: seq<LoopCfg>, lq: seq<Insn>)
    requires PosOk(n, p) && !Pending(n, p)
    requires forall i | 0 <= i < |lc| :: lc[i].basePtr == 0
    ensures p.a >= 0 && p.r < |Body(n)|
    ensures Next(n, p).Some? ==> PosOk(n, Next(n, p).value)
    ensures IssueOne(AtPos(n, p, lc, lq)) == Some((AfterIssue(n, p, lc, lq), IssueAt(n, p)))
  {
    IssueBranch(n, p, lc, lq);
    hide Body, Queue, Advance, Leave, NextIteration, Reenter, Base, ValidNest, IssueOne, AtPos, Decoded, Next;
    if p.r + 1 < Base(n, p.a) + Size(n, p.a) {
      AdvanceAndReenter(n, p, lc, lq);
    } else if p.iters[p.a] < n[p.a].maxIter {
      IterationEnds(n, p, lc, lq);
    } else {
      LoopEnds(n, p, lc, lq);
    }
  }

  /** What one call leaves to be issued. */
  lemma {:induction false} IssueRest(n: Nest, p: Pos)
    requires PosOk(n, p) && !Pending(n, p)
    ensures p.r < |Body(n)| && p.a >= 0
    ensures match Next(n, p)
            case None => Rest(n, p) == [IssueAt(n, p)]
            case Some(q) => PosOk(n, q) && Rest(n, p) == [IssueAt(n, p)] + Rest(n, q)
  {
    hide Body, Rest;
    if p.r + 1 < Base(n, p.a) + Size(n, p.a) {
      NextWithin(n, p);
    } else if p.iters[p.a] < n[p.a].maxIter {
      NextAtIterationEnd(n, p);
    } else {
      NextAtLoopEnd(n, p);
    }
  }

  /**
   One call of `emulate` inside a nest: it returns the head of what remains to be
   issued, tagged with the active loop's FREP, iteration and instruction index,
   and leaves the state of the next point, or, after the last instruction, only
   what is queued behind the nest.
   */
  lemma {:induction false} EmulateInNest(n: Nest, p: Pos, lc: seq<LoopCfg>, lq: seq<Insn>)
    requires PosOk(n, p)
    requires forall i | 0 <= i < |lc| :: lc[i].basePtr == 0
    ensures PosOk(n, Entered(n, p)) && !Pending(n, Entered(n, p)) && Entered(n, p).a >= 0
    ensures p.r < |Body(n)|
    ensures Next(n, Entered(n, p)).Some? ==> PosOk(n, Next(n, Entered(n, p)).value)
    ensures Emulate(AtPos(n, p, lc, lq))
            == Some((AfterIssue(n, Entered(n, p), lc, lq), IssueAt(n, Entered(n, p))))
    ensures Rest(n, p) == [IssueAt(n, Entered(n, p))]
                          + match Next(n, Entered(n, p)) case None => [] case Some(q) => Rest(n, q)
  {
    hide Body, Rest, IssueOne, EnterLoops, Queue;
    EnterClosed(n, p, lc, lq);
    EnteredRest(n, p);
    IssueClosed(n, Entered(n, p), lc, lq);
    IssueRest(n, Entered(n, p));
  }
}
