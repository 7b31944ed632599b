/**
 One call of the emulator inside a nest: it issues the instruction at the read
 pointer and moves to the next point of the replay, and what remains to be
 issued shrinks by exactly that instruction.
 */
module SequencerReplay {
  import opened Wrappers
  import opened SequencerModel
  import opened SequencerNest
  import opened SequencerGeometry

  /** The loop that is active once every loop starting at `r` is entered. */
  ghost function Settle(n: Nest, a: Idx, r: nat): (b: Idx)
    requires a < |n|
    ensures a <= b < |n|
    decreases |n| - a
  {
    if a + 1 < |n| && Base(n, a + 1) == r then Settle(n, a + 1, r) else a
  }

  /** The innermost loop, from `a` outwards, that is not finished once instruction `r` is issued. */
  ghost function Outer(n: Nest, iters: seq<nat>, a: Idx, r: nat): (b: Idx)
    requires a < |n| == |iters|
    ensures b <= a
    decreases a + 1
  {
    if a == -1 then -1
    else if iters[a] == n[a].maxIter && r + 1 == Base(n, a) + Size(n, a) then Outer(n, iters, a - 1, r)
    else a
  }

  ghost function ZeroAbove(iters: seq<nat>, b: Idx): (z: seq<nat>)
    ensures |z| == |iters| && forall i | 0 <= i < |z| :: z[i] == if i <= b then iters[i] else 0
  {
    seq(|iters|, i requires 0 <= i < |iters| => if i <= b then iters[i] else 0)
  }

  /** A point between two calls of the emulator. */
  ghost predicate PosOk(n: Nest, p: Pos) {
    && Framed(n, p.a, p.iters, p.r)
    && p.a < p.d <= |n|
    && (p.d < |n| ==> p.a == p.d - 1 && p.r <= Base(n, p.d) && forall i | 0 <= i < |n| :: p.iters[i] == 0)
    && (p.d == |n| ==> Settled(n, p.a, p.r))
  }

  ghost predicate Settled(n: Nest, a: Idx, r: nat)
    requires a < |n|
  {
    a >= 0 && (r < Base(n, a + 1) || r >= Base(n, a + 1) + Size(n, a + 1) || n[a].pre == [])
  }

  /** The next instruction queued is a FREP. */
  ghost predicate Pending(n: Nest, p: Pos) {
    p.d < |n| && p.r == Base(n, p.d)
  }

  /** The point of the replay once the FREPs at the read pointer are popped. */
  ghost function Entered(n: Nest, p: Pos): Pos
    requires PosOk(n, p)
  {
    if Pending(n, p) then var b := Settle(n, p.a, p.r); p.(a := b, d := b + 1) else p
  }

  /** The point after issuing the instruction at an entered point; `None` when the nest is finished. */
  ghost function Next(n: Nest, p: Pos): Option<Pos>
    requires Framed(n, p.a, p.iters, p.r) && p.a >= 0
  {
    if p.r + 1 < Base(n, p.a) + Size(n, p.a) then
      Some(p.(r := p.r + 1, a := if p.d < |n| then p.a else Settle(n, p.a, p.r + 1)))
    else
      var b := Outer(n, p.iters, p.a, p.r);
      if b == -1 then None
      else if p.r + 1 < Base(n, b) + Size(n, b) then Some(Pos(b, ZeroAbove(p.iters, b), p.r + 1, p.d))
      else Some(Pos(b, ZeroAbove(p.iters, b)[b := p.iters[b] + 1], Base(n, b), p.d))
  }

  // ----- the emulator's helpers on the closed form

  lemma {:induction false} NestedBounds(n: Nest, i: nat)
    requires ValidNest(n) && i < |n|
    ensures Base(n, i) <= Base(n, i + 1) && Base(n, i + 1) + Size(n, i + 1) <= Base(n, i) + Size(n, i)
    ensures Base(n, i + 1) == Base(n, i) + |n[i].pre| && Size(n, i) > 0
    ensures Size(n, i) == |n[i].pre| + Size(n, i + 1) + |n[i].post|
  {
    BaseStep(n, i);
    SizeStep(n, i);
    SizePositive(n, i);
  }

  lemma {:induction false} FramedInward(n: Nest, a: Idx, iters: seq<nat>, r: nat)
    requires Framed(n, a, iters, r) && a + 1 < |n| && r == Base(n, a + 1)
    ensures Framed(n, a + 1, iters, r)
  {
    NestedBounds(n, a + 1);
  }

  lemma {:induction false} CfgsInward(n: Nest, a: Idx, iters: seq<nat>, r: nat, d: nat)
    requires Framed(n, a, iters, r) && Framed(n, a + 1, iters, r)
    requires r == Base(n, a + 1) && d > a + 1
    ensures Cfgs(n, a, iters, r, d) == Cfgs(n, a + 1, iters, r, d)
  {
    hide CfgAt, Framed, Base, Size;
    forall j | 0 <= j < |n| ensures CfgAt(n, a, iters, r, d, j) == CfgAt(n, a + 1, iters, r, d, j) {
      CfgInward(n, a, iters, r, d, j);
    }
  }

  lemma {:induction false} CfgInward(n: Nest, a: Idx, iters: seq<nat>, r: nat, d: nat, j: nat)
    requires Framed(n, a, iters, r) && Framed(n, a + 1, iters, r)
    requires r == Base(n, a + 1) && d > a + 1 && j < |n|
    ensures CfgAt(n, a, iters, r, d, j) == CfgAt(n, a + 1, iters, r, d, j)
  {
    if j <= a {
      OffsetInward(n, a, iters, r, j);
    }
  }

  lemma {:induction false} ReenterStep(n: Nest, a: Idx, iters: seq<nat>, r: nat, lc: seq<LoopCfg>)
    requires Framed(n, a, iters, r) && r > 0
    requires forall i | 0 <= i < |lc| :: lc[i].basePtr == 0
    ensures Reenter(Cfgs(n, a, iters, r, |n|) + lc, a, r)
            == if a + 1 < |n| && Base(n, a + 1) == r then Reenter(Cfgs(n, a, iters, r, |n|) + lc, a + 1, r) else a
  {
    var cfgs := Cfgs(n, a, iters, r, |n|) + lc;
    if a + 1 < |n| {
      assert cfgs[a + 1] == CfgAt(n, a, iters, r, |n|, a + 1);
    } else if |cfgs| > a + 1 {
      assert cfgs[a + 1] == lc[0];
    }
  }

  /** The scan re-enters exactly the inner loops that start at the read pointer. */
  lemma {:induction false} ReenterClosed(n: Nest, a: Idx, iters: seq<nat>, r: nat, lc: seq<LoopCfg>)
    requires Framed(n, a, iters, r) && r > 0
    requires forall i | 0 <= i < |lc| :: lc[i].basePtr == 0
    ensures var b := Settle(n, a, r);
            Framed(n, b, iters, r)
            && Reenter(Cfgs(n, a, iters, r, |n|) + lc, a, r) == b
            && Cfgs(n, a, iters, r, |n|) == Cfgs(n, b, iters, r, |n|)
    decreases |n| - a
  {
    hide Reenter, Base, Size, CfgAt, Framed, Offset, Cfgs;
    ReenterStep(n, a, iters, r, lc);
    if a + 1 < |n| && Base(n, a + 1) == r {
      FramedInward(n, a, iters, r);
      CfgsInward(n, a, iters, r, |n|);
      ReenterClosed(n, a + 1, iters, r, lc);
    }
  }

  /** Before every loop is entered, no inner loop can be re-entered. */
  lemma {:induction false} NoReenter(n: Nest, p: Pos, lc: seq<LoopCfg>)
    requires Framed(n, p.a, p.iters, p.r) && p.r > 0 && p.d == p.a + 1 < |n|
    ensures Reenter(Cfgs(n, p.a, p.iters, p.r, p.d) + lc, p.a, p.r) == p.a
  {
    assert (Cfgs(n, p.a, p.iters, p.r, p.d) + lc)[p.a + 1].basePtr == 0;
  }

  lemma {:induction false} EnterCfgAt(n: Nest, a: Idx, iters: seq<nat>, r: nat, j: nat)
    requires Framed(n, a, iters, r) && Framed(n, a + 1, iters, r) && r == Base(n, a + 1) && j < |n|
    ensures var c := CfgAt(n, a, iters, r, a + 1, j);
            CfgAt(n, a + 1, iters, r, a + 2, j) == if j == a + 1 then c.(basePtr := r) else c
  {
    if j <= a {
      OffsetInward(n, a, iters, r, j);
    }
  }

  lemma {:induction false} EnterCfgs(n: Nest, a: Idx, iters: seq<nat>, r: nat, lc: seq<LoopCfg>)
    requires Framed(n, a, iters, r) && Framed(n, a + 1, iters, r) && r == Base(n, a + 1)
    ensures var c := Cfgs(n, a, iters, r, a + 1) + lc;
            c[a + 1 := c[a + 1].(basePtr := r)] == Cfgs(n, a + 1, iters, r, a + 2) + lc
  {
    hide Offset, Base, Size, CfgAt, Cfgs;
    var c, c' := Cfgs(n, a, iters, r, a + 1), Cfgs(n, a + 1, iters, r, a + 2);
    var u := c[a + 1 := c[a + 1].(basePtr := r)];
    forall j | 0 <= j < |n| ensures u[j] == c'[j] {
      EnterCfgAt(n, a, iters, r, j);
    }
    assert u == c';
    UpdateLeft(c, lc, a + 1, c[a + 1].(basePtr := r));
  }

  lemma {:induction false} EnterQueue(n: Nest, d: nat, lq: seq<Insn>)
    requires d < |n|
    ensures var q, r := Queue(n, d) + lq, Base(n, d);
            r < |q| && q[r] == n[d].frep && Remove(q, r) == Queue(n, d + 1) + lq
  {
    hide Queue, Base;
    QueueFrep(n, d);
    RemoveLeft(Queue(n, d), lq, Base(n, d));
  }

  lemma {:induction false} RemoveLeft<T>(q: seq<T>, y: seq<T>, b: nat)
    requires b < |q|
    ensures Remove(q + y, b) == Remove(q, b) + y
  {
  }

  lemma {:induction false} EnterOne(n: Nest, p: Pos, lc: seq<LoopCfg>, lq: seq<Insn>)
    requires PosOk(n, p) && Pending(n, p)
    ensures Framed(n, p.a + 1, p.iters, p.r)
    ensures EnterLoops(AtPos(n, p, lc, lq)) == EnterLoops(AtPos(n, p.(a := p.a + 1, d := p.d + 1), lc, lq))
  {
    hide Queue, Body, Size, Offset, CfgAt;
    FramedInward(n, p.a, p.iters, p.r);
    EnterQueue(n, p.d, lq);
    EnterCfgs(n, p.a, p.iters, p.r, lc);
  }

  lemma {:induction false} SettleStep(n: Nest, a: Idx, r: nat)
    requires a + 1 < |n|
    ensures Base(n, a + 1) == r ==> Settle(n, a, r) == Settle(n, a + 1, r)
    ensures a + 2 < |n| && Base(n, a + 2) != r ==> Settle(n, a + 1, r) == a + 1
    ensures a + 2 == |n| ==> Settle(n, a + 1, r) == a + 1
  {
    hide Base;
  }

  lemma {:induction false} EnteredPlace(n: Nest, p: Pos)
    requires PosOk(n, p) && Pending(n, p)
    ensures PosOk(n, p.(a := p.a + 1, d := p.d + 1))
  {
    FramedInward(n, p.a, p.iters, p.r);
    NestedBounds(n, p.d);
    if p.d + 1 == |n| {
      assert n[|n|..] == [];
    }
    hide Framed, Base;
  }

  lemma {:induction false} EnteredOk(n: Nest, p: Pos)
    requires PosOk(n, p) && Pending(n, p)
    ensures PosOk(n, p.(a := p.a + 1, d := p.d + 1))
    ensures Entered(n, p.(a := p.a + 1, d := p.d + 1)) == Entered(n, p)
  {
    EnteredPlace(n, p);
    SettleStep(n, p.a, p.r);
    hide Framed, Base, Settle, Settled;
  }

  /** Popping the FREPs at the read pointer enters exactly the loops that start there. */
  lemma {:induction false} EnterClosed(n: Nest, p: Pos, lc: seq<LoopCfg>, lq: seq<Insn>)
    requires PosOk(n, p)
    ensures PosOk(n, Entered(n, p)) && !Pending(n, Entered(n, p)) && Entered(n, p).a >= 0
    ensures EnterLoops(AtPos(n, p, lc, lq)) == Some(AtPos(n, Entered(n, p), lc, lq))
    decreases |n| - p.d
  {
    if Pending(n, p) {
      EnterOne(n, p, lc, lq);
      EnteredOk(n, p);
      EnterClosed(n, p.(a := p.a + 1, d := p.d + 1), lc, lq);
    } else {
      EnterNothing(n, p, lc, lq);
    }
  }

  lemma {:induction false} EnterNothing(n: Nest, p: Pos, lc: seq<LoopCfg>, lq: seq<Insn>)
    requires PosOk(n, p) && !Pending(n, p)
    ensures p.a >= 0
    ensures EnterLoops(AtPos(n, p, lc, lq)) == Some(AtPos(n, p, lc, lq))
  {
    NextIsPlain(n, p);
    var q := Queue(n, p.d) + lq;
    assert q[p.r] == Body(n)[p.r];
  }

  /** The instruction at the read pointer of an entered point is the one of the static body. */
  lemma {:induction false} NextIsPlain(n: Nest, p: Pos)
    requires PosOk(n, p) && !Pending(n, p)
    ensures p.r < |Queue(n, p.d)| && p.r < |Body(n)|
    ensures Queue(n, p.d)[p.r] == Body(n)[p.r] && !Body(n)[p.r].isFrep
  {
    BodyPlain(n);
    if p.d < |n| {
      QueuePrefix(n, p.d, p.r);
    } else {
      QueueDone(n);
      BodySlice(n, p.a);
    }
  }

  /** Configurations halfway through `Propagate`: loops from `i` on have already moved on to `r + 1`. */
  ghost function HalfMoved(n: Nest, a: nat, iters: seq<nat>, r: nat, d: nat, i: nat): (c: seq<LoopCfg>)
    requires Framed(n, a, iters, r) && Framed(n, a, iters, r + 1)
    ensures |c| == |n|
    ensures forall j | 0 <= j < |n| :: c[j] == CfgAt(n, a, iters, if j >= i then r + 1 else r, d, j)
  {
    seq(|n|, j requires 0 <= j < |n| => CfgAt(n, a, iters, if j >= i then r + 1 else r, d, j))
  }

  lemma {:induction false} StepAt(n: Nest, a: nat, iters: seq<nat>, r: nat, d: nat, i: nat)
    requires Framed(n, a, iters, r) && Framed(n, a, iters, r + 1) && 0 < i <= a
    requires forall j | i <= j <= a :: iters[j] == n[j].maxIter
    ensures var c := CfgAt(n, a, iters, r, d, i - 1);
            CfgAt(n, a, iters, r + 1, d, i - 1) == c.(instIdx := c.instIdx + 1)
  {
    OffsetExact(n, a, iters, r, i - 1);
    OffsetExact(n, a, iters, r + 1, i - 1);
  }

  lemma {:induction false} HalfMovedStep(n: Nest, a: nat, iters: seq<nat>, r: nat, d: nat, i: nat, lc: seq<LoopCfg>)
    requires Framed(n, a, iters, r) && Framed(n, a, iters, r + 1) && 0 < i <= a
    requires forall j | i <= j <= a :: iters[j] == n[j].maxIter
    ensures var c := HalfMoved(n, a, iters, r, d, i) + lc;
            c[i - 1 := c[i - 1].(instIdx := c[i - 1].instIdx + 1)] == HalfMoved(n, a, iters, r, d, i - 1) + lc
  {
    StepAt(n, a, iters, r, d, i);
    hide Offset, Base, Size, Framed, CfgAt, HalfMoved;
    var c, c' := HalfMoved(n, a, iters, r, d, i), HalfMoved(n, a, iters, r, d, i - 1);
    assert c[i - 1 := c[i - 1].(instIdx := c[i - 1].instIdx + 1)] == c';
    UpdateLeft(c, lc, i - 1, c'[i - 1]);
  }

  lemma {:induction false} UpdateLeft<T>(s: seq<T>, t: seq<T>, b: nat, c: T)
    requires b < |s|
    ensures (s + t)[b := c] == s[b := c] + t
  {
  }

  lemma {:induction false} HalfMovedDone(n: Nest, a: nat, iters: seq<nat>, r: nat, d: nat, i: nat)
    requires Framed(n, a, iters, r) && Framed(n, a, iters, r + 1) && i <= a
    requires i == 0 || iters[i] < n[i].maxIter
    ensures HalfMoved(n, a, iters, r, d, i) == Cfgs(n, a, iters, r + 1, d)
  {
    forall j | 0 <= j < i ensures CfgAt(n, a, iters, r, d, j) == CfgAt(n, a, iters, r + 1, d, j) {
      OffsetFrozen(n, a, iters, r, r + 1, i, j);
    }
  }

  lemma {:induction false} PropagateClosed(n: Nest, a: nat, iters: seq<nat>, r: nat, d: nat, i: nat, lc: seq<LoopCfg>)
    requires Framed(n, a, iters, r) && Framed(n, a, iters, r + 1) && i <= a
    requires forall j | i < j <= a :: iters[j] == n[j].maxIter
    ensures Propagate(HalfMoved(n, a, iters, r, d, i) + lc, i) == Some(Cfgs(n, a, iters, r + 1, d) + lc)
    decreases i
  {
    if i > 0 && iters[i] == n[i].maxIter {
      HalfMovedStep(n, a, iters, r, d, i, lc);
      PropagateClosed(n, a, iters, r, d, i - 1, lc);
    } else {
      HalfMovedDone(n, a, iters, r, d, i);
    }
  }

  /** `Advance` moves the closed form by one instruction. */
  lemma {:induction false} AdvanceClosed(n: Nest, p: Pos, lc: seq<LoopCfg>, lq: seq<Insn>)
    requires p.a >= 0 && Framed(n, p.a, p.iters, p.r) && Framed(n, p.a, p.iters, p.r + 1)
    ensures Advance(AtPos(n, p, lc, lq)) == Some(AtPos(n, p.(r := p.r + 1), lc, lq))
  {
    hide Body, Queue, Offset, Base, Size, Propagate, CfgAt, ValidNest, HalfMoved, Cfgs, Advance;
    var s := AtPos(n, p, lc, lq);
    BumpFirst(n, p.a, p.iters, p.r, p.d, lc);
    PropagateClosed(n, p.a, p.iters, p.r, p.d, p.a, lc);
    AdvanceIs(s, Cfgs(n, p.a, p.iters, p.r + 1, p.d) + lc);
  }

  lemma {:induction false} AdvanceIs(s: State, c: seq<LoopCfg>)
    requires 0 <= s.loopIdx < |s.cfgs|
    requires Propagate(s.cfgs[s.loopIdx := s.cfgs[s.loopIdx].(instIdx := s.cfgs[s.loopIdx].instIdx + 1)], s.loopIdx)
             == Some(c)
    ensures Advance(s) == Some(State(s.loopIdx, c, s.nestDepth, s.insns, s.rdPtr + 1))
  {
  }

  lemma {:induction false} BumpFirst(n: Nest, a: nat, iters: seq<nat>, r: nat, d: nat, lc: seq<LoopCfg>)
    requires Framed(n, a, iters, r) && Framed(n, a, iters, r + 1)
    ensures var c := Cfgs(n, a, iters, r, d) + lc;
            c[a := c[a].(instIdx := c[a].instIdx + 1)] == HalfMoved(n, a, iters, r, d, a) + lc
  {
    AdvanceCfgs(n, a, iters, r, d);
    var c := Cfgs(n, a, iters, r, d);
    UpdateLeft(c, lc, a, c[a].(instIdx := c[a].instIdx + 1));
  }

  lemma {:induction false} AdvanceCfgs(n: Nest, a: nat, iters: seq<nat>, r: nat, d: nat)
    requires Framed(n, a, iters, r) && Framed(n, a, iters, r + 1)
    ensures var c := Cfgs(n, a, iters, r, d);
            c[a := c[a].(instIdx := c[a].instIdx + 1)] == HalfMoved(n, a, iters, r, d, a)
  {
  }

  lemma {:induction false} FramedOutward(n: Nest, a: nat, iters: seq<nat>, r: nat)
    requires Framed(n, a, iters, r)
    ensures Framed(n, a - 1, iters[a := 0], r)
  {
    if a > 0 {
      NestedBounds(n, a - 1);
    }
  }

  /** Resetting a finished loop and moving outwards keeps the closed form. */
  lemma {:induction false} OutwardCfgs(n: Nest, a: nat, iters: seq<nat>, r: nat, d: nat, lc: seq<LoopCfg>)
    requires Framed(n, a, iters, r) && Framed(n, a - 1, iters[a := 0], r) && iters[a] == n[a].maxIter
    ensures var c := Cfgs(n, a, iters, r, d) + lc;
            c[a := ResetCfg(c[a])] == Cfgs(n, a - 1, iters[a := 0], r, d) + lc
  {
    var c := Cfgs(n, a, iters, r, d) + lc;
    var c' := Cfgs(n, a - 1, iters[a := 0], r, d);
    forall j | 0 <= j < |n| ensures c[a := ResetCfg(c[a])][j] == c'[j] {
      if j < a {
        OffsetOutward(n, a, iters, r, j);
      }
    }
  }

  lemma {:induction false} UnwindClosed(n: Nest, a: Idx, iters: seq<nat>, r: nat, d: nat, lc: seq<LoopCfg>)
    requires Framed(n, a, iters, r)
    ensures var b := Outer(n, iters, a, r);
            Framed(n, b, ZeroAbove(iters, b), r)
            && Unwind(Cfgs(n, a, iters, r, d) + lc, a) == Some((Cfgs(n, b, ZeroAbove(iters, b), r, d) + lc, b))
    decreases a + 1
  {
    hide Offset, Base, ValidNest, Unwind, Size, CfgAt;
    assert ZeroAbove(iters, a) == iters;
    if a == -1 {
      UnwindNothing(Cfgs(n, a, iters, r, d) + lc);
    } else {
      UnwindOne(n, a, iters, r, d, lc);
      if Outer(n, iters, a, r) != a {
        OuterIgnores(n, iters, a, a - 1, r);
        UnwindClosed(n, a - 1, iters[a := 0], r, d, lc);
        var b := Outer(n, iters, a, r);
        assert ZeroAbove(iters[a := 0], b) == ZeroAbove(iters, b);
      }
    }
  }

  lemma {:induction false} UnwindNothing(c: seq<LoopCfg>)
    ensures Unwind(c, -1) == Some((c, -1))
  {
  }

  lemma {:induction false} UnwindOne(n: Nest, a: nat, iters: seq<nat>, r: nat, d: nat, lc: seq<LoopCfg>)
    requires Framed(n, a, iters, r)
    ensures Framed(n, a - 1, iters[a := 0], r)
    ensures Unwind(Cfgs(n, a, iters, r, d) + lc, a)
            == if iters[a] == n[a].maxIter && r + 1 == Base(n, a) + Size(n, a)
               then Unwind(Cfgs(n, a - 1, iters[a := 0], r, d) + lc, a - 1)
               else Some((Cfgs(n, a, iters, r, d) + lc, a))
  {
    FramedOutward(n, a, iters, r);
    SizePositive(n, a);
    var c := Cfgs(n, a, iters, r, d) + lc;
    assert c[a] == CfgAt(n, a, iters, r, d, a);
    hide ValidNest, Body;
    if iters[a] == n[a].maxIter && r + 1 == Base(n, a) + Size(n, a) {
      OutwardCfgs(n, a, iters, r, d, lc);
    }
  }

  lemma {:induction false} OuterIgnores(n: Nest, iters: seq<nat>, a: nat, x: Idx, r: nat)
    requires x < a < |n| == |iters|
    ensures Outer(n, iters[a := 0], x, r) == Outer(n, iters, x, r)
    decreases x + 1
  {
    if x >= 0 {
      OuterIgnores(n, iters, a, x - 1, r);
    }
  }
}
