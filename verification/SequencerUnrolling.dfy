/**
 What remains to be issued from a point of the replay, and the proof that every
 call of the emulator consumes exactly its head.
 */
module SequencerUnrolling {
  import opened Wrappers
  import opened SequencerModel
  import opened SequencerNest
  import opened SequencerGeometry
  import opened SequencerReplay
  import opened SequencerTrace

  /** What the loops around `a` still have to issue once loop `a` is done. */
  ghost function After(n: Nest, iters: seq<nat>, a: nat): seq<Issue>
    requires a < |n| == |iters| && forall i | 0 <= i < |n| :: iters[i] <= n[i].maxIter
    decreases a
  {
    if a == 0 then []
    else Post(n, a - 1, iters[a - 1]) + Laps(n[a - 1..], iters[a - 1] + 1) + After(n, iters, a - 1)
  }

  /** `cur` is what is left of the current iteration of loop `a`. */
  ghost function RestAt(n: Nest, iters: seq<nat>, a: nat, cur: seq<Issue>): seq<Issue>
    requires a < |n| == |iters| && forall i | 0 <= i < |n| :: iters[i] <= n[i].maxIter
  {
    cur + (Laps(n[a..], iters[a] + 1) + After(n, iters, a))
  }

  /** What is left when loop `a + 1` is about to be entered. */
  ghost function RestPending(n: Nest, iters: seq<nat>, a: Idx): seq<Issue>
    requires a < |n| == |iters| && forall i | 0 <= i < |n| :: iters[i] <= n[i].maxIter
  {
    if a == -1 then Traced(n) else RestAt(n, iters, a, Traced(n[a + 1..]) + Post(n, a, iters[a]))
  }

  /** What is left of the current iteration of the active loop. */
  ghost function Current(n: Nest, a: nat, i: nat, r: nat): seq<Issue>
    requires a < |n| && Base(n, a) <= r < Base(n, a) + Size(n, a)
  {
    var o := r - Base(n, a);
    if o < |n[a].pre| then Pre(n, a, i)[o..] + (Traced(n[a + 1..]) + Post(n, a, i)) else Whole(n, a, i)[o..]
  }

  /** The instructions still to be issued from a point of the replay. */
  ghost function Rest(n: Nest, p: Pos): seq<Issue>
    requires PosOk(n, p)
  {
    if Pending(n, p) then RestPending(n, p.iters, p.a)
    else
      EntersSomething(n, p);
      RestAt(n, p.iters, p.a, Current(n, p.a, p.iters[p.a], p.r))
  }

  lemma {:induction false} EntersSomething(n: Nest, p: Pos)
    requires PosOk(n, p) && !Pending(n, p)
    ensures p.a >= 0
  {
  }

  lemma {:induction false} Regroup<T>(p: seq<T>, q: seq<T>, s: seq<T>, t: seq<T>, x: seq<T>, y: seq<T>, z: seq<T>)
    ensures ((p + q + s + t) + x) + (y + z) == (p + (q + s)) + (t + (x + y + z))
    ensures p + q + s + t == (p + (q + s)) + (t + [])
  {
  }

  lemma {:induction false} AfterStep(n: Nest, iters: seq<nat>, a: nat)
    requires a + 1 < |n| == |iters| && forall i | 0 <= i < |n| :: iters[i] <= n[i].maxIter
    ensures After(n, iters, a + 1)
            == Post(n, a, iters[a]) + Laps(n[a..], iters[a] + 1) + After(n, iters, a)
  {
  }

  lemma {:induction false} PendingFirst(n: Nest, iters: seq<nat>)
    requires 0 < |n| == |iters| && forall i | 0 <= i < |n| :: iters[i] <= n[i].maxIter
    requires iters[0] == 0
    ensures Traced(n) == RestAt(n, iters, 0, Pre(n, 0, 0) + (Traced(n[1..]) + Post(n, 0, 0)))
  {
    assert n[0..] == n;
    TracedTail(n, 0);
    Regroup(Pre(n, 0, 0), Traced(n[1..]), Post(n, 0, 0), Laps(n, 1), [], [], []);
  }

  lemma {:induction false} PendingInner(n: Nest, iters: seq<nat>, a: nat)
    requires a + 1 < |n| == |iters| && forall i | 0 <= i < |n| :: iters[i] <= n[i].maxIter
    requires iters[a + 1] == 0
    ensures RestAt(n, iters, a, Traced(n[a + 1..]) + Post(n, a, iters[a]))
            == RestAt(n, iters, a + 1, Pre(n, a + 1, 0) + (Traced(n[a + 2..]) + Post(n, a + 1, 0)))
  {
    var b := a + 1;
    TracedTail(n, b);
    AfterStep(n, iters, a);
    Regroup(Pre(n, b, 0), Traced(n[b + 1..]), Post(n, b, 0), Laps(n[b..], 1),
            Post(n, a, iters[a]), Laps(n[a..], iters[a] + 1), After(n, iters, a));
  }

  lemma {:induction false} PendingStep(n: Nest, iters: seq<nat>, a: Idx)
    requires |n| == |iters| && a + 1 < |n|
    requires forall i | 0 <= i < |n| :: iters[i] <= n[i].maxIter
    requires iters[a + 1] == 0
    ensures RestPending(n, iters, a)
            == RestAt(n, iters, a + 1, Pre(n, a + 1, 0) + (Traced(n[a + 2..]) + Post(n, a + 1, 0)))
  {
    if a == -1 {
      PendingFirst(n, iters);
    } else {
      PendingInner(n, iters, a);
    }
  }

  /** The first instruction of a loop starts its first iteration. */
  lemma {:induction false} CurrentAtBase(n: Nest, b: nat, i: nat)
    requires ValidNest(n) && b < |n| && (b + 1 == |n| || n[b].pre != [])
    ensures Size(n, b) > 0
    ensures Current(n, b, i, Base(n, b)) == Pre(n, b, i) + (Traced(n[b + 1..]) + Post(n, b, i))
  {
    NestedBounds(n, b);
    SizeStep(n, b);
    if n[b].pre == [] {
      assert n[b + 1..] == [];
      assert Body(n[b + 1..]) == [] && Traced(n[b + 1..]) == [];
      assert Body(n[b..]) == n[b].post;
      assert Whole(n, b, i)[0..] == Whole(n, b, i);
    } else {
      assert Pre(n, b, i)[0..] == Pre(n, b, i);
    }
  }

  /** Entering one more loop issues nothing. */
  lemma {:induction false} PendingIs(n: Nest, iters: seq<nat>, a: nat)
    requires a < |n| == |iters| && forall i | 0 <= i < |n| :: iters[i] <= n[i].maxIter
    ensures RestPending(n, iters, a) == RestAt(n, iters, a, Traced(n[a + 1..]) + Post(n, a, iters[a]))
  {
    hide Replay, RestAt;
  }

  lemma {:induction false} PendingEnters(n: Nest, iters: seq<nat>, a: Idx, r: nat)
    requires Framed(n, a, iters, r) && a + 1 < |n| && r == Base(n, a + 1)
    ensures Framed(n, a + 1, iters, r)
    ensures a + 2 < |n| && Base(n, a + 2) == r ==> RestPending(n, iters, a) == RestPending(n, iters, a + 1)
    ensures !(a + 2 < |n| && Base(n, a + 2) == r)
            ==> RestPending(n, iters, a) == RestAt(n, iters, a + 1, Current(n, a + 1, 0, r))
  {
    FramedInward(n, a, iters, r);
    hide Traced, Laps, Lap, Body, After, RestAt, RestPending, Current, Base, Size;
    PendingStep(n, iters, a);
    NestedBounds(n, a + 1);
    var b := a + 1;
    PendingIs(n, iters, b);
    if b + 1 < |n| && Base(n, b + 1) == r {
      assert Pre(n, b, 0) + (Traced(n[b + 1..]) + Post(n, b, 0)) == Traced(n[b + 1..]) + Post(n, b, 0);
    } else {
      CurrentAtBase(n, b, 0);
    }
  }

  lemma {:induction false} SettleUnfold(n: Nest, a: Idx, r: nat)
    requires a + 1 < |n| && r == Base(n, a + 1)
    ensures Settle(n, a, r) == if a + 2 < |n| && Base(n, a + 2) == r then Settle(n, a + 1, r) else a + 1
  {
  }

  /** Entering every loop that starts at `r` issues nothing. */
  lemma {:induction false} SettleRest(n: Nest, iters: seq<nat>, a: Idx, r: nat)
    requires Framed(n, a, iters, r) && a + 1 < |n| && r == Base(n, a + 1)
    ensures var b := Settle(n, a, r);
            Framed(n, b, iters, r) && b >= 0 && Base(n, b) == r
            && (b + 1 < |n| ==> r < Base(n, b + 1))
            && RestPending(n, iters, a) == RestAt(n, iters, b, Current(n, b, iters[b], r))
    decreases |n| - a
  {
    hide Traced, Laps, Lap, Body, After, Current, RestAt, RestPending, Settle, ValidNest, Size;
    PendingEnters(n, iters, a, r);
    SettleUnfold(n, a, r);
    NestedBounds(n, a + 1);
    if a + 2 < |n| && Base(n, a + 2) == r {
      SettleRest(n, iters, a + 1, r);
    }
  }

  /** Popping FREPs issues nothing. */
  lemma {:induction false} EnteredRest(n: Nest, p: Pos)
    requires PosOk(n, p)
    requires PosOk(n, Entered(n, p)) && !Pending(n, Entered(n, p))
    ensures Rest(n, Entered(n, p)) == Rest(n, p)
  {
    if Pending(n, p) {
      SettleRest(n, p.iters, p.a, p.r);
    }
  }

  /** What one call shows at a point: the instruction, the active loop, its iteration and its offset in the loop. */
  ghost function IssueAt(n: Nest, p: Pos): Issue
    requires p.r < |Body(n)| && 0 <= p.a < |n| == |p.iters| && Base(n, p.a) <= p.r
  {
    ShownAt(n, p.a, p.iters[p.a], p.r)
  }

  ghost function ShownAt(n: Nest, a: nat, i: nat, r: nat): Issue
    requires r < |Body(n)| && a < |n| && Base(n, a) <= r
  {
    Issue(Body(n)[r].pc, Body(n)[r].sec, Some(Status(n[a].frep.pc, i, r - Base(n, a))))
  }

  /** The instruction issued is the head of what is left of the iteration. */
  lemma {:induction false} CurrentHead(n: Nest, a: nat, i: nat, r: nat)
    requires ValidNest(n) && a < |n| && Base(n, a) <= r < Base(n, a) + Size(n, a)
    ensures r < |Body(n)| && Current(n, a, i, r) != [] && Current(n, a, i, r)[0] == ShownAt(n, a, i, r)
  {
    BodySlice(n, a);
    SizeStep(n, a);
    var o := r - Base(n, a);
    assert Body(n)[r] == Body(n)[Base(n, a)..Base(n, a) + Size(n, a)][o];
    if o < |n[a].pre| {
      assert Body(n[a..])[o] == n[a].pre[o];
    }
  }

  lemma {:induction false} DropOne<T>(s: seq<T>, o: nat)
    requires o < |s|
    ensures s[o..] != [] && s[o..][1..] == s[o + 1..] && (o + 1 == |s| ==> |s[o..]| == 1)
  {
  }

  lemma {:induction false} TailInFront(n: Nest, a: nat, i: nat, r: nat)
    requires ValidNest(n) && a < |n| && Base(n, a) <= r < Base(n, a) + Size(n, a)
    requires r + 1 < Base(n, a) + |n[a].pre| <= Base(n, a) + Size(n, a)
    ensures Current(n, a, i, r)[1..] == Current(n, a, i, r + 1)
  {
    hide Pre, Post, Whole, Traced, Base, Size, ValidNest;
    var o := r - Base(n, a);
    DropOne(Pre(n, a, i), o);
    TailOfConcat(Pre(n, a, i)[o..], Traced(n[a + 1..]) + Post(n, a, i));
  }

  lemma {:induction false} CurrentTail(n: Nest, a: nat, i: nat, r: nat)
    requires ValidNest(n) && a < |n| && Base(n, a) <= r < Base(n, a) + Size(n, a)
    requires Current(n, a, i, r) != []
    requires r + 1 != Base(n, a + 1)
    ensures r + 1 < Base(n, a) + Size(n, a) ==> Current(n, a, i, r)[1..] == Current(n, a, i, r + 1)
    ensures r + 1 == Base(n, a) + Size(n, a) ==> |Current(n, a, i, r)| == 1
  {
    BaseStep(n, a);
    NestedBounds(n, a);
    var o := r - Base(n, a);
    if o < |n[a].pre| {
      hide Current, Base, Size, ValidNest;
      TailInFront(n, a, i, r);
    } else {
      hide Pre, Post, Whole, Traced, Base, ValidNest;
      DropOne(Whole(n, a, i), o);
    }
  }

  lemma {:induction false} TailOfConcat<T>(s: seq<T>, t: seq<T>)
    requires s != []
    ensures (s + t)[1..] == s[1..] + t
  {
  }

  /** The last instruction before an inner loop is followed by that loop. */
  lemma {:induction false} CurrentBeforeInner(n: Nest, a: nat, i: nat, r: nat)
    requires ValidNest(n) && a < |n| && Base(n, a) <= r < Base(n, a) + Size(n, a)
    requires Current(n, a, i, r) != []
    requires r + 1 == Base(n, a + 1)
    ensures Current(n, a, i, r)[1..] == Traced(n[a + 1..]) + Post(n, a, i)
  {
    BaseStep(n, a);
    var o := r - Base(n, a);
    TailOfConcat(Pre(n, a, i)[o..], Traced(n[a + 1..]) + Post(n, a, i));
    assert Pre(n, a, i)[o..][1..] == [];
  }

  /** The state once the nest is finished: only what was queued behind it is left. */
  ghost function Finished(lc: seq<LoopCfg>, lq: seq<Insn>): State {
    State(-1, lc, 0, lq, 0)
  }

  ghost function AfterIssue(n: Nest, p: Pos, lc: seq<LoopCfg>, lq: seq<Insn>): State
    requires Framed(n, p.a, p.iters, p.r) && p.a >= 0
    requires Next(n, p).Some? ==> Framed(n, Next(n, p).value.a, Next(n, p).value.iters, Next(n, p).value.r)
  {
    match Next(n, p)
    case None => Finished(lc, lq)
    case Some(q) => AtPos(n, q, lc, lq)
  }

  /** Every point but the one before an inner FREP lies before the inner loop or behind it. */
  lemma {:induction false} EndMeansAllEntered(n: Nest, p: Pos)
    requires PosOk(n, p) && !Pending(n, p) && p.r + 1 == Base(n, p.a) + Size(n, p.a)
    ensures p.d == |n|
  {
    if p.d < |n| {
      NestedBounds(n, p.a);
      SizePositive(n, p.d);
    }
  }

  // ----- what is left shrinks by the instruction issued

  lemma {:induction false} RestAtCons(n: Nest, iters: seq<nat>, a: nat, cur: seq<Issue>)
    requires a < |n| == |iters| && forall i | 0 <= i < |n| :: iters[i] <= n[i].maxIter
    requires cur != []
    ensures RestAt(n, iters, a, cur) == [cur[0]] + RestAt(n, iters, a, cur[1..])
  {
    assert cur == [cur[0]] + cur[1..];
  }

  /** Within a loop's own instructions, behind its inner loop, or in a body replayed flat. */
  lemma {:induction false} WithinPlainPos(n: Nest, p: Pos)
    requires PosOk(n, p) && !Pending(n, p) && p.r + 1 < Base(n, p.a) + Size(n, p.a)
    requires p.a + 1 == |n| || p.r + 1 != Base(n, p.a + 1)
    ensures Next(n, p) == Some(p.(r := p.r + 1))
    ensures PosOk(n, p.(r := p.r + 1)) && !Pending(n, p.(r := p.r + 1))
  {
    hide Body, Outer, ValidNest, Size;
    NestedBounds(n, p.a);
    NoBodyBehind(n);
  }

  lemma {:induction false} NoBodyBehind(n: Nest)
    ensures Size(n, |n|) == 0
  {
    assert n[|n|..] == [];
  }

  lemma {:induction false} WithinPlainTail(n: Nest, a: nat, i: nat, r: nat)
    requires ValidNest(n) && a < |n| && Base(n, a) <= r && r + 1 < Base(n, a) + Size(n, a)
    requires a + 1 == |n| || r + 1 != Base(n, a + 1)
    ensures Current(n, a, i, r) != []
    ensures Current(n, a, i, r)[1..] == Current(n, a, i, r + 1)
  {
    hide Traced, Laps, Lap, Current;
    CurrentHead(n, a, i, r);
    if r + 1 != Base(n, a + 1) {
      CurrentTail(n, a, i, r);
    } else {
      InnermostTail(n, a, i, r);
    }
  }

  lemma {:induction false} InnermostTail(n: Nest, a: nat, i: nat, r: nat)
    requires ValidNest(n) && a + 1 == |n| && Base(n, a) <= r && r + 1 < Base(n, a) + Size(n, a)
    requires Current(n, a, i, r) != [] && r + 1 == Base(n, a + 1)
    ensures Current(n, a, i, r)[1..] == Current(n, a, i, r + 1)
  {
    CurrentBeforeInner(n, a, i, r);
    EmptyTrace(n, a);
    BaseStep(n, a);
    PostIsLast(n, a, i);
    assert Body(n[a + 1..]) == [];
    hide Traced, Laps, Lap, Base, Size, ValidNest, Whole, Post, Body;
    assert [] + Post(n, a, i) == Post(n, a, i);
  }

  /** Just before the inner loop, once all loops are entered: the scan re-enters it. */
  lemma {:induction false} WithinReenters(n: Nest, p: Pos)
    requires PosOk(n, p) && p.d == |n| && p.a + 1 < |n|
    requires p.r + 1 < Base(n, p.a) + Size(n, p.a) && p.r + 1 == Base(n, p.a + 1)
    ensures Next(n, p).Some? && PosOk(n, Next(n, p).value) && !Pending(n, Next(n, p).value)
    ensures Rest(n, Next(n, p).value) == RestPending(n, p.iters, p.a)
  {
    hide Traced, Laps, Lap, Current, Body, After, RestAt, RestPending, Size, ValidNest;
    SettleRest(n, p.iters, p.a, p.r + 1);
    NoBodyBehind(n);
  }

  /** Just before the inner loop, the first time: its FREP is next in the queue. */
  lemma {:induction false} WithinEnters(n: Nest, p: Pos)
    requires PosOk(n, p) && p.d == p.a + 1 < |n| && p.a >= 0
    requires p.r + 1 < Base(n, p.a) + Size(n, p.a) && p.r + 1 == Base(n, p.a + 1)
    ensures Next(n, p).Some? && PosOk(n, Next(n, p).value)
    ensures Rest(n, Next(n, p).value) == RestPending(n, p.iters, p.a)
  {
    hide Traced, Laps, Lap, Current, Body, After, RestAt, RestPending, Size, ValidNest;
  }

  lemma {:induction false} NextWithin(n: Nest, p: Pos)
    requires PosOk(n, p) && !Pending(n, p) && p.r + 1 < Base(n, p.a) + Size(n, p.a)
    ensures p.r < |Body(n)| && Next(n, p).Some? && PosOk(n, Next(n, p).value)
    ensures Rest(n, p) == [IssueAt(n, p)] + Rest(n, Next(n, p).value)
  {
    hide Traced, Laps, Lap, Body, After, Current, RestAt;
    var i := p.iters[p.a];
    CurrentHead(n, p.a, i, p.r);
    RestAtCons(n, p.iters, p.a, Current(n, p.a, i, p.r));
    if p.a + 1 < |n| && p.r + 1 == Base(n, p.a + 1) {
      CurrentBeforeInner(n, p.a, i, p.r);
      if p.d == |n| {
        WithinReenters(n, p);
      } else {
        WithinEnters(n, p);
      }
    } else {
      WithinPlainPos(n, p);
      WithinPlainTail(n, p.a, i, p.r);
    }
  }

  /** Leaving finished loops issues nothing: what is left is what the first unfinished loop has left. */
  lemma {:induction false} AfterOuter(n: Nest, iters: seq<nat>, a: nat, r: nat)
    requires ValidNest(n) && a < |n| == |iters| && forall i | 0 <= i < |n| :: iters[i] <= n[i].maxIter
    requires Base(n, a) <= r && r + 1 == Base(n, a) + Size(n, a) && iters[a] == n[a].maxIter
    ensures var b := Outer(n, iters, a, r);
            && b < a
            && (b == -1 ==> After(n, iters, a) == [])
            && (b >= 0 ==>
                  && Base(n, b) <= r < Base(n, b) + Size(n, b)
                  && r + 1 == Base(n, b + 1) + Size(n, b + 1)
                  && After(n, iters, a) == After(n, iters, b + 1))
    decreases a
  {
    hide Traced, Laps, Lap, Body, Base, ValidNest, Size;
    if a > 0 {
      var x := a - 1;
      NestedBounds(n, x);
      if iters[x] == n[x].maxIter && r + 1 == Base(n, x) + Size(n, x) {
        assert n[x].post == [] && Post(n, x, iters[x]) == [];
        LapTail(n, x, iters[x] + 1);
        assert After(n, iters, a) == After(n, iters, x);
        AfterOuter(n, iters, x, r);
      }
    }
  }

  lemma {:induction false} Assoc<T>(x: seq<T>, y: seq<T>, z: seq<T>)
    ensures x + y + z == x + (y + z)
  {
  }

  /** The loop reached behind a finished one has instructions left in its iteration. */
  lemma {:induction false} BehindPlace(n: Nest, iters: seq<nat>, a: nat, b: nat, r: nat)
    requires Framed(n, a, iters, r) && r + 1 == Base(n, a) + Size(n, a)
    requires b == Outer(n, iters, a, r) && b < a && r + 1 < Base(n, b) + Size(n, b)
    ensures Framed(n, b, ZeroAbove(iters, b), r + 1) && Settled(n, b, r + 1)
    ensures r + 1 == Base(n, b + 1) + Size(n, b + 1) && Base(n, b) <= r + 1
  {
    hide Traced, Laps, Lap, Body, Current, After, RestAt;
    AfterOuter(n, iters, a, r);
    NestedBounds(n, b);
  }

  lemma {:induction false} NextBehind(n: Nest, iters: seq<nat>, a: nat, b: nat, r: nat)
    requires Framed(n, a, iters, r) && r + 1 == Base(n, a) + Size(n, a)
    requires b == Outer(n, iters, a, r) && b < a && iters[a] == n[a].maxIter
    requires r + 1 < Base(n, b) + Size(n, b)
    ensures Framed(n, b, ZeroAbove(iters, b), r + 1) && Settled(n, b, r + 1)
    ensures After(n, iters, a) == RestAt(n, ZeroAbove(iters, b), b, Current(n, b, iters[b], r + 1))
  {
    BehindPlace(n, iters, a, b, r);
    hide Traced, Laps, Lap, Body, Current, Base, Size, Settled, After, RestAt;
    AfterOuter(n, iters, a, r);
    CurrentBehind(n, b, iters[b], r + 1);
    AfterRests(n, iters, b);
  }

  /** Behind loop `b + 1` comes the rest of loop `b`, its body's end first. */
  lemma {:induction false} AfterRests(n: Nest, iters: seq<nat>, b: nat)
    requires b + 1 < |n| == |iters| && forall i | 0 <= i < |n| :: iters[i] <= n[i].maxIter
    ensures forall i | 0 <= i < |n| :: ZeroAbove(iters, b)[i] <= n[i].maxIter
    ensures After(n, iters, b + 1) == RestAt(n, ZeroAbove(iters, b), b, Post(n, b, iters[b]))
  {
    hide Lap;
    AfterStep(n, iters, b);
    AfterIgnores(n, iters, ZeroAbove(iters, b), b);
    Assoc(Post(n, b, iters[b]), Laps(n[b..], iters[b] + 1), After(n, iters, b));
    hide After;
  }

  lemma {:induction false} CurrentBehind(n: Nest, b: nat, i: nat, r: nat)
    requires ValidNest(n) && b < |n|
    requires r == Base(n, b + 1) + Size(n, b + 1) && r < Base(n, b) + Size(n, b)
    ensures Base(n, b) <= r && Current(n, b, i, r) == Post(n, b, i)
  {
    NestedBounds(n, b);
    SizeStep(n, b);
    PostIsLast(n, b, i);
    hide Size, Base, ValidNest, Traced, Whole, Post, Pre;
  }

  /** The end of the static body are the loop's last instructions. */
  lemma {:induction false} PostIsLast(n: Nest, b: nat, i: nat)
    requires b < |n|
    ensures Body(n[b..]) == n[b].pre + Body(n[b + 1..]) + n[b].post
    ensures Whole(n, b, i)[|n[b].pre| + |Body(n[b + 1..])|..] == Post(n, b, i)
  {
    assert n[b..][0] == n[b] && n[b..][1..] == n[b + 1..];
    var o := |n[b].pre| + |Body(n[b + 1..])|;
    forall k | 0 <= k < |n[b].post| ensures Whole(n, b, i)[o..][k] == Post(n, b, i)[k] {
      assert Body(n[b..])[o + k] == n[b].post[k];
    }
  }

  lemma {:induction false} AfterIgnores(n: Nest, iters: seq<nat>, iters': seq<nat>, a: nat)
    requires a < |n| == |iters| == |iters'|
    requires forall i | 0 <= i < |n| :: iters[i] <= n[i].maxIter && iters'[i] <= n[i].maxIter
    requires forall i | 0 <= i < a :: iters[i] == iters'[i]
    ensures After(n, iters, a) == After(n, iters', a)
    decreases a
  {
    if a > 0 {
      AfterIgnores(n, iters, iters', a - 1);
    }
  }

  lemma {:induction false} LapIsCurrent(n: Nest, b: nat, i: nat)
    requires ValidNest(n) && b < |n|
    ensures Size(n, b) > 0 && Lap(n[b..], i) == Current(n, b, i, Base(n, b))
  {
    NestedBounds(n, b);
    LapTail(n, b, i);
    if n[b].pre == [] {
      assert Whole(n, b, i)[0..] == Whole(n, b, i);
    } else {
      assert Pre(n, b, i)[0..] == Pre(n, b, i);
      Assoc(Pre(n, b, i), Traced(n[b + 1..]), Post(n, b, i));
    }
  }

  /** A loop that is not in its last iteration starts the next one. */
  lemma {:induction false} NextIterationRest(n: Nest, iters: seq<nat>, next: seq<nat>, b: nat)
    requires ValidNest(n) && b < |n| == |iters| == |next|
    requires forall i | 0 <= i < |n| :: iters[i] <= n[i].maxIter && next[i] <= n[i].maxIter
    requires next[b] == iters[b] + 1 && forall i | 0 <= i < b :: next[i] == iters[i]
    ensures Size(n, b) > 0
    ensures Laps(n[b..], iters[b] + 1) + After(n, iters, b)
            == RestAt(n, next, b, Current(n, b, next[b], Base(n, b)))
  {
    hide Traced, Laps, Lap, Current, Body, After;
    LapIsCurrent(n, b, next[b]);
    LapTail(n, b, next[b]);
    AfterIgnores(n, iters, next, b);
    Assoc(Lap(n[b..], next[b]), Laps(n[b..], next[b] + 1), After(n, iters, b));
  }

  /** The point at the start of the next iteration of loop `b`. */
  lemma {:induction false} NextIterationPos(n: Nest, iters: seq<nat>, next: seq<nat>, b: nat)
    requires ValidNest(n) && b < |n| == |iters| == |next|
    requires forall i | 0 <= i < |n| :: iters[i] <= n[i].maxIter && next[i] <= n[i].maxIter
    requires next[b] == iters[b] + 1 && forall i | 0 <= i < b :: next[i] == iters[i]
    requires forall i | b < i < |n| :: next[i] == 0
    ensures PosOk(n, Pos(b, next, Base(n, b), |n|))
    ensures Rest(n, Pos(b, next, Base(n, b), |n|))
            == Laps(n[b..], iters[b] + 1) + After(n, iters, b)
  {
    hide Traced, Laps, Lap, Current, Body, After, RestAt;
    NextIterationRest(n, iters, next, b);
    NestedBounds(n, b);
  }

  lemma {:induction false} EndIsSingle(n: Nest, a: nat, i: nat, r: nat)
    requires ValidNest(n) && a < |n| && Base(n, a) <= r && r + 1 == Base(n, a) + Size(n, a)
    ensures r < |Body(n)| && Current(n, a, i, r) == [ShownAt(n, a, i, r)]
  {
    hide Traced, Laps, Lap, Current;
    CurrentHead(n, a, i, r);
    NestedBounds(n, a);
    if r + 1 != Base(n, a + 1) {
      CurrentTail(n, a, i, r);
    } else {
      if a + 1 < |n| {
        NestedBounds(n, a + 1);
      }
      CurrentBeforeInner(n, a, i, r);
      EmptyTrace(n, a);
    }
  }

  lemma {:induction false} EmptyTrace(n: Nest, a: nat)
    requires a + 1 == |n|
    ensures Traced(n[a + 1..]) == []
  {
  }

  lemma {:induction false} SingleRest(n: Nest, p: Pos)
    requires PosOk(n, p) && !Pending(n, p) && p.r + 1 == Base(n, p.a) + Size(n, p.a)
    ensures p.r < |Body(n)|
    ensures Rest(n, p) == [IssueAt(n, p)]
                          + (Laps(n[p.a..], p.iters[p.a] + 1) + After(n, p.iters, p.a))
  {
    hide Traced, Laps, Lap, Current, Body, After;
    EndIsSingle(n, p.a, p.iters[p.a], p.r);
  }

  lemma {:induction false} NoMoreIterations(n: Nest, iters: seq<nat>, a: nat)
    requires a < |n| == |iters| && forall i | 0 <= i < |n| :: iters[i] <= n[i].maxIter
    requires iters[a] == n[a].maxIter
    ensures Laps(n[a..], iters[a] + 1) + After(n, iters, a) == After(n, iters, a)
  {
  }

  /** A loop behind a finished one that ends with it. */
  lemma {:induction false} AfterTogether(n: Nest, iters: seq<nat>, b: nat, r: nat)
    requires ValidNest(n) && b + 1 < |n| == |iters| && forall i | 0 <= i < |n| :: iters[i] <= n[i].maxIter
    requires r == Base(n, b + 1) + Size(n, b + 1) == Base(n, b) + Size(n, b)
    ensures After(n, iters, b + 1)
            == Laps(n[b..], iters[b] + 1) + After(n, ZeroAbove(iters, b), b)
  {
    hide Traced, Laps, Lap, Body;
    NestedBounds(n, b);
    AfterStep(n, iters, b);
    AfterIgnores(n, iters, ZeroAbove(iters, b), b);
    assert n[b].post == [] && Post(n, b, iters[b]) == [];
    assert Post(n, b, iters[b]) + Laps(n[b..], iters[b] + 1) == Laps(n[b..], iters[b] + 1);
  }

  lemma {:induction false} OuterStops(n: Nest, iters: seq<nat>, a: Idx, r: nat)
    requires a < |n| == |iters|
    ensures var b := Outer(n, iters, a, r);
            b >= 0 ==> iters[b] != n[b].maxIter || r + 1 != Base(n, b) + Size(n, b)
    decreases a + 1
  {
    if a >= 0 {
      OuterStops(n, iters, a - 1, r);
    }
  }

  /** The last instruction of a loop that is not in its last iteration. */
  lemma {:induction false} NextAtIterationEnd(n: Nest, p: Pos)
    requires PosOk(n, p) && !Pending(n, p) && p.r + 1 == Base(n, p.a) + Size(n, p.a)
    requires p.iters[p.a] < n[p.a].maxIter
    ensures p.r < |Body(n)|
    ensures Next(n, p).Some? && PosOk(n, Next(n, p).value)
    ensures Rest(n, p) == [IssueAt(n, p)] + Rest(n, Next(n, p).value)
  {
    hide Traced, Laps, Lap, Body, After, Current, ValidNest, RestAt, Rest;
    SingleRest(n, p);
    EndMeansAllEntered(n, p);
    assert ZeroAbove(p.iters, p.a) == p.iters;
    NextIterationPos(n, p.iters, p.iters[p.a := p.iters[p.a] + 1], p.a);
  }

  /** Behind a finished loop: what is left is what the first unfinished loop has left. */
  lemma {:induction false} NextOutside(n: Nest, p: Pos, b: nat)
    requires PosOk(n, p) && p.d == |n| && p.r + 1 == Base(n, p.a) + Size(n, p.a)
    requires p.iters[p.a] == n[p.a].maxIter && b == Outer(n, p.iters, p.a, p.r)
    ensures Next(n, p).Some? && PosOk(n, Next(n, p).value) && !Pending(n, Next(n, p).value)
    ensures After(n, p.iters, p.a) == Rest(n, Next(n, p).value)
  {
    hide Traced, Laps, Lap, Body, After, Current, RestAt, Outer, ValidNest, Base, Size;
    AfterOuter(n, p.iters, p.a, p.r);
    OuterStops(n, p.iters, p.a, p.r);
    if p.r + 1 < Base(n, b) + Size(n, b) {
      NextBehind(n, p.iters, p.a, b, p.r);
    } else {
      AfterTogether(n, p.iters, b, p.r + 1);
      var z := ZeroAbove(p.iters, b);
      NextIterationPos(n, z, z[b := p.iters[b] + 1], b);
    }
  }

  /** The last instruction of a loop in its last iteration. */
  lemma {:induction false} NextAtLoopEnd(n: Nest, p: Pos)
    requires PosOk(n, p) && !Pending(n, p) && p.r + 1 == Base(n, p.a) + Size(n, p.a)
    requires p.iters[p.a] == n[p.a].maxIter
    ensures p.r < |Body(n)|
    ensures match Next(n, p)
            case None => Rest(n, p) == [IssueAt(n, p)]
            case Some(q) => PosOk(n, q) && Rest(n, p) == [IssueAt(n, p)] + Rest(n, q)
  {
    hide Traced, Laps, Lap, Body, After, Current, RestAt, Rest, ValidNest;
    SingleRest(n, p);
    EndMeansAllEntered(n, p);
    NoMoreIterations(n, p.iters, p.a);
    var b := Outer(n, p.iters, p.a, p.r);
    if b >= 0 {
      NextOutside(n, p, b);
    } else {
      AfterOuter(n, p.iters, p.a, p.r);
    }
  }
}
