/**
 Where the instructions of a nest sit in the queue, and the closed form of the
 emulator's state while it replays a nest.
 */
module SequencerGeometry {
  import opened Wrappers
  import opened SequencerModel
  import opened SequencerNest

  /** Offset of loop `i`'s body in the static body of the nest. */
  function Base(n: Nest, i: nat): nat
    requires i <= |n|
  {
    if i == 0 then 0 else |n[0].pre| + Base(n[1..], i - 1)
  }

  /** Number of static instructions of loop `i`. */
  function Size(n: Nest, i: nat): nat
    requires i <= |n|
  {
    |Body(n[i..])|
  }

  lemma {:induction false} BaseStep(n: Nest, i: nat)
    requires i < |n|
    ensures Base(n, i + 1) == Base(n, i) + |n[i].pre|
  {
    if i > 0 {
      BaseStep(n[1..], i - 1);
    } else {
      assert Base(n[1..], 0) == 0;
    }
  }

  lemma {:induction false} BaseFront(n: Nest, i: nat)
    requires i <= |n|
    ensures Base(n, i) == if i == 0 then 0 else |n[0].pre| + Base(n[1..], i - 1)
  {
  }

  lemma {:induction false} SizeStep(n: Nest, i: nat)
    requires i < |n|
    ensures Body(n[i..]) == n[i].pre + Body(n[i + 1..]) + n[i].post
    ensures Size(n, i) == |n[i].pre| + Size(n, i + 1) + |n[i].post|
  {
    assert n[i..][1..] == n[i + 1..];
  }

  lemma {:induction false} SizePositive(n: Nest, i: nat)
    requires ValidNest(n) && i < |n|
    ensures Size(n, i) > 0
  {
    assert n[i..][|n| - i - 1] == n[|n| - 1];
    assert forall k | 0 <= k < |n| - i :: n[i..][k] == n[i + k];
    BodyNotEmpty(n[i..]);
  }

  lemma {:induction false} BodySlice(n: Nest, i: nat)
    requires i <= |n|
    ensures Base(n, i) + Size(n, i) <= |Body(n)|
    ensures Body(n)[Base(n, i)..Base(n, i) + Size(n, i)] == Body(n[i..])
  {
    if i == 0 {
      assert n[0..] == n;
    } else {
      BodySlice(n[1..], i - 1);
      assert n[1..][i - 1..] == n[i..];
      var p, b := |n[0].pre|, Base(n[1..], i - 1);
      assert Body(n)[p..p + |Body(n[1..])|] == Body(n[1..]);
    }
  }

  lemma {:induction false} BodyPlain(n: Nest)
    requires n == [] || ValidNest(n)
    ensures Plain(Body(n))
  {
    if |n| == 1 {
      assert Body(n[1..]) == [];
    } else if n != [] {
      ValidTail(n);
      BodyPlain(n[1..]);
    }
  }

  lemma {:induction false} RemoveMiddle<T>(x: seq<T>, q: seq<T>, y: seq<T>, b: nat)
    requires b < |q|
    ensures Remove(x + q + y, |x| + b) == x + Remove(q, b) + y
  {
  }

  lemma {:induction false} Prepend<T>(x: seq<T>, y: seq<T>, z: seq<T>, w: seq<T>)
    ensures x + y + z + w == [] + x + (y + z + w)
    ensures [] + (y + z + w) == [] + y + z + w
  {
  }

  lemma {:induction false} QueueHead(n: Nest)
    requires n != []
    ensures Queue(n, 0) == [] + [n[0].frep] + Queue(n, 1)
    ensures [] + Queue(n, 1) == Queue(n, 1)
  {
    Prepend([n[0].frep], n[0].pre, Queue(n[1..], 0), n[0].post);
  }

  lemma {:induction false} QueueInner(n: Nest, d: nat)
    requires n != [] && d > 0
    ensures Queue(n, d) == n[0].pre + Queue(n[1..], d - 1) + n[0].post
  {
    assert [] + n[0].pre == n[0].pre;
  }

  /** The first FREP still queued sits at the start of its body; popping it leaves the rest of the queue. */
  lemma {:induction false} QueueFrep(n: Nest, d: nat)
    requires d < |n|
    ensures Base(n, d) < |Queue(n, d)|
    ensures Queue(n, d)[Base(n, d)] == n[d].frep
    ensures Remove(Queue(n, d), Base(n, d)) == Queue(n, d + 1)
  {
    hide Queue, Base;
    BaseFront(n, d);
    var m := n[1..];
    if d == 0 {
      QueueHead(n);
      RemoveMiddle([], [n[0].frep], Queue(n, 1), 0);
    } else {
      QueueFrep(m, d - 1);
      QueueInner(n, d);
      QueueInner(n, d + 1);
      RemoveMiddle(n[0].pre, Queue(m, d - 1), n[0].post, Base(m, d - 1));
    }
  }

  /** Before the first FREP still queued, the queue holds the static body. */
  lemma {:induction false} QueuePrefix(n: Nest, d: nat, k: nat)
    requires d <= |n| && k < Base(n, d)
    ensures k < |Queue(n, d)| && k < |Body(n)| && Queue(n, d)[k] == Body(n)[k]
  {
    assert Queue(n, d) == n[0].pre + Queue(n[1..], d - 1) + n[0].post;
    if k >= |n[0].pre| {
      QueuePrefix(n[1..], d - 1, k - |n[0].pre|);
    }
  }

  lemma {:induction false} QueueDone(n: Nest)
    ensures Queue(n, |n|) == Body(n)
  {
    if n != [] {
      QueueDone(n[1..]);
    }
  }

  /**
   A point of the replay: the active loop `a`, the iteration of every loop, the
   instruction `r` to issue next and the number `d` of loops entered so far.
   */
  datatype Pos = Pos(a: Idx, iters: seq<nat>, r: nat, d: nat)

  ghost predicate Framed(n: Nest, a: Idx, iters: seq<nat>, r: nat) {
    && ValidNest(n) && |iters| == |n| && a < |n|
    && (forall i | 0 <= i < |n| :: iters[i] <= n[i].maxIter)
    && (forall i | a < i < |n| :: iters[i] == 0)
    && (a >= 0 ==> Base(n, a) <= r < Base(n, a) + Size(n, a))
  }

  /**
   The instruction index the emulator stores for loop `j`: exact for the active
   loop, and for an enclosing loop frozen at the entry of the outermost loop
   inside it that is not in its last iteration.
   */
  ghost function Offset(n: Nest, a: Idx, iters: seq<nat>, r: nat, j: nat): nat
    requires Framed(n, a, iters, r) && j <= a
    decreases a - j
  {
    if j == a then r - Base(n, a)
    else |n[j].pre| + if iters[j + 1] < n[j + 1].maxIter then 0 else Offset(n, a, iters, r, j + 1)
  }

  ghost function CfgAt(n: Nest, a: Idx, iters: seq<nat>, r: nat, d: nat, j: nat): LoopCfg
    requires Framed(n, a, iters, r) && j < |n|
  {
    LoopCfg(n[j].frep.pc, iters[j],
            if j <= a then Offset(n, a, iters, r, j) else 0,
            if j < d then Base(n, j) else 0,
            Some(Frep(n[j].maxIter, if Size(n, j) > 0 then Size(n, j) - 1 else 0)))
  }

  ghost function Cfgs(n: Nest, a: Idx, iters: seq<nat>, r: nat, d: nat): (c: seq<LoopCfg>)
    requires Framed(n, a, iters, r)
    ensures |c| == |n| && forall j | 0 <= j < |n| :: c[j] == CfgAt(n, a, iters, r, d, j)
  {
    seq(|n|, j requires 0 <= j < |n| => CfgAt(n, a, iters, r, d, j))
  }

  /** The emulator's state at a point of the replay, `lc` and `lq` being what is queued behind the nest. */
  ghost function AtPos(n: Nest, p: Pos, lc: seq<LoopCfg>, lq: seq<Insn>): State
    requires Framed(n, p.a, p.iters, p.r)
  {
    State(p.a, Cfgs(n, p.a, p.iters, p.r, p.d) + lc, p.d, Queue(n, p.d) + lq, p.r)
  }

  /** Moving the active loop inwards at the first instruction of the inner loop changes no counter. */
  lemma {:induction false} OffsetInward(n: Nest, a: Idx, iters: seq<nat>, r: nat, j: nat)
    requires Framed(n, a, iters, r) && Framed(n, a + 1, iters, r)
    requires r == Base(n, a + 1) && j <= a
    ensures Offset(n, a, iters, r, j) == Offset(n, a + 1, iters, r, j)
    decreases a - j
  {
    if j < a {
      OffsetInward(n, a, iters, r, j + 1);
    } else {
      BaseStep(n, a);
      assert Offset(n, a + 1, iters, r, a + 1) == 0;
    }
  }

  /** While every loop inside `j` is in its last iteration, loop `j` is in step with the read pointer. */
  lemma {:induction false} OffsetExact(n: Nest, a: Idx, iters: seq<nat>, r: nat, j: nat)
    requires Framed(n, a, iters, r) && j <= a
    requires forall i | j < i <= a :: iters[i] == n[i].maxIter
    ensures Base(n, j) + Offset(n, a, iters, r, j) == r
    decreases a - j
  {
    if j < a {
      OffsetExact(n, a, iters, r, j + 1);
      BaseStep(n, j);
    }
  }

  /** A loop around one that is not in its last iteration does not see the read pointer move. */
  lemma {:induction false} OffsetFrozen(n: Nest, a: Idx, iters: seq<nat>, r: nat, r': nat, i: nat, j: nat)
    requires Framed(n, a, iters, r) && Framed(n, a, iters, r')
    requires j < i <= a && iters[i] < n[i].maxIter
    ensures Offset(n, a, iters, r, j) == Offset(n, a, iters, r', j)
    decreases i - j
  {
    if j + 1 < i {
      OffsetFrozen(n, a, iters, r, r', i, j + 1);
    }
  }

  /** Leaving a finished loop changes no counter of the loops around it. */
  lemma {:induction false} OffsetOutward(n: Nest, a: nat, iters: seq<nat>, r: nat, j: nat)
    requires 0 < a && j < a
    requires Framed(n, a, iters, r) && Framed(n, a - 1, iters[a := 0], r)
    requires iters[a] == n[a].maxIter
    ensures Offset(n, a, iters, r, j) == Offset(n, a - 1, iters[a := 0], r, j)
    decreases a - j
  {
    if j < a - 1 {
      OffsetOutward(n, a, iters, r, j + 1);
    } else {
      BaseStep(n, a - 1);
    }
  }
}
