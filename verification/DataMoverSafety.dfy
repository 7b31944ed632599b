/**
 What every interleaving of the data mover keeps: the ring holds the queued
 transfers as written, they start in queueing order, and `dm_wait` returns only
 when all of them have completed.
 */
module DataMoverSafety {
  import opened DataMover

  predicate InCopy(pc: ClientPc) {
    pc in {PollFill, Lock, BumpFill, BumpFront, Unlock} || pc.Write?
  }

  /** The call a program counter belongs to. */
  predicate InOp(pc: ClientPc, op: Op) {
    match op
    case Start => pc in {WakeSpin(FromStart), WakeSet(FromStart)}
    case Wait =>
      pc in {WakeSpin(FromWait), WakeSet(FromWait), SpinFill, SpinStat, LockStat, ClearValid, Request,
             WakeSpin(FromRequest), WakeSet(FromRequest), SpinValid, UnlockStat}
    case _ => InCopy(pc)
  }

  predicate CallOk(s: State) {
    s.client.pc == Idle || (s.client.ops != [] && InOp(s.client.pc, s.client.ops[0]))
  }

  /** The transfer a slot describes. */
  function Decode(t: Task): Transfer {
    if t[7] != 0 then TwoD(t[0], t[1], t[2], t[3], t[4], t[5], t[6]) else OneD(t[0], t[1], t[2], t[6])
  }

  predicate Inflight(m: Mover) {
    m.pc == BumpBack || m.pc == DropFill
  }

  /** The mover is about to start the transfer at the back of the ring. */
  predicate Fetching(m: Mover) {
    m.pc in {WaitReady, LoadTwod, Issue} || m.pc.Load?
  }

  function Slot(k: int): (i: nat)
    ensures i < SLOTS
  {
    k % SLOTS
  }

  lemma {:induction false} SlotNext(k: int)
    ensures (Slot(k) + 1) % SLOTS == Slot(k + 1)
  {
  }

  lemma {:induction false} SlotsDiffer(j: int, k: int)
    requires j < k < j + SLOTS
    ensures Slot(j) != Slot(k)
  {
  }

  /** The indices of the ring. */
  predicate IndicesOk(s: State) {
    var (sh, h, m) := (s.sh, s.hist, s.mover);
    && |sh.queue| == SLOTS && sh.fill <= SLOTS
    && |h.started| <= |h.queued|
    && sh.fill == |h.queued| - |h.started| + (if Inflight(m) then 1 else 0)
    && (m.pc == BumpBack ==> |h.started| > 0)
    && sh.back == Slot(|h.started| - if m.pc == BumpBack then 1 else 0)
    && (s.client.pc == BumpFront ==> |h.queued| > 0)
    && sh.front == Slot(|h.queued| - if s.client.pc == BumpFront then 1 else 0)
    && (Fetching(m) ==> |h.started| < |h.queued|)
    && (s.client.pc in {Lock, BumpFill} || s.client.pc.Write? ==> sh.fill < SLOTS)
  }

  /** The slots of the queued transfers hold them. */
  ghost predicate SlotsOk(s: State) {
    && |s.sh.queue| == SLOTS
    && forall j | |s.hist.queued| - s.sh.fill <= j < |s.hist.queued| && j >= 0 ::
         Decode(s.sh.queue[Slot(j)]) == s.hist.queued[j]
  }

  /** The fields the client has written so far. */
  ghost predicate WritingOk(s: State) {
    var c := s.client;
    && (c.pc.Write? ==> c.ops != [] && s.sh.front < |s.sh.queue| && c.pc.k < |Writes(c.ops[0])|
                        && Written(s.sh.queue[s.sh.front], Writes(c.ops[0]), c.pc.k))
    && (c.pc == BumpFill ==> c.ops != [] && IsCopy(c.ops[0]) && s.sh.front < |s.sh.queue|
                             && Decode(s.sh.queue[s.sh.front]) == TransferOf(c.ops[0]))
  }

  ghost predicate Written(t: Task, w: seq<(nat, nat)>, k: nat)
    requires forall i | 0 <= i < |w| :: w[i].0 < 8
  {
    k <= |w| && forall i | 0 <= i < k :: t[w[i].0] == w[i].1
  }

  /** The fields the mover has loaded so far. */
  ghost predicate LoadingOk(s: State) {
    var m := s.mover;
    && s.sh.back < |s.sh.queue|
    && (m.pc.Load? ==> m.pc.k < |Fields(m.twod)| && Loaded(s.sh.queue[s.sh.back], m, m.pc.k))
    && (m.pc == Issue ==> Loaded(s.sh.queue[s.sh.back], m, |Fields(m.twod)|))
  }

  ghost predicate Loaded(t: Task, m: Mover, k: nat) {
    && m.twod == (t[7] != 0) && |m.values| == k <= |Fields(m.twod)|
    && forall i | 0 <= i < k :: m.values[i] == t[Fields(m.twod)[i]]
  }

  /** Transfers start in queueing order, and none is forgotten. */
  predicate OrderOk(s: State) {
    var h := s.hist;
    && h.started <= h.queued
    && multiset(h.started) == multiset(s.outstanding) + h.completed
  }

  ghost predicate RingInv(s: State) {
    CallOk(s) && IndicesOk(s) && SlotsOk(s) && WritingOk(s) && LoadingOk(s) && OrderOk(s)
  }

  lemma {:induction false} RingInit(ops: seq<Op>)
    ensures RingInv(Init(ops))
  {
  }

  // ----- client steps

  lemma {:induction false} ClientKeepsCall(s: State)
    requires CallOk(s) && ClientStep(s).Some?
    ensures CallOk(ClientStep(s).value)
  {
  }

  lemma {:induction false} ClientKeepsIndices(s: State)
    requires CallOk(s) && IndicesOk(s) && ClientStep(s).Some?
    ensures IndicesOk(ClientStep(s).value)
  {
    hide Writes, TransferOf, Slot, CallOk, InOp, Fetching, Inflight;
    match s.client.pc {
      case BumpFront => SlotNext(|s.hist.queued| - 1);
      case BumpFill =>
      case Write(k) =>
      case Idle => StartsOutside(s);
      case _ =>
    }
  }

  lemma {:induction false} StartsOutside(s: State)
    ensures s.client.ops != [] ==>
              OpStart(s.client.ops[0]) !in {BumpFront, Lock, BumpFill} && !OpStart(s.client.ops[0]).Write?
  {
  }

  lemma {:induction false} AllWritten(t: Task, op: Op)
    requires IsCopy(op) && Written(t, Writes(op), |Writes(op)|)
    ensures Decode(t) == TransferOf(op)
  {
    var w := Writes(op);
    assert t[w[0].0] == w[0].1 && t[w[1].0] == w[1].1 && t[w[2].0] == w[2].1 && t[w[3].0] == w[3].1
           && t[w[4].0] == w[4].1;
    if op.Copy2D? {
      assert t[w[5].0] == w[5].1 && t[w[6].0] == w[6].1 && t[w[7].0] == w[7].1;
    }
  }

  /** No field is written twice. */
  lemma {:induction false} WriteNext(t: Task, op: Op, k: nat)
    requires k < |Writes(op)| && Written(t, Writes(op), k)
    ensures var w := Writes(op); var u: Task := t[w[k].0 := w[k].1]; Written(u, w, k + 1)
  {
  }

  lemma {:induction false} ClientWrites(s: State)
    requires RingInv(s) && s.client.pc.Write? && ClientStep(s).Some?
    ensures var t := ClientStep(s).value; SlotsOk(t) && WritingOk(t) && LoadingOk(t)
  {
    var k, op, f := s.client.pc.k, s.client.ops[0], s.sh.front;
    var t := ClientStep(s).value;
    WriteNext(s.sh.queue[f], op, k);
    assert t.sh.queue[f] == s.sh.queue[f][Writes(op)[k].0 := Writes(op)[k].1];
    if k + 1 == |Writes(op)| {
      AllWritten(t.sh.queue[f], op);
    }
    hide Writes, Decode, TransferOf, Fields, Slot;
    OtherSlots(s);
    assert s.mover.pc.Load? || s.mover.pc == Issue ==> s.sh.back != f;
  }

  /** The slot being written is none of the queued ones. */
  lemma {:induction false} OtherSlots(s: State)
    requires IndicesOk(s) && s.sh.fill < SLOTS && s.client.pc != BumpFront
    ensures forall j | |s.hist.queued| - s.sh.fill <= j < |s.hist.queued| && j >= 0 :: Slot(j) != s.sh.front
    ensures Fetching(s.mover) ==> s.sh.back != s.sh.front
  {
    hide Slot;
    var n := |s.hist.queued|;
    forall j | n - s.sh.fill <= j < n && j >= 0 ensures Slot(j) != s.sh.front {
      SlotsDiffer(j, n);
    }
    if Fetching(s.mover) {
      SlotsDiffer(|s.hist.started|, n);
    }
  }

  lemma {:induction false} ClientQueues(s: State)
    requires RingInv(s) && s.client.pc == BumpFill && ClientStep(s).Some?
    ensures var t := ClientStep(s).value; SlotsOk(t) && WritingOk(t) && LoadingOk(t) && OrderOk(t)
  {
    hide Decode, TransferOf, Fields, Writes, Slot, LoadingOk, OrderOk, CallOk, Fetching, Inflight;
    var t := ClientStep(s).value;
    var n := |s.hist.queued|;
    forall j | |t.hist.queued| - t.sh.fill <= j < |t.hist.queued| && j >= 0
      ensures Decode(t.sh.queue[Slot(j)]) == t.hist.queued[j]
    {
      if j < n {
        assert t.hist.queued[j] == s.hist.queued[j];
      }
    }
    QueueingSpares(s, t);
  }

  lemma {:induction false} QueueingSpares(s: State, t: State)
    requires LoadingOk(s) && OrderOk(s)
    requires t.sh.queue == s.sh.queue && t.sh.back == s.sh.back && t.mover == s.mover && t.outstanding == s.outstanding
    requires t.hist.started == s.hist.started && t.hist.completed == s.hist.completed && s.hist.queued <= t.hist.queued
    ensures LoadingOk(t) && OrderOk(t)
  {
    hide Fields, Loaded;
  }

  lemma {:induction false} ClientKeepsRing(s: State)
    requires RingInv(s) && ClientStep(s).Some?
    ensures RingInv(ClientStep(s).value)
  {
    ClientKeepsCall(s);
    ClientKeepsIndices(s);
    hide CallOk, IndicesOk;
    if s.client.pc.Write? {
      ClientWrites(s);
      hide SlotsOk, LoadingOk, WritingOk;
    } else if s.client.pc == BumpFill {
      ClientQueues(s);
      hide *;
    } else {
      ClientElsewhere(s);
      hide *;
    }
  }

  lemma {:induction false} ClientElsewhere(s: State)
    requires RingInv(s) && ClientStep(s).Some? && !s.client.pc.Write? && s.client.pc != BumpFill
    ensures var t := ClientStep(s).value; SlotsOk(t) && WritingOk(t) && LoadingOk(t) && OrderOk(t)
  {
    ClientSparesRing(s);
    hide ClientStep, IndicesOk, CallOk, Decode, TransferOf, Fields, Writes, Slot, Written;
  }

  lemma {:induction false} ClientSparesRing(s: State)
    requires CallOk(s) && ClientStep(s).Some? && !s.client.pc.Write? && s.client.pc != BumpFill
    ensures var t := ClientStep(s).value;
            && t.sh.queue == s.sh.queue && t.sh.back == s.sh.back && t.sh.fill == s.sh.fill
            && t.mover == s.mover && t.outstanding == s.outstanding && t.hist.queued == s.hist.queued
            && t.hist.started == s.hist.started && t.hist.completed == s.hist.completed
            && t.client.pc != BumpFill && !(t.client.pc.Write? && t.client.pc.k > 0)
            && (t.client.pc.Write? ==> t.sh.front == s.sh.front && t.client.ops == s.client.ops && t.client.ops != []
                                       && IsCopy(t.client.ops[0]))
  {
    hide Writes, TransferOf;
    match s.client.pc {
      case Idle =>
      case Lock =>
      case Unlock =>
      case UnlockStat =>
      case WakeSet(r) =>
      case _ =>
    }
  }

  // ----- mover and engine steps

  lemma {:induction false} MoverKeepsIndices(s: State, cap: nat)
    requires IndicesOk(s) && MoverStep(s, cap).Some?
    ensures IndicesOk(MoverStep(s, cap).value)
  {
    hide Fields, Assemble, Slot;
    match s.mover.pc {
      case BumpBack => SlotNext(|s.hist.started| - 1);
      case Issue =>
      case DropFill =>
      case CheckFill =>
      case Load(k) =>
      case _ =>
    }
  }

  lemma {:induction false} AllLoaded(t: Task, m: Mover)
    requires Loaded(t, m, |Fields(m.twod)|)
    ensures Assemble(m.twod, m.values) == Decode(t)
  {
  }

  lemma {:induction false} MoverLoads(s: State, cap: nat)
    requires RingInv(s) && MoverStep(s, cap).Some?
    ensures LoadingOk(MoverStep(s, cap).value)
  {
    hide SlotsOk, WritingOk, OrderOk, CallOk, Fields, Assemble;
  }

  lemma {:induction false} Snoc(a: seq<Transfer>, b: seq<Transfer>, x: Transfer, done: multiset<Transfer>)
    requires multiset(a) == multiset(b) + done
    ensures multiset(a + [x]) == multiset(b + [x]) + done
  {
  }

  lemma {:induction false} Prefix(a: seq<Transfer>, b: seq<Transfer>)
    requires a <= b && |a| < |b|
    ensures a + [b[|a|]] <= b
  {
  }

  lemma {:induction false} MoverStarts(s: State, cap: nat)
    requires RingInv(s) && s.mover.pc == Issue && MoverStep(s, cap).Some?
    ensures OrderOk(MoverStep(s, cap).value)
  {
    AllLoaded(s.sh.queue[s.sh.back], s.mover);
    var j := |s.hist.started|;
    assert Decode(s.sh.queue[Slot(j)]) == s.hist.queued[j];
    hide Decode, Fields, Assemble, CallOk, WritingOk, IndicesOk, LoadingOk, SlotsOk, Slot;
    Prefix(s.hist.started, s.hist.queued);
    Snoc(s.hist.started, s.outstanding, s.hist.queued[j], s.hist.completed);
  }

  lemma {:induction false} MoverKeepsRing(s: State, cap: nat)
    requires RingInv(s) && MoverStep(s, cap).Some?
    ensures RingInv(MoverStep(s, cap).value)
  {
    MoverKeepsIndices(s, cap);
    MoverLoads(s, cap);
    hide IndicesOk, LoadingOk, Decode, Fields, TransferOf, Assemble, SlotsOk, WritingOk, CallOk, Slot;
    if s.mover.pc == Issue {
      MoverStarts(s, cap);
    }
    MoverSparesRing(s, cap);
    RingSpared(s, MoverStep(s, cap).value);
  }

  lemma {:induction false} MoverSparesRing(s: State, cap: nat)
    requires IndicesOk(s) && MoverStep(s, cap).Some?
    ensures var t := MoverStep(s, cap).value;
            && t.sh.queue == s.sh.queue && t.sh.front == s.sh.front && t.sh.fill <= s.sh.fill
            && t.client == s.client && t.hist.queued == s.hist.queued
            && (s.mover.pc != Issue ==> t.outstanding == s.outstanding && t.hist == s.hist)
  {
    hide Fields, Assemble, Slot;
  }

  lemma {:induction false} RingSpared(s: State, t: State)
    requires CallOk(s) && SlotsOk(s) && WritingOk(s)
    requires t.sh.queue == s.sh.queue && t.sh.front == s.sh.front && t.sh.fill <= s.sh.fill
    requires t.client == s.client && t.hist.queued == s.hist.queued
    ensures CallOk(t) && SlotsOk(t) && WritingOk(t)
  {
    hide Decode, TransferOf, Writes, Slot, InOp;
  }

  lemma {:induction false} RemoveOne(o: seq<Transfer>, i: nat)
    requires i < |o|
    ensures multiset(o) == multiset(o[..i] + o[i + 1..]) + multiset{o[i]}
  {
    assert o == o[..i] + [o[i]] + o[i + 1..];
  }

  lemma {:induction false} EngineKeepsOrder(s: State, i: nat)
    requires OrderOk(s) && EngineStep(s, i).Some?
    ensures OrderOk(EngineStep(s, i).value)
  {
    RemoveOne(s.outstanding, i);
  }

  lemma {:induction false} EngineSpares(s: State, t: State)
    requires IndicesOk(s) && LoadingOk(s) && t.sh == s.sh && t.client == s.client && t.mover == s.mover
    requires t.hist.queued == s.hist.queued && t.hist.started == s.hist.started
    ensures IndicesOk(t) && LoadingOk(t)
  {
    hide Fields, Loaded, Slot, Fetching, Inflight;
  }

  lemma {:induction false} EngineKeepsRing(s: State, i: nat)
    requires RingInv(s) && EngineStep(s, i).Some?
    ensures RingInv(EngineStep(s, i).value)
  {
    var t := EngineStep(s, i).value;
    EngineKeepsOrder(s, i);
    hide OrderOk, IndicesOk, SlotsOk, WritingOk, LoadingOk, CallOk;
    EngineSpares(s, t);
    RingSpared(s, t);
  }
}
