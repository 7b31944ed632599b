/**
 What every run of the data mover shows: transfers start in queueing order with
 the descriptor written, `dm_wait` returns when everything queued has completed,
 and the two cores never wait for each other, except that a copy into a full
 ring waits for somebody to wake the data mover.
 */
module DataMoverRuns {
  import opened DataMover
  import opened DataMoverSafety

  /** The client has requested STAT_WAIT_IDLE and not seen the answer. */
  predicate Requested(pc: ClientPc) {
    pc in {WakeSpin(FromRequest), WakeSet(FromRequest), SpinValid}
  }

  /** The client has seen the ring empty and queues nothing until `dm_wait` returns. */
  predicate Drained(pc: ClientPc) {
    Requested(pc) || pc in {SpinStat, LockStat, ClearValid, Request, UnlockStat}
  }

  /** Between its last look at the ring and the clearing of its interrupt, with no interrupt pending. */
  predicate Blind(s: State) {
    s.mover.pc in {SleepStat, IncWfi, Wfi} && !s.sh.irq
  }

  /** The request and answer flags. */
  predicate StatusOk(s: State) {
    var (sh, c, m) := (s.sh, s.client.pc, s.mover.pc);
    && (m in {CheckBusy, SetValid, ClearStat} ==> sh.statQ)
    && (m == SetValid ==> s.outstanding == [])
    && (Drained(c) ==> sh.fill == 0)
    && (c in {LockStat, ClearValid, Request} ==> !sh.statQ)
    && (c == Request ==> !sh.pvalid)
    && (Requested(c) && sh.pvalid ==> s.outstanding == [])
    && (Requested(c) && sh.pvalid && sh.statQ ==> m == ClearStat)
    && (Requested(c) && m == ClearStat ==> sh.pvalid)
    && (Requested(c) && !sh.statQ ==> sh.pvalid)
    && (c == UnlockStat ==> s.outstanding == [])
    && (!Requested(c) && sh.statQ ==> m == ClearStat)
  }

  predicate MutexOk(s: State) {
    var c := s.client.pc;
    s.sh.mutex <==> c.Write? || c in {BumpFill, BumpFront, Unlock, ClearValid, Request, UnlockStat} || Requested(c)
  }

  predicate AsleepOk(s: State) {
    s.sh.dmWfi == if s.mover.pc in {Wfi, ClearIrq, DecWfi} then 1 else 0
  }

  /** A data mover that will not look again has nothing to see: no wake-up is lost. */
  predicate WakeOk(s: State) {
    && (Blind(s) ==> s.sh.fill <= s.hist.since && (s.client.pc == SpinFill ==> s.sh.fill == 0))
    && (s.client.pc == SpinValid && s.mover.pc in {IncWfi, Wfi} && !s.sh.irq ==> !s.sh.statQ)
  }

  predicate SleepOk(s: State) {
    MutexOk(s) && AsleepOk(s) && WakeOk(s)
  }

  predicate DoneOk(s: State) {
    var c := s.client;
    && (c.pc in {BumpFront, Unlock} ==> c.ops != [] && IsCopy(c.ops[0]))
    && s.hist.queued == Transfers(s.hist.done) + if c.pc in {BumpFront, Unlock} then [TransferOf(c.ops[0])] else []
  }

  ghost predicate Inv(s: State) {
    RingInv(s) && StatusOk(s) && SleepOk(s) && DoneOk(s)
  }

  lemma {:induction false} InvInit(ops: seq<Op>)
    ensures Inv(Init(ops))
  {
    RingInit(ops);
  }

  // ----- steps

  lemma {:induction false} ClientKeepsStatus(s: State)
    requires CallOk(s) && StatusOk(s) && ClientStep(s).Some?
    ensures StatusOk(ClientStep(s).value)
  {
    hide Writes, TransferOf;
  }

  lemma {:induction false} ClientKeepsMutex(s: State)
    requires CallOk(s) && MutexOk(s) && ClientStep(s).Some?
    ensures MutexOk(ClientStep(s).value)
  {
    hide Writes, TransferOf;
  }

  lemma {:induction false} ClientKeepsWake(s: State)
    requires CallOk(s) && AsleepOk(s) && WakeOk(s) && ClientStep(s).Some?
    ensures AsleepOk(ClientStep(s).value) && WakeOk(ClientStep(s).value)
  {
    hide Writes, TransferOf;
    ClientSparesMover(s);
  }

  lemma {:induction false} ClientSparesMover(s: State)
    requires ClientStep(s).Some?
    ensures var t := ClientStep(s).value;
            && t.mover == s.mover && t.sh.dmWfi == s.sh.dmWfi
            && (t.sh.irq == s.sh.irq || t.sh.irq)
  {
    hide Writes, TransferOf;
  }

  lemma {:induction false} TransfersSnoc(done: seq<Op>, op: Op)
    ensures Transfers(done + [op]) == Transfers(done) + if IsCopy(op) then [TransferOf(op)] else []
  {
    assert (done + [op])[..|done|] == done;
  }

  lemma {:induction false} ClientKeepsDone(s: State)
    requires CallOk(s) && DoneOk(s) && ClientStep(s).Some?
    ensures DoneOk(ClientStep(s).value)
  {
    hide Transfers, TransferOf, Writes;
    if s.client.ops != [] {
      TransfersSnoc(s.hist.done, s.client.ops[0]);
    }
  }

  lemma {:induction false} MoverKeepsStatus(s: State, cap: nat)
    requires IndicesOk(s) && StatusOk(s) && MoverStep(s, cap).Some?
    ensures StatusOk(MoverStep(s, cap).value)
  {
    hide Fields, Assemble, Slot;
  }

  lemma {:induction false} MoverKeepsSleep(s: State, cap: nat)
    requires SleepOk(s) && MoverStep(s, cap).Some?
    ensures SleepOk(MoverStep(s, cap).value)
  {
    hide Fields, Assemble;
    match s.mover.pc {
      case SleepFill =>
      case SleepStat =>
      case IncWfi =>
      case Wfi =>
      case ClearIrq =>
      case DecWfi =>
      case Load(k) =>
      case _ =>
    }
  }

  lemma {:induction false} MoverKeepsDone(s: State, cap: nat)
    requires DoneOk(s) && MoverStep(s, cap).Some?
    ensures DoneOk(MoverStep(s, cap).value)
  {
    hide Fields, Assemble, Transfers, TransferOf;
  }

  lemma {:induction false} EngineKeeps(s: State, i: nat)
    requires StatusOk(s) && SleepOk(s) && DoneOk(s) && EngineStep(s, i).Some?
    ensures var t := EngineStep(s, i).value; StatusOk(t) && SleepOk(t) && DoneOk(t)
  {
    hide Transfers, TransferOf;
  }

  lemma {:induction false} InvStep(s: State, cap: nat, actor: nat)
    requires Inv(s) && ActorStep(s, cap, actor).Some?
    ensures Inv(ActorStep(s, cap, actor).value)
  {
    hide ClientStep, MoverStep, EngineStep, StatusOk, MutexOk, AsleepOk, WakeOk, DoneOk;
    if actor == 0 {
      ClientKeepsRing(s);
      ClientKeepsStatus(s);
      ClientKeepsMutex(s);
      ClientKeepsWake(s);
      ClientKeepsDone(s);
    } else if actor == 1 {
      MoverKeepsRing(s, cap);
      MoverKeepsStatus(s, cap);
      MoverKeepsSleep(s, cap);
      MoverKeepsDone(s, cap);
    } else {
      EngineKeepsRing(s, actor - 2);
      EngineKeeps(s, actor - 2);
    }
  }

  lemma {:induction false} InvRun(s: State, cap: nat, schedule: seq<nat>)
    requires Inv(s)
    ensures Inv(Run(s, cap, schedule))
    decreases |schedule|
  {
    hide Inv, ActorStep;
    if schedule != [] {
      match ActorStep(s, cap, schedule[0]) {
        case None => InvRun(s, cap, schedule[1..]);
        case Some(t) =>
          InvStep(s, cap, schedule[0]);
          InvRun(t, cap, schedule[1..]);
      }
    }
  }

  // ----- what a run shows

  lemma {:induction false} StepShape(s: State, cap: nat, actor: nat)
    requires ActorStep(s, cap, actor).Some?
    ensures var t := ActorStep(s, cap, actor).value; t.hist.done + t.client.ops == s.hist.done + s.client.ops
  {
    hide Fields, Assemble, Writes, TransferOf;
    if s.client.ops != [] {
      assert s.hist.done + s.client.ops == s.hist.done + [s.client.ops[0]] + s.client.ops[1..];
    }
  }

  lemma {:induction false} RunShape(s: State, cap: nat, schedule: seq<nat>)
    ensures var t := Run(s, cap, schedule); t.hist.done + t.client.ops == s.hist.done + s.client.ops
    decreases |schedule|
  {
    hide ActorStep;
    if schedule != [] {
      match ActorStep(s, cap, schedule[0]) {
        case None => RunShape(s, cap, schedule[1..]);
        case Some(t) =>
          StepShape(s, cap, schedule[0]);
          RunShape(t, cap, schedule[1..]);
      }
    }
  }

  lemma {:induction false} Reached(ops: seq<Op>, cap: nat, schedule: seq<nat>)
    ensures var s := Run(Init(ops), cap, schedule); Inv(s) && s.hist.done + s.client.ops == ops
  {
    InvInit(ops);
    InvRun(Init(ops), cap, schedule);
    RunShape(Init(ops), cap, schedule);
    assert [] + ops == ops;
  }

  /** The mover has seen the engine accept another transfer and has not started it yet. */
  predicate Starting(pc: MoverPc) {
    pc in {LoadTwod, Issue} || pc.Load?
  }

  /** The engine is never given more than it takes. */
  predicate RoomOk(s: State, cap: nat) {
    |s.outstanding| <= cap && (Starting(s.mover.pc) ==> |s.outstanding| < cap)
  }

  lemma {:induction false} RoomStart(ops: seq<Op>, cap: nat)
    ensures RoomOk(Init(ops), cap)
  {
  }

  lemma {:induction false} RoomStep(s: State, cap: nat, actor: nat)
    requires RoomOk(s, cap) && ActorStep(s, cap, actor).Some?
    ensures RoomOk(ActorStep(s, cap, actor).value, cap)
  {
    hide Writes, TransferOf, Fields, Assemble;
    match s.mover.pc {
      case WaitReady =>
      case Load(k) =>
      case Issue =>
      case _ =>
    }
  }

  lemma {:induction false} RoomRun(s: State, cap: nat, schedule: seq<nat>)
    requires RoomOk(s, cap)
    ensures RoomOk(Run(s, cap, schedule), cap)
    decreases |schedule|
  {
    hide RoomOk, ActorStep;
    if schedule != [] {
      match ActorStep(s, cap, schedule[0]) {
        case None => RoomRun(s, cap, schedule[1..]);
        case Some(t) =>
          RoomStep(s, cap, schedule[0]);
          RoomRun(t, cap, schedule[1..]);
      }
    }
  }

  /**
   The ring never overflows, every copy is queued exactly as asked, and transfers
   are started in queueing order, each once, and only when the engine takes one
   more: what was started is a prefix of what was queued, and is either
   outstanding or complete.
   */
  lemma {:induction false} StartedInOrder(ops: seq<Op>, cap: nat, schedule: seq<nat>)
    ensures var s := Run(Init(ops), cap, schedule);
            && s.sh.fill <= SLOTS
            && s.hist.done <= ops
            && (s.client.pc == Idle ==> s.hist.queued == Transfers(s.hist.done))
            && s.hist.started <= s.hist.queued
            && multiset(s.hist.started) == multiset(s.outstanding) + s.hist.completed
            && |s.outstanding| <= cap
  {
    Reached(ops, cap, schedule);
    RoomRun(Init(ops), cap, schedule);
    hide Run, Init, SlotsOk, WritingOk, LoadingOk, SleepOk, StatusOk, Transfers;
  }

  /** When `dm_wait` returns, every transfer queued before it has completed. */
  lemma {:induction false} WaitMeansComplete(ops: seq<Op>, cap: nat, schedule: seq<nat>)
    ensures var s := Run(Init(ops), cap, schedule);
            s.client.pc == UnlockStat ==>
              && s.hist.started == s.hist.queued == Transfers(s.hist.done)
              && s.outstanding == [] && s.sh.fill == 0
              && s.hist.completed == multiset(Transfers(s.hist.done))
              && s.client.ops != [] && s.client.ops[0] == Wait
  {
    Reached(ops, cap, schedule);
    hide Run, Init, SlotsOk, WritingOk, LoadingOk, SleepOk, Transfers, Slot;
  }

  /** The data mover sleeps or has just been woken. */
  predicate Asleep(pc: MoverPc) {
    pc in {Wfi, ClearIrq, DecWfi}
  }

  /** What a client waits for. */
  predicate ClientWaits(s: State) {
    var (c, h) := (s.client, s.hist);
    var taken := |h.started| - if Inflight(s.mover) then 1 else 0;
    || (c.pc == Idle && c.ops == [])
    || (c.pc == PollFill && |h.queued| == taken + SLOTS)
    || (c.pc == SpinFill && |h.queued| > taken)
    || (c.pc.WakeSpin? && !Asleep(s.mover.pc))
    || (c.pc == SpinStat && s.mover.pc == ClearStat)
    || (c.pc == SpinValid && !s.sh.pvalid)
  }

  /** What the data mover waits for. */
  predicate MoverWaits(s: State, cap: nat) {
    (s.mover.pc == WaitReady && |s.outstanding| == cap) || (s.mover.pc == Wfi && !s.sh.irq)
  }

  lemma {:induction false} ClientWaitsExactly(s: State)
    requires Inv(s)
    ensures ClientStep(s).None? <==> ClientWaits(s)
  {
    hide Writes, TransferOf, Decode, Slot, Fields, SlotsOk, OrderOk, LoadingOk, DoneOk, WakeOk, Written, Return, At;
    match s.client.pc {
      case Write(k) =>
      case WakeSpin(r) =>
      case WakeSet(r) =>
      case _ =>
    }
  }

  lemma {:induction false} MoverWaitsExactly(s: State, cap: nat)
    requires Inv(s) && RoomOk(s, cap)
    ensures MoverStep(s, cap).None? <==> MoverWaits(s, cap)
  {
    hide TransferOf, Decode, Slot, Fields, Assemble, SlotsOk, OrderOk, WritingOk, DoneOk, StatusOk, SleepOk;
    match s.mover.pc {
      case Load(k) =>
      case Issue =>
      case _ =>
    }
  }

  /**
   Who waits for what: a copy for a free slot, a wake-up for the data mover to be
   asleep, `dm_wait` for the ring to be empty and for the answer, the data mover for
   the engine and for an interrupt, and nobody for anything else: the mutex is always
   free when the client takes it.
   */
  lemma {:induction false} WaitsExactly(ops: seq<Op>, cap: nat, schedule: seq<nat>)
    ensures var s := Run(Init(ops), cap, schedule);
            && (ActorStep(s, cap, 0).None? <==> ClientWaits(s))
            && (ActorStep(s, cap, 1).None? <==> MoverWaits(s, cap))
  {
    hide *;
    Reached(ops, cap, schedule);
    RoomStart(ops, cap);
    RoomRun(Init(ops), cap, schedule);
    var s := Run(Init(ops), cap, schedule);
    ClientWaitsExactly(s);
    MoverWaitsExactly(s, cap);
    ActorIs(s, cap);
  }

  ghost predicate Stuck(s: State, cap: nat) {
    forall actor: nat :: ActorStep(s, cap, actor).None?
  }

  lemma {:induction false} StuckMover(s: State, cap: nat)
    requires Inv(s) && cap > 0 && Stuck(s, cap)
    ensures s.mover.pc == Wfi && !s.sh.irq && s.outstanding == []
  {
    hide ActorStep, Stuck, SlotsOk, WritingOk, OrderOk, CallOk, Slot, Fields, Assemble, StatusOk, SleepOk, DoneOk;
    StuckActors(s, cap);
  }

  lemma {:induction false} ActorIs(s: State, cap: nat)
    ensures ActorStep(s, cap, 0) == ClientStep(s)
    ensures ActorStep(s, cap, 1) == MoverStep(s, cap)
    ensures ActorStep(s, cap, 2) == EngineStep(s, 0)
  {
  }

  /** Nobody waits for ever, except a copy into a full ring that nobody wakes the data mover for. */
  lemma {:induction false} OnlyFullRingBlocks(ops: seq<Op>, cap: nat, schedule: seq<nat>)
    requires cap > 0 && Stuck(Run(Init(ops), cap, schedule), cap)
    ensures var s := Run(Init(ops), cap, schedule);
            && s.mover.pc == Wfi && s.outstanding == []
            && (|| (s.client.pc == Idle && s.hist.done == ops)
                || (s.client.pc == PollFill && s.sh.fill == SLOTS <= s.hist.since))
  {
    Reached(ops, cap, schedule);
    var s := Run(Init(ops), cap, schedule);
    hide Run, Init;
    StuckMover(s, cap);
    StuckClient(s, cap);
    hide *;
    assert s.hist.done + [] == s.hist.done;
  }

  lemma {:induction false} StuckClient(s: State, cap: nat)
    requires Inv(s) && Stuck(s, cap) && s.mover.pc == Wfi && !s.sh.irq
    ensures || (s.client.pc == Idle && s.client.ops == [])
            || (s.client.pc == PollFill && s.sh.fill == SLOTS <= s.hist.since)
  {
    hide ActorStep, MoverStep, Stuck, SlotsOk, LoadingOk, OrderOk, Slot, Fields, Writes, Assemble, Decode, DoneOk,
        Written, TransferOf, Transfers, Return, At;
    StuckActors(s, cap);
  }

  lemma {:induction false} StuckActors(s: State, cap: nat)
    requires Stuck(s, cap)
    ensures ClientStep(s).None? && MoverStep(s, cap).None? && EngineStep(s, 0).None?
  {
    assert ActorStep(s, cap, 0).None? && ActorStep(s, cap, 1).None? && ActorStep(s, cap, 2).None?;
    hide ClientStep, MoverStep, EngineStep;
  }

  /** At most four copies in a row, `since` of them made already. */
  predicate ShortBursts(ops: seq<Op>, since: nat) {
    if ops == [] then true
    else if IsCopy(ops[0]) then since < SLOTS && ShortBursts(ops[1..], since + 1)
    else ShortBursts(ops[1..], 0)
  }

  predicate BurstOk(s: State) {
    var c := s.client;
    && (Drained(c.pc) || c.pc == SpinFill ==> s.hist.since == 0)
    && (if c.pc in {BumpFront, Unlock} then c.ops != [] && ShortBursts(c.ops[1..], s.hist.since)
        else ShortBursts(c.ops, s.hist.since))
  }

  lemma {:induction false} BurstStep(s: State, cap: nat, actor: nat)
    requires CallOk(s) && BurstOk(s) && ActorStep(s, cap, actor).Some?
    ensures BurstOk(ActorStep(s, cap, actor).value)
  {
    hide Fields, Assemble, Writes, TransferOf, MoverStep, EngineStep;
    if actor == 0 {
      ClientBurst(s);
    } else if actor == 1 {
      MoverSparesClient(s, cap);
    } else {
      EngineSparesClient(s, actor - 2);
    }
  }

  lemma {:induction false} ClientBurst(s: State)
    requires CallOk(s) && BurstOk(s) && ClientStep(s).Some?
    ensures BurstOk(ClientStep(s).value)
  {
    hide Writes, TransferOf;
    match s.client.pc {
      case BumpFill =>
      case Unlock =>
      case UnlockStat =>
      case WakeSet(r) =>
      case _ =>
    }
  }

  lemma {:induction false} MoverSparesClient(s: State, cap: nat)
    requires MoverStep(s, cap).Some?
    ensures MoverStep(s, cap).value.client == s.client && MoverStep(s, cap).value.hist.since == s.hist.since
  {
    hide Fields, Assemble;
  }

  lemma {:induction false} EngineSparesClient(s: State, i: nat)
    requires EngineStep(s, i).Some?
    ensures EngineStep(s, i).value.client == s.client && EngineStep(s, i).value.hist.since == s.hist.since
  {
  }

  lemma {:induction false} BurstRun(s: State, cap: nat, schedule: seq<nat>)
    requires Inv(s) && BurstOk(s)
    ensures BurstOk(Run(s, cap, schedule))
    decreases |schedule|
  {
    if schedule != [] {
      match ActorStep(s, cap, schedule[0]) {
        case None =>
          BurstRun(s, cap, schedule[1..]);
        case Some(t) =>
          InvStep(s, cap, schedule[0]);
          BurstStep(s, cap, schedule[0]);
          hide ActorStep, Inv, BurstOk;
          BurstRun(t, cap, schedule[1..]);
      }
    }
  }

  /** A client that never makes more than four copies in a row without `dm_start` or `dm_wait` never blocks for good. */
  lemma {:induction false} ShortBurstsNeverBlock(ops: seq<Op>, cap: nat, schedule: seq<nat>)
    requires ShortBursts(ops, 0) && cap > 0 && Stuck(Run(Init(ops), cap, schedule), cap)
    ensures Run(Init(ops), cap, schedule).hist.done == ops
  {
    Reached(ops, cap, schedule);
    OnlyFullRingBlocks(ops, cap, schedule);
    InvInit(ops);
    BurstRun(Init(ops), cap, schedule);
    var s := Run(Init(ops), cap, schedule);
    hide Run, Init, Stuck, StatusOk, SleepOk, DoneOk, IndicesOk, SlotsOk, WritingOk, LoadingOk, OrderOk;
  }
}
