/**
 Exactly which clients can block for good: those that make five copies in a row
 without `dm_start` or `dm_wait`.  The schedule that blocks them lets the data
 mover fall asleep before every call and completes transfers at once.
 */
module DataMoverBlocking {
  import opened Wrappers
  import opened DataMover
  import opened DataMoverSafety
  import opened DataMoverRuns

  lemma {:induction false} RunAppend(s: State, cap: nat, a: seq<nat>, b: seq<nat>)
    ensures Run(s, cap, a + b) == Run(Run(s, cap, a), cap, b)
    decreases |a|
  {
    if a == [] {
      assert a + b == b;
    } else {
      assert (a + b)[1..] == a[1..] + b;
      RunAppend(match ActorStep(s, cap, a[0]) case None => s case Some(t) => t, cap, a[1..], b);
    }
  }

  lemma {:induction false} RunOne(s: State, cap: nat, actor: nat)
    requires ActorStep(s, cap, actor).Some?
    ensures Run(s, cap, [actor]) == ActorStep(s, cap, actor).value
  {
    var t := ActorStep(s, cap, actor).value;
    assert [actor][1..] == [];
    assert Run(t, cap, []) == t;
  }

  // ----- the data mover alone

  /** The data mover sleeps, and there is nothing for it to do. */
  predicate Asleep(s: State) {
    s.mover.pc == Wfi && !s.sh.irq && s.outstanding == [] && s.sh.fill == 0 && !s.sh.statQ
  }

  /** Where the data mover can be when nobody else moves and transfers complete at once. */
  predicate Tidy(s: State) {
    && (s.mover.pc == ClearIrq ==> s.sh.irq)
    && (s.mover.pc in {SleepFill, SleepStat, IncWfi} ==> !s.sh.statQ)
    && (s.mover.pc in {SleepStat, IncWfi} ==> s.sh.fill == 0)
    && (s.mover.pc == Wfi ==> s.sh.irq || (s.sh.fill == 0 && !s.sh.statQ))
  }

  /** Steps to the next transfer started, request answered or interrupt cleared. */
  function PcRank(pc: MoverPc, full: bool): nat {
    match pc
    case CheckFill => 22
    case WaitReady => 12
    case LoadTwod => 11
    case Load(k) => if k < 7 then 10 - k else 4
    case Issue => 3
    case BumpBack => 2
    case DropFill => 1
    case CheckStat => if full then 30 else 21
    case CheckBusy => if full then 29 else 20
    case SetValid => if full then 28 else 19
    case ClearStat => if full then 27 else 18
    case SleepFill => if full then 26 else 17
    case SleepStat => 16
    case IncWfi => 15
    case Wfi => 14
    case ClearIrq => 13
    case DecWfi => 23
  }

  function Bit(b: bool): nat {
    if b then 1 else 0
  }

  function Rank(s: State): nat {
    2 * (40 * (s.sh.fill + Bit(s.sh.statQ) + Bit(s.sh.irq)) + PcRank(s.mover.pc, s.sh.fill > 0)) + |s.outstanding|
  }

  /** What the data mover and the engine leave alone. */
  predicate SameClient(s: State, t: State) {
    t.client == s.client && t.hist.since == s.hist.since && t.hist.done == s.hist.done
  }

  predicate Fetches(pc: MoverPc) {
    pc in {CheckFill, WaitReady, LoadTwod, Issue, BumpBack, DropFill} || pc.Load?
  }

  lemma {:induction false} MoverLoadsField(s: State, cap: nat)
    requires Tidy(s) && s.mover.pc.Load? && s.mover.pc.k < |Fields(s.mover.twod)| && s.sh.back < |s.sh.queue|
    ensures MoverStep(s, cap).Some?
    ensures var t := MoverStep(s, cap).value; Tidy(t) && Rank(t) < Rank(s) && SameClient(s, t)
  {
  }

  lemma {:induction false} MoverFetches(s: State, cap: nat)
    requires Tidy(s) && cap > 0 && s.outstanding == [] && s.mover.pc in {CheckFill, WaitReady, LoadTwod}
    requires s.sh.back < |s.sh.queue|
    ensures MoverStep(s, cap).Some?
    ensures var t := MoverStep(s, cap).value; Tidy(t) && Rank(t) < Rank(s) && SameClient(s, t)
  {
    hide Assemble, Fields;
  }

  lemma {:induction false} MoverStarts(s: State, cap: nat)
    requires Tidy(s) && s.outstanding == [] && s.mover.pc in {Issue, BumpBack, DropFill}
    requires s.mover.pc == Issue ==> |s.mover.values| == |Fields(s.mover.twod)|
    requires s.mover.pc == DropFill ==> s.sh.fill > 0
    ensures MoverStep(s, cap).Some?
    ensures var t := MoverStep(s, cap).value; Tidy(t) && Rank(t) < Rank(s) && SameClient(s, t)
  {
    hide Assemble, Fields;
  }

  lemma {:induction false} RingFacts(s: State)
    requires Inv(s)
    ensures s.mover.pc == DropFill ==> s.sh.fill > 0
    ensures s.mover.pc in {CheckBusy, SetValid, ClearStat} ==> s.sh.statQ
  {
    hide SlotsOk, WritingOk, OrderOk, CallOk, Slot, SleepOk, DoneOk, LoadingOk;
  }

  predicate Answers(pc: MoverPc) {
    pc in {CheckStat, CheckBusy, SetValid, ClearStat, SleepFill}
  }

  lemma {:induction false} MoverAnswers(s: State, cap: nat)
    requires Tidy(s) && s.outstanding == [] && Answers(s.mover.pc)
    requires s.mover.pc in {CheckBusy, SetValid, ClearStat} ==> s.sh.statQ
    ensures MoverStep(s, cap).Some?
    ensures var t := MoverStep(s, cap).value; Tidy(t) && Rank(t) < Rank(s) && SameClient(s, t)
  {
  }

  lemma {:induction false} MoverSleeps(s: State, cap: nat)
    requires Tidy(s) && s.outstanding == [] && !Asleep(s) && !Fetches(s.mover.pc) && !Answers(s.mover.pc)
    ensures MoverStep(s, cap).Some?
    ensures var t := MoverStep(s, cap).value; Tidy(t) && Rank(t) < Rank(s) && SameClient(s, t)
  {
  }

  lemma {:induction false} MoverGoes(s: State, cap: nat)
    requires Inv(s) && Tidy(s) && cap > 0 && s.outstanding == [] && !Asleep(s)
    ensures MoverStep(s, cap).Some?
    ensures var t := MoverStep(s, cap).value; Tidy(t) && Rank(t) < Rank(s) && SameClient(s, t)
  {
    RingFacts(s);
    LoadedSize(s);
    hide Inv, MoverStep, Rank, Tidy, Asleep, Answers, SameClient;
    if s.mover.pc.Load? {
      MoverLoadsField(s, cap);
    } else if s.mover.pc in {CheckFill, WaitReady, LoadTwod} {
      MoverFetches(s, cap);
    } else if Fetches(s.mover.pc) {
      MoverStarts(s, cap);
    } else if Answers(s.mover.pc) {
      MoverAnswers(s, cap);
    } else {
      MoverSleeps(s, cap);
    }
  }

  lemma {:induction false} LoadedSize(s: State)
    requires RingInv(s)
    ensures s.mover.pc.Load? ==> s.mover.pc.k < |Fields(s.mover.twod)|
    ensures s.mover.pc == Issue ==> |s.mover.values| == |Fields(s.mover.twod)|
    ensures s.sh.back < |s.sh.queue|
  {
    hide SlotsOk, WritingOk, OrderOk, CallOk, IndicesOk, Fields;
  }

  lemma {:induction false} EngineGoes(s: State, cap: nat)
    requires Tidy(s) && s.outstanding != []
    ensures EngineStep(s, 0).Some?
    ensures var t := EngineStep(s, 0).value; Tidy(t) && Rank(t) < Rank(s) && SameClient(s, t)
  {
  }

  /** Left alone, the data mover starts everything queued, answers a request and falls asleep. */
  lemma {:induction false} Settles(s: State, cap: nat) returns (schedule: seq<nat>)
    requires Inv(s) && Tidy(s) && cap > 0
    ensures var t := Run(s, cap, schedule); Inv(t) && Asleep(t) && SameClient(s, t)
    decreases Rank(s)
  {
    hide Inv, ActorStep, Rank, Tidy;
    if s.outstanding == [] && Asleep(s) {
      schedule := [];
    } else {
      var actor := if s.outstanding == [] then 1 else 2;
      ActorIs(s, cap);
      if s.outstanding == [] {
        MoverGoes(s, cap);
      } else {
        EngineGoes(s, cap);
      }
      var t := ActorStep(s, cap, actor).value;
      InvStep(s, cap, actor);
      var more := Settles(t, cap);
      schedule := [actor] + more;
      RunOne(s, cap, actor);
      RunAppend(s, cap, [actor], more);
    }
  }

  // ----- the client alone

  /** The client's turn, when it can move. */
  lemma {:induction false} ClientGoes(s: State, cap: nat)
    requires Inv(s) && ClientStep(s).Some?
    ensures Run(s, cap, [0]) == ClientStep(s).value && Inv(ClientStep(s).value)
  {
    hide Inv, ActorStep;
    ActorIs(s, cap);
    RunOne(s, cap, 0);
    InvStep(s, cap, 0);
  }

  function CopyRank(pc: ClientPc): nat {
    match pc
    case Idle => 20
    case PollFill => 19
    case Lock => 18
    case Write(k) => if k < 8 then 17 - k else 9
    case BumpFill => 8
    case BumpFront => 7
    case _ => 6
  }

  predicate InRing(pc: ClientPc) {
    pc == BumpFront || pc == Unlock
  }

  /** The client makes a copy and the ring has room. */
  predicate Copying(s: State) {
    && s.client.ops != [] && IsCopy(s.client.ops[0]) && (s.client.pc == Idle || InCopy(s.client.pc))
    && (s.client.pc in {Idle, PollFill} ==> s.sh.fill < SLOTS)
  }

  /** The data mover does not notice. */
  predicate SameMover(s: State, t: State) {
    t.mover == s.mover && t.outstanding == s.outstanding && t.sh.irq == s.sh.irq && t.sh.statQ == s.sh.statQ
  }

  lemma {:induction false} CopyStep(s: State)
    requires Inv(s) && Copying(s)
    ensures ClientStep(s).Some?
    ensures var t := ClientStep(s).value;
            && SameMover(s, t)
            && (if s.client.pc == Unlock then t.client == Client(Idle, s.client.ops[1..])
                else Copying(t) && t.client.ops == s.client.ops && CopyRank(t.client.pc) < CopyRank(s.client.pc))
            && t.sh.fill == s.sh.fill + Bit(s.client.pc == BumpFill)
            && t.hist.since == s.hist.since + Bit(s.client.pc == BumpFill)
            && (s.client.pc != Unlock ==> (InRing(t.client.pc) <==> InRing(s.client.pc) || s.client.pc == BumpFill))
  {
    hide SlotsOk, LoadingOk, OrderOk, Slot, StatusOk, DoneOk, Decode, Written, TransferOf;
    WriteSizes(s);
  }

  lemma {:induction false} WriteSizes(s: State)
    requires RingInv(s)
    ensures s.client.pc.Write? ==>
              s.client.ops != [] && s.sh.front < |s.sh.queue| && s.client.pc.k < |Writes(s.client.ops[0])| <= 8
  {
    hide SlotsOk, LoadingOk, OrderOk, IndicesOk, Written;
  }

  /** A copy into a ring with room completes while the data mover sleeps. */
  lemma {:induction false} CopyCompletes(s: State, cap: nat) returns (schedule: seq<nat>)
    requires Inv(s) && Copying(s)
    ensures var t := Run(s, cap, schedule);
            && Inv(t) && SameMover(s, t) && t.client == Client(Idle, s.client.ops[1..])
            && t.sh.fill == s.sh.fill + Bit(!InRing(s.client.pc))
               && t.hist.since == s.hist.since + Bit(!InRing(s.client.pc))
    decreases CopyRank(s.client.pc)
  {
    hide Inv, ClientStep, Copying, CopyRank;
    CopyStep(s);
    ClientGoes(s, cap);
    var t := ClientStep(s).value;
    if s.client.pc == Unlock {
      schedule := [0];
    } else {
      var more := CopyCompletes(t, cap);
      schedule := [0] + more;
      RunAppend(s, cap, [0], more);
    }
  }

  // ----- waking the data mover

  /** Between two calls, with the data mover asleep. */
  predicate Quiet(s: State) {
    s.client.pc == Idle && s.mover.pc == Wfi && !s.sh.irq && s.outstanding == []
  }

  lemma {:induction false} QuietFacts(s: State)
    requires Inv(s) && Quiet(s)
    ensures s.sh.dmWfi == 1 && !s.sh.statQ && !s.sh.mutex
  {
    hide RingInv, DoneOk, WakeOk;
  }

  lemma {:induction false} WakeTidy(s: State)
    requires s.mover.pc == Wfi && s.sh.irq
    ensures Tidy(s)
  {
  }

  /** Three turns of the client. */
  lemma {:induction false} ThreeTurns(s: State, cap: nat)
    requires Inv(s) && ClientStep(s).Some?
    requires ClientStep(ClientStep(s).value).Some?
    requires ClientStep(ClientStep(ClientStep(s).value).value).Some?
    ensures var t := ClientStep(ClientStep(ClientStep(s).value).value).value;
            Run(s, cap, [0] + ([0] + [0])) == t && Inv(t)
  {
    hide Inv, ClientStep;
    var t1 := ClientStep(s).value;
    var t2 := ClientStep(t1).value;
    ClientGoes(s, cap);
    ClientGoes(t1, cap);
    ClientGoes(t2, cap);
    RunAppend(t1, cap, [0], [0]);
    RunAppend(s, cap, [0], [0] + [0]);
  }

  lemma {:induction false} CallBegins(s: State, r: Ret)
    requires Quiet(s) && s.sh.dmWfi == 1 && s.client.ops != [] && OpStart(s.client.ops[0]) == WakeSpin(r)
    ensures ClientStep(s) == Some(At(s, s.sh, WakeSpin(r)))
    ensures ClientStep(At(s, s.sh, WakeSpin(r))) == Some(At(s, s.sh, WakeSet(r)))
  {
  }

  lemma {:induction false} CallSignals(s: State, r: Ret)
    requires Quiet(s) && s.client.ops != [] && OpStart(s.client.ops[0]) == WakeSpin(r)
    requires r == if s.client.ops[0] == Start then FromStart else FromWait
    ensures ClientStep(At(s, s.sh, WakeSet(r))).Some?
    ensures var t := ClientStep(At(s, s.sh, WakeSet(r))).value;
            && t.mover.pc == Wfi && t.sh.irq && t.hist.since == 0
            && t.client == if s.client.ops[0] == Start then Client(Idle, s.client.ops[1..])
                           else Client(SpinFill, s.client.ops)
  {
  }

  /** `dm_start` and the first part of `dm_wait` wake the data mover. */
  lemma {:induction false} Wakes(s: State, cap: nat) returns (schedule: seq<nat>)
    requires Inv(s) && Quiet(s) && s.client.ops != [] && !IsCopy(s.client.ops[0])
    ensures var t := Run(s, cap, schedule);
            && Inv(t) && Tidy(t) && t.hist.since == 0
            && t.client == if s.client.ops[0] == Start then Client(Idle, s.client.ops[1..])
                           else Client(SpinFill, s.client.ops)
  {
    var r := if s.client.ops[0] == Start then FromStart else FromWait;
    assert OpStart(s.client.ops[0]) == WakeSpin(r);
    hide *;
    QuietFacts(s);
    CallBegins(s, r);
    CallSignals(s, r);
    ThreeTurns(s, cap);
    schedule := [0] + ([0] + [0]);
    WakeTidy(Run(s, cap, schedule));
  }

  predicate Waiting(s: State) {
    s.client.ops != [] && s.client.ops[0] == Wait && s.hist.since == 0
  }

  lemma {:induction false} WaitFacts(s: State)
    requires Inv(s) && Asleep(s)
    ensures s.sh.dmWfi == 1 && (s.client.pc == SpinFill ==> !s.sh.mutex)
    ensures s.client.pc == SpinValid ==> s.sh.pvalid
  {
    hide RingInv, DoneOk, WakeOk;
  }

  /** The mover sleeps at its `wfi`, whatever the flags. */
  predicate AtWfi(s: State) {
    s.mover.pc == Wfi && s.sh.dmWfi == 1 && s.outstanding == []
  }

  lemma {:induction false} SeesEmpty(s: State, cap: nat) returns (schedule: seq<nat>)
    requires Inv(s) && Asleep(s) && Waiting(s) && s.client.pc == SpinFill
    ensures var t := Run(s, cap, schedule);
            Inv(t) && AtWfi(t) && Waiting(t) && t.client == Client(ClearValid, s.client.ops)
  {
    WaitFacts(s);
    hide Inv;
    ThreeTurns(s, cap);
    schedule := [0] + ([0] + [0]);
  }

  lemma {:induction false} Requests(s: State, cap: nat) returns (schedule: seq<nat>)
    requires Inv(s) && AtWfi(s) && Waiting(s) && s.client.pc == ClearValid
    ensures var t := Run(s, cap, schedule);
            Inv(t) && AtWfi(t) && Waiting(t) && t.client == Client(WakeSet(FromRequest), s.client.ops)
  {
    hide Inv;
    ThreeTurns(s, cap);
    schedule := [0] + ([0] + [0]);
  }

  lemma {:induction false} Signals(s: State, cap: nat)
    requires Inv(s) && AtWfi(s) && Waiting(s) && s.client.pc == WakeSet(FromRequest)
    ensures var t := Run(s, cap, [0]);
            Inv(t) && Tidy(t) && Waiting(t) && t.client == Client(SpinValid, s.client.ops)
  {
    hide Inv;
    ClientGoes(s, cap);
    WakeTidy(ClientStep(s).value);
  }

  /** `dm_wait` sees the ring empty and asks for the engine to be idle. */
  lemma {:induction false} Asks(s: State, cap: nat) returns (schedule: seq<nat>)
    requires Inv(s) && Asleep(s) && Waiting(s) && s.client.pc == SpinFill
    ensures var t := Run(s, cap, schedule);
            Inv(t) && Tidy(t) && Waiting(t) && t.client == Client(SpinValid, s.client.ops)
  {
    hide *;
    var a := SeesEmpty(s, cap);
    var t := Run(s, cap, a);
    var b := Requests(t, cap);
    var u := Run(t, cap, b);
    Signals(u, cap);
    schedule := a + (b + [0]);
    RunAppend(t, cap, b, [0]);
    RunAppend(s, cap, a, b + [0]);
  }

  lemma {:induction false} Answered(s: State)
    requires Asleep(s) && Waiting(s) && s.client.pc == SpinValid && s.sh.pvalid
    ensures ClientStep(s).Some?
    ensures var t := ClientStep(s).value;
            Asleep(t) && Waiting(t) && t.client == Client(UnlockStat, s.client.ops)
  {
  }

  lemma {:induction false} Unlocks(s: State)
    requires Asleep(s) && Waiting(s) && s.client.pc == UnlockStat
    ensures ClientStep(s).Some?
    ensures var t := ClientStep(s).value;
            Asleep(t) && t.hist.since == 0 && t.client == Client(Idle, s.client.ops[1..])
  {
  }

  /** The answer is there, and `dm_wait` returns. */
  lemma {:induction false} WaitReturns(s: State, cap: nat) returns (schedule: seq<nat>)
    requires Inv(s) && Asleep(s) && Waiting(s) && s.client.pc == SpinValid
    ensures var t := Run(s, cap, schedule);
            Inv(t) && Asleep(t) && t.hist.since == 0 && t.client == Client(Idle, s.client.ops[1..])
  {
    WaitFacts(s);
    hide Inv, ClientStep, Asleep;
    Answered(s);
    ClientGoes(s, cap);
    var t := ClientStep(s).value;
    Unlocks(t);
    ClientGoes(t, cap);
    schedule := [0] + [0];
    RunAppend(s, cap, [0], [0]);
  }

  /** Any call but a copy ends with an empty ring and the data mover asleep. */
  lemma {:induction false} CallCompletes(s: State, cap: nat) returns (schedule: seq<nat>)
    requires Inv(s) && Quiet(s) && cap > 0 && s.client.ops != [] && !IsCopy(s.client.ops[0])
    ensures var t := Run(s, cap, schedule);
            Inv(t) && Asleep(t) && t.hist.since == 0 && t.client == Client(Idle, s.client.ops[1..])
  {
    hide Inv, Tidy, ClientStep;
    var a := Wakes(s, cap);
    var s1 := Run(s, cap, a);
    var b := Settles(s1, cap);
    var s2 := Run(s1, cap, b);
    RunAppend(s, cap, a, b);
    schedule := a + b;
    if s.client.ops[0] == Wait {
      var c := Asks(s2, cap);
      var s3 := Run(s2, cap, c);
      var d := Settles(s3, cap);
      var s4 := Run(s3, cap, d);
      var e := WaitReturns(s4, cap);
      RunAppend(s3, cap, d, e);
      RunAppend(s2, cap, c, d + e);
      RunAppend(s, cap, a + b, c + (d + e));
      schedule := a + b + (c + (d + e));
    }
  }

  // ----- the schedule that blocks

  lemma {:induction false} FullRingStuck(s: State, cap: nat)
    requires Quiet(s) && s.client.ops != [] && IsCopy(s.client.ops[0]) && s.sh.fill == SLOTS
    ensures ClientStep(s).Some? && Stuck(ClientStep(s).value, cap)
  {
    var t := ClientStep(s).value;
    forall actor: nat ensures ActorStep(t, cap, actor).None? {
    }
  }

  lemma {:induction false} QuietFill(s: State)
    requires Inv(s)
    ensures s.sh.fill <= SLOTS
  {
    hide SlotsOk, WritingOk, LoadingOk, OrderOk, StatusOk, SleepOk, DoneOk, Slot;
  }

  /** One call from a quiet point to the next. */
  lemma {:induction false} OneCall(s: State, cap: nat) returns (schedule: seq<nat>)
    requires Inv(s) && cap > 0 && Quiet(s) && s.sh.fill == s.hist.since && s.client.ops != []
    requires IsCopy(s.client.ops[0]) ==> s.sh.fill < SLOTS
    ensures var t := Run(s, cap, schedule);
            && Inv(t) && Quiet(t) && t.sh.fill == t.hist.since && t.client.ops == s.client.ops[1..]
            && t.hist.since == if IsCopy(s.client.ops[0]) then s.hist.since + 1 else 0
  {
    hide Inv, Run;
    if IsCopy(s.client.ops[0]) {
      schedule := CopyCompletes(s, cap);
    } else {
      schedule := CallCompletes(s, cap);
    }
  }

  /** From a quiet point, a client with too long a burst ahead can be made to block. */
  lemma {:induction false} Blocks(s: State, cap: nat) returns (schedule: seq<nat>)
    requires Inv(s) && cap > 0 && Quiet(s) && s.sh.fill == s.hist.since && !ShortBursts(s.client.ops, s.hist.since)
    ensures var t := Run(s, cap, schedule); Stuck(t, cap) && t.client.ops != []
    decreases |s.client.ops|
  {
    QuietFill(s);
    hide Inv, Stuck, ClientStep, IsCopy;
    if IsCopy(s.client.ops[0]) && s.sh.fill == SLOTS {
      FullRingStuck(s, cap);
      ClientGoes(s, cap);
      BlockedCopy(s);
      schedule := [0];
    } else {
      hide Run, Quiet;
      var a := OneCall(s, cap);
      var t := Run(s, cap, a);
      var b := Blocks(t, cap);
      RunAppend(s, cap, a, b);
      schedule := a + b;
    }
  }

  lemma {:induction false} BlockedCopy(s: State)
    requires Quiet(s) && s.client.ops != [] && ClientStep(s).Some?
    ensures ClientStep(s).value.client.ops == s.client.ops
  {
  }

  /** Five copies in a row without a wake-up can block: some schedule leaves a copy waiting for good. */
  lemma {:induction false} LongBurstBlocks(ops: seq<Op>, cap: nat) returns (schedule: seq<nat>)
    requires cap > 0 && !ShortBursts(ops, 0)
    ensures var t := Run(Init(ops), cap, schedule); Stuck(t, cap) && t.hist.done != ops
  {
    InvInit(ops);
    var s := Init(ops);
    hide Inv, Stuck, ShortBursts;
    var a := Settles(s, cap);
    var t := Run(s, cap, a);
    var b := Blocks(t, cap);
    RunAppend(s, cap, a, b);
    schedule := a + b;
    RunShape(s, cap, schedule);
    assert [] + ops == ops;
  }

  /** Whatever the schedule, when nobody can step all calls have returned. */
  ghost predicate NeverBlocks(ops: seq<Op>, cap: nat) {
    forall schedule: seq<nat> ::
      Stuck(Run(Init(ops), cap, schedule), cap) ==> Run(Init(ops), cap, schedule).hist.done == ops
  }

  /** A client never blocks for good exactly when it makes at most four copies between wake-ups. */
  lemma {:induction false} NeverBlocksExactly(ops: seq<Op>, cap: nat)
    requires cap > 0
    ensures NeverBlocks(ops, cap) <==> ShortBursts(ops, 0)
  {
    hide Run, Init, Stuck, ShortBursts;
    if ShortBursts(ops, 0) {
      forall schedule: seq<nat> | Stuck(Run(Init(ops), cap, schedule), cap)
        ensures Run(Init(ops), cap, schedule).hist.done == ops
      {
        ShortBurstsNeverBlock(ops, cap, schedule);
      }
    } else {
      var schedule := LongBurstBlocks(ops, cap);
    }
  }

  /** The shortest such client: five copies. */
  lemma {:induction false} FiveCopiesBlock(op: Op, cap: nat) returns (schedule: seq<nat>)
    requires cap > 0 && IsCopy(op)
    ensures !ShortBursts([op, op, op, op, op], 0)
    ensures var t := Run(Init([op, op, op, op, op]), cap, schedule);
            Stuck(t, cap) && t.hist.done != [op, op, op, op, op]
  {
    var ops := [op, op, op, op, op];
    assert ops[1..] == [op, op, op, op] && ops[1..][1..] == [op, op, op] && ops[1..][1..][1..] == [op, op];
    assert ops[1..][1..][1..][1..] == [op];
    assert !ShortBursts([op], 4);
    assert !ShortBursts([op, op], 3) by {
      assert [op, op][1..] == [op];
    }
    assert !ShortBursts([op, op, op], 2);
    assert !ShortBursts([op, op, op, op], 1);
    schedule := LongBurstBlocks(ops, cap);
  }
}
