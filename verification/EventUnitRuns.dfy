/**
 What every run of the event unit shows, for any number of workers, any sequence
 of calls and any schedule.
 */
module EventUnitRuns {
  import opened Counting
  import opened EventUnit
  import opened EventUnitSafety

  /** What core `c` has run so far. */
  function Hist(s: State, c: nat): seq<Job>
    requires c <= |s.workers|
  {
    if c == 0 then s.master.hist else s.workers[c - 1].hist
  }

  lemma {:induction false} StepShape(s: State, core: nat)
    requires Inv(s) && CoreStep(s, core).Some?
    ensures var t := CoreStep(s, core).value;
            |t.workers| == |s.workers| && t.done + t.master.ops == s.done + s.master.ops
  {
    hide Share, Pending, ValidOps, Count, WorkersOk, CountsOk, EventOk, Pushed;
    if core == 0 && Returns(s) {
      assert s.done + s.master.ops == s.done + [s.master.ops[0]] + s.master.ops[1..];
    }
  }

  lemma {:induction false} RunShape(s: State, schedule: seq<nat>)
    requires Inv(s)
    ensures var t := Run(s, schedule);
            Inv(t) && |t.workers| == |s.workers| && t.done + t.master.ops == s.done + s.master.ops
    decreases |schedule|
  {
    hide Inv, CoreStep;
    if schedule != [] {
      if CoreStep(s, schedule[0]).Some? {
        InvStep(s, schedule[0]);
        StepShape(s, schedule[0]);
        RunShape(CoreStep(s, schedule[0]).value, schedule[1..]);
      } else {
        RunShape(s, schedule[1..]);
      }
    }
  }

  lemma {:induction false} Reached(n: nat, ops: seq<Op>, schedule: seq<nat>) returns (s: State)
    requires ValidOps(ops)
    ensures s == Run(Init(n, ops), schedule) && Inv(s) && |s.workers| == n && s.done + s.master.ops == ops
  {
    InvInit(n, ops);
    RunShape(Init(n, ops), schedule);
    s := Run(Init(n, ops), schedule);
    assert [] + ops == ops;
  }

  lemma {:induction false} WorkerAt(s: State, i: nat)
    requires Inv(s) && i < |s.workers|
    ensures WorkerOk(PhaseOf(s.master), s.workers[i], i + 1, Share(s.done, i + 1), Pending(s.done).0, Pending(s.done).1)
  {
    hide WorkerOk, Share, Pending, PhaseOf;
  }

  /**
   Between calls every core has run exactly its share: each region completed so
   far, once, in order, with the function, data and argument count pushed for it,
   if and only if its index is below the region's team size.
   */
  lemma {:induction false} RegionsRunExactlyOnce(n: nat, ops: seq<Op>, schedule: seq<nat>)
    requires ValidOps(ops)
    ensures var s := Run(Init(n, ops), schedule);
            && |s.workers| == n && s.done <= ops
            && (s.master.pc in {Boot, Idle, Done} ==> forall c: nat | c <= n :: Hist(s, c) == Share(s.done, c))
  {
    var s := Reached(n, ops, schedule);
    hide Share, Pending, ValidOps, Count, WorkersOk, CountsOk, EventOk, Run, Init;
    forall i | 0 <= i < n && s.master.pc in {Boot, Idle, Done} ensures s.workers[i].hist == Share(s.done, i + 1) {
      WorkerAt(s, i);
    }
  }

  /** At any moment a core is at most the pending region ahead of its share, and only while `eu_run_empty` runs. */
  lemma {:induction false} NeverAhead(n: nat, ops: seq<Op>, schedule: seq<nat>, c: nat)
    requires ValidOps(ops) && c <= n
    ensures var s := Run(Init(n, ops), schedule);
            && |s.workers| == n
            && (|| Hist(s, c) == Share(s.done, c)
                || (&& s.master.ops != [] && s.master.ops[0].RunEmpty?
                    && Hist(s, c) == Share(s.done, c) + Own(c, Pending(s.done).0, Pending(s.done).1)))
  {
    var s := Reached(n, ops, schedule);
    hide Share, Pending, ValidOps, Count, WorkersOk, CountsOk, EventOk, Run, Init;
    if c > 0 {
      WorkerAt(s, c - 1);
    }
  }

  /**
   A wake-up finds every worker asleep with its interrupt bit clear, so no later
   clear can erase it; and whoever clears its bit had it set.
   */
  lemma {:induction false} WakeUpsAreNotLost(n: nat, ops: seq<Op>, schedule: seq<nat>, i: nat)
    requires ValidOps(ops) && i < n
    ensures var s := Run(Init(n, ops), schedule);
            && |s.workers| == n
            && (s.master.pc in {WakeRun, WakeExit} ==> s.workers[i].pc == Sleep && !s.workers[i].irq)
            && (s.workers[i].pc == Clear ==> s.workers[i].irq)
            && (s.workers[i].irq ==> s.workers[i].pc in {Sleep, Clear})
  {
    var s := Reached(n, ops, schedule);
    hide Share, Pending, ValidOps, Count, Inv, Run, Init;
    WorkerAt(s, i);
  }

  /**
   The master writes function, data, argument count, team size and the zeroed
   finish counter only while every worker is parked without a pending interrupt,
   so that each must be woken before it can read the event again.
   */
  lemma {:induction false} EventWrittenUnobserved(n: nat, ops: seq<Op>, schedule: seq<nat>, i: nat)
    requires ValidOps(ops) && i < n
    ensures var s := Run(Init(n, ops), schedule);
            && |s.workers| == n
            && (s.master.pc in {StoreFn, StoreData, StoreArgc, StoreTeam} ==>
                  s.workers[i].pc == Sleep && !s.workers[i].irq)
            && (s.master.pc in {ClearTeam, ZeroFini} ==> s.workers[i].pc in {Park, Sleep} && !s.workers[i].irq)
  {
    var s := Reached(n, ops, schedule);
    hide Share, Pending, ValidOps, Count, Inv, Run, Init;
    WorkerAt(s, i);
  }

  /** While the master waits for `fini_count`, a worker asleep without an interrupt has run its share of the region. */
  lemma {:induction false} SleepersHaveFinished(n: nat, ops: seq<Op>, schedule: seq<nat>, i: nat)
    requires ValidOps(ops) && i < n
    ensures var s := Run(Init(n, ops), schedule);
            && |s.workers| == n
            && (s.master.pc == SpinFini && s.workers[i].pc == Sleep && !s.workers[i].irq
                ==> Hist(s, i + 1) == Share(s.done, i + 1) + Own(i + 1, Pending(s.done).0, Pending(s.done).1))
            && (s.master.pc == SpinFini ==> s.master.seen == n && s.eu.fini == Count(s.workers, Rested))
  {
    var s := Reached(n, ops, schedule);
    hide Share, Pending, ValidOps, Count, EventOk, Run, Init;
    WorkerAt(s, i);
  }

  // ----- progress

  ghost predicate Stuck(s: State) {
    forall core: nat | core <= |s.workers| :: CoreStep(s, core).None?
  }

  lemma {:induction false} StuckWorkers(s: State)
    requires Inv(s) && Stuck(s)
    ensures forall i | 0 <= i < |s.workers| ::
              s.workers[i].pc == Returned || (s.workers[i].pc == Sleep && !s.workers[i].irq)
    ensures forall i | 0 <= i < |s.workers| && s.workers[i].pc == Returned :: PhaseOf(s.master) == Leaving
    ensures forall i | 0 <= i < |s.workers| && PhaseOf(s.master) == Leaving :: s.workers[i].pc == Returned
  {
    hide Share, Pending, ValidOps, Count, EventOk, MasterOk, CountsOk, PhaseOf;
    forall i | 0 <= i < |s.workers|
      ensures s.workers[i].pc == Returned || (s.workers[i].pc == Sleep && !s.workers[i].irq)
    {
      assert CoreStep(s, i + 1).None?;
    }
  }

  lemma {:induction false} ParkedCounts(s: State)
    requires CountsOk(s) && forall i | 0 <= i < |s.workers| :: s.workers[i].pc == Sleep && !s.workers[i].irq
    ensures s.eu.wfi == |s.workers| == s.eu.inLoop
    ensures PhaseOf(s.master) == Active ==> s.eu.fini == |s.workers|
  {
    CountExtremes(s.workers, InWfi);
    CountExtremes(s.workers, InLoop);
    CountExtremes(s.workers, Rested);
    hide Count;
  }

  /**
   No deadlock: when no core can step, every call has returned and every worker
   is back asleep, or has left the event loop if the last call was `eu_exit`.
   */
  lemma {:induction false} NoDeadlock(n: nat, ops: seq<Op>, schedule: seq<nat>)
    requires ValidOps(ops) && Stuck(Run(Init(n, ops), schedule))
    ensures var s := Run(Init(n, ops), schedule);
            && s.done == ops && |s.workers| == n
            && (forall c: nat | c <= n :: Hist(s, c) == Share(ops, c))
            && (forall i | 0 <= i < n ::
                  if s.master.pc == Done then s.workers[i].pc == Returned
                  else s.workers[i].pc == Sleep && !s.workers[i].irq)
            && (s.master.pc == Done || s.master.pc == Idle)
  {
    var s := Reached(n, ops, schedule);
    RegionsRunExactlyOnce(n, ops, schedule);
    StuckWorkers(s);
    hide Share, Pending, ValidOps, Count, Run, Init, WorkersOk, EventOk, WorkerStep, Hist;
    assert MasterStep(s).None? by {
      assert CoreStep(s, 0).None?;
    }
    if s.master.pc != Done {
      ParkedCounts(s);
    }
    assert s.done + [] == s.done;
  }

  function PcRank(pc: MasterPc): nat {
    match pc
    case Boot => 31
    case Idle => 30
    case WaitLoad(r) => (match r case ToPush => 29 case ToRun => 27 case ToFlag => 28 case ToExit => 25)
    case WaitSpin(r) => (match r case ToPush => 28 case ToRun => 26 case ToFlag => 27 case ToExit => 24)
    case StoreFn => 27
    case StoreData => 26
    case StoreArgc => 25
    case StoreTeam => 24
    case LoadTeam => 29
    case ZeroFini => 28
    case WakeRun => 25
    case OwnTeam => 24
    case OwnFn => 23
    case OwnData => 22
    case OwnArgc => 21
    case OwnCall => 20
    case LoadInLoop => 19
    case SpinFini => 18
    case ClearTeam => 17
    case ExitTeam => 29
    case StoreExit => 26
    case WakeExit => 23
    case Done => 0
  }

  function WorkerRank(w: Worker): nat {
    match w.pc
    case Sleep => if w.irq then 13 else 0
    case Clear => 12
    case Unpark => 11
    case Enter => 11
    case CheckExit => 10
    case CheckTeam => 9
    case CopyTeam => 8
    case LoadFn => 7
    case LoadData => 6
    case LoadArgc => 5
    case Call => 4
    case Finish => 3
    case Park => 2
    case Returned => 0
  }

  /** The steps still possible. */
  function Fuel(s: State): nat {
    Weigh(MasterRank(s.master), 13 * |s.workers|, Sum(s.workers, WorkerRank))
  }

  function MasterRank(m: Master): nat {
    32 * |m.ops| + PcRank(m.pc)
  }

  function Weigh(a: nat, k: nat, x: nat): nat {
    a * (k + 1) + x
  }

  lemma {:induction false} MasterRankDrops(s: State)
    requires Inv(s) && MasterStep(s).Some?
    ensures var t := MasterStep(s).value;
            MasterRank(t.master) < MasterRank(s.master)
  {
    hide Share, Pending, ValidOps, Count, WorkersOk, CountsOk, EventOk, Pushed;
  }

  lemma {:induction false} WorkerRankDrops(ph: Phase, e: Eu, w: Worker, c: nat, base: seq<Job>, job: Job, team: nat)
    requires WorkerOk(ph, w, c, base, job, team) && WorkerStep(e, w, c).Some?
    ensures WorkerRank(WorkerStep(e, w, c).value.1) < WorkerRank(w)
  {
  }

  lemma {:induction false} Lexicographic(a: nat, b: nat, k: nat, x: nat, y: nat)
    requires b < a && y <= k
    ensures Weigh(b, k, y) < Weigh(a, k, x)
  {
    assert (b + 1) * (k + 1) <= a * (k + 1);
  }

  lemma {:induction false} MasterFuelDrops(s: State)
    requires Inv(s) && MasterStep(s).Some?
    ensures Fuel(MasterStep(s).value) < Fuel(s)
  {
    assert CoreStep(s, 0) == MasterStep(s);
    StepShape(s, 0);
    MasterRankDrops(s);
    hide Inv, Sum, MasterStep, CoreStep, MasterRank, WorkerRank, Weigh;
    var t := MasterStep(s).value;
    forall i | 0 <= i < |t.workers| ensures WorkerRank(t.workers[i]) <= 13 {
      RankBound(t.workers[i]);
    }
    SumBound(t.workers, WorkerRank, 13);
    Lexicographic(MasterRank(s.master), MasterRank(t.master), 13 * |s.workers|, Sum(s.workers, WorkerRank),
        Sum(t.workers, WorkerRank));
  }

  lemma {:induction false} RankBound(w: Worker)
    ensures WorkerRank(w) <= 13
  {
  }

  lemma {:induction false} WorkerFuelDrops(s: State, core: nat)
    requires Inv(s) && 0 < core <= |s.workers| && CoreStep(s, core).Some?
    ensures Fuel(CoreStep(s, core).value) < Fuel(s)
  {
    hide Share, Pending, Count, Sum, WorkerStep, EventOk, MasterOk, CountsOk, WorkerOk, MasterRank, WorkerRank, PhaseOf;
    var i := core - 1;
    var (e, w) := WorkerStep(s.eu, s.workers[i], core).value;
    SumUpdate(s.workers, WorkerRank, i, w);
    WorkerRankDrops(PhaseOf(s.master), s.eu, s.workers[i], core, Share(s.done, core), Pending(s.done).0,
        Pending(s.done).1);
  }

  /** Every step uses up fuel: no run goes on forever. */
  lemma {:induction false} FuelDrops(s: State, core: nat)
    requires Inv(s) && CoreStep(s, core).Some?
    ensures Fuel(CoreStep(s, core).value) < Fuel(s)
  {
    hide Inv, Fuel, MasterStep;
    if core == 0 {
      MasterFuelDrops(s);
    } else {
      WorkerFuelDrops(s, core);
    }
  }

  lemma {:induction false} GetsStuck(s: State) returns (schedule: seq<nat>)
    requires Inv(s)
    ensures Stuck(Run(s, schedule))
    decreases Fuel(s)
  {
    hide Inv, CoreStep, Fuel;
    if Stuck(s) {
      schedule := [];
    } else {
      var core: nat :| core <= |s.workers| && CoreStep(s, core).Some?;
      InvStep(s, core);
      FuelDrops(s, core);
      var rest := GetsStuck(CoreStep(s, core).value);
      schedule := [core] + rest;
      assert schedule[1..] == rest;
    }
  }

  lemma {:induction false} RunOn(s: State, first: seq<nat>, rest: seq<nat>)
    ensures Run(s, first + rest) == Run(Run(s, first), rest)
    decreases |first|
  {
    hide CoreStep;
    if first == [] {
      assert first + rest == rest;
    } else {
      assert (first + rest)[1..] == first[1..] + rest;
      RunOn(match CoreStep(s, first[0]) case None => s case Some(t) => t, first[1..], rest);
    }
  }

  /** However a run has begun, some schedule completes all calls, every core having run its share. */
  lemma {:induction false} Completes(n: nat, ops: seq<Op>, first: seq<nat>) returns (rest: seq<nat>)
    requires ValidOps(ops)
    ensures var s := Run(Init(n, ops), first + rest);
            s.done == ops && |s.workers| == n && Stuck(s) && forall c: nat | c <= n :: Hist(s, c) == Share(ops, c)
  {
    hide Stuck, ValidOps, Share, Hist, Init, Run, Inv;
    var s := Reached(n, ops, first);
    rest := GetsStuck(s);
    RunOn(Init(n, ops), first, rest);
    NoDeadlock(n, ops, first + rest);
  }

  // ----- leaving with a region pending

  lemma {:induction false} ExitShares(ops: seq<Op>, c: nat)
    ensures ops + [RunEmpty, Exit] == ops + [RunEmpty] + [Exit]
    ensures Share(ops + [Exit], c) == Share(ops, c)
    ensures Share(ops + [RunEmpty, Exit], c) == Share(ops, c) + Own(c, Pending(ops).0, Pending(ops).1)
  {
    hide Share, Pending, Own;
    assert ops + [RunEmpty, Exit] == ops + [RunEmpty] + [Exit];
    ShareStep(ops, Exit, c);
    ShareStep(ops, RunEmpty, c);
    ShareStep(ops + [RunEmpty], Exit, c);
  }

  /**
   `eu_exit` calls `eu_run_empty` only when there is nothing to run (eu.h:187): the
   runs that leave without running the pending region and those that run it first
   end with the same work done on every core exactly when no region is pending;
   otherwise it is missing on every core of its team.
   */
  lemma {:induction false} ExitDropsPendingRegion(n: nat, ops: seq<Op>, leaving: seq<nat>, running: seq<nat>)
    requires forall i | 0 <= i < |ops| :: !ops[i].Exit?
    requires Stuck(Run(Init(n, ops + [Exit]), leaving)) && Stuck(Run(Init(n, ops + [RunEmpty, Exit]), running))
    ensures var s, t := Run(Init(n, ops + [Exit]), leaving), Run(Init(n, ops + [RunEmpty, Exit]), running);
            && s.done == ops + [Exit] && t.done == ops + [RunEmpty, Exit] && |s.workers| == |t.workers| == n
            && (forall c: nat | c <= n :: Hist(t, c) == Hist(s, c) + Own(c, Pending(ops).0, Pending(ops).1))
            && ((forall c: nat | c <= n :: Hist(s, c) == Hist(t, c)) <==> Pending(ops).1 == 0)
  {
    hide Share, Pending, Hist, Stuck, Run, Init;
    var s, t := Run(Init(n, ops + [Exit]), leaving), Run(Init(n, ops + [RunEmpty, Exit]), running);
    NoDeadlock(n, ops + [Exit], leaving);
    NoDeadlock(n, ops + [RunEmpty, Exit], running);
    forall c: nat | c <= n ensures Hist(t, c) == Hist(s, c) + Own(c, Pending(ops).0, Pending(ops).1) {
      ExitShares(ops, c);
    }
    if Pending(ops).1 > 0 {
      assert |Hist(t, 0)| == |Hist(s, 0)| + 1;
    }
  }

  /** A region pushed for one core, then `eu_exit`: every schedule that completes both calls loses it. */
  lemma {:induction false} ExitLosesRegion(n: nat, job: Job, first: seq<nat>) returns (rest: seq<nat>)
    ensures var s := Run(Init(n, [Push(job, 1), Exit]), first + rest);
            s.done == [Push(job, 1), Exit] && |s.workers| == n && forall c: nat | c <= n :: Hist(s, c) == []
    ensures Share([Push(job, 1), RunEmpty, Exit], 0) == [job]
  {
    var p := Push(job, 1);
    assert [p] + [Exit] == [p, Exit] && [p] + [RunEmpty, Exit] == [p, RunEmpty, Exit] && [] + [p] == [p];
    assert Share([], 0) == [];
    forall c: nat ensures Share([p, Exit], c) == [] {
      ExitShares([p], c);
      ShareStep([], p, c);
    }
    PendingStep([], p);
    ExitShares([p], 0);
    ShareStep([], p, 0);
    hide Share, Hist, Run, Init, Stuck;
    rest := Completes(n, [p, Exit], first);
  }

  /** The calls an OpenMP runtime makes: every region pushed is run at once. */
  function ForkJoin(regions: seq<(Job, nat)>): seq<Op> {
    if regions == [] then []
    else
      var last := regions[|regions| - 1];
      ForkJoin(regions[..|regions| - 1]) + [Push(last.0, last.1), RunEmpty]
  }

  /** The jobs of the regions whose team includes core `c`. */
  function TeamJobs(regions: seq<(Job, nat)>, c: nat): seq<Job> {
    if regions == [] then []
    else
      var last := regions[|regions| - 1];
      TeamJobs(regions[..|regions| - 1], c) + if c < last.1 then [last.0] else []
  }

  lemma {:induction false} ForkJoinShare(regions: seq<(Job, nat)>, c: nat)
    ensures Share(ForkJoin(regions), c) == TeamJobs(regions, c)
    ensures ValidOps(ForkJoin(regions))
  {
    if regions != [] {
      var last, front := regions[|regions| - 1], regions[..|regions| - 1];
      ForkJoinShare(front, c);
      var ops, p := ForkJoin(front), Push(last.0, last.1);
      hide Share, Pending;
      assert ForkJoin(regions) == ops + [p] + [RunEmpty];
      NoExit(front);
      NoExit(regions);
      PendingStep(ops, p);
      ShareStep(ops, p, c);
      ShareStep(ops + [p], RunEmpty, c);
    }
  }

  lemma {:induction false} NoExit(regions: seq<(Job, nat)>)
    ensures forall i | 0 <= i < |ForkJoin(regions)| :: !ForkJoin(regions)[i].Exit?
  {
    if regions != [] {
      NoExit(regions[..|regions| - 1]);
    }
  }

  /**
   Fork and join: whatever the schedule, once no core can step, every core has
   run exactly the regions whose team includes it, in order, and is idle again.
   */
  lemma {:induction false} ForkJoinRuns(n: nat, regions: seq<(Job, nat)>, schedule: seq<nat>, c: nat)
    requires c <= n && Stuck(Run(Init(n, ForkJoin(regions)), schedule))
    ensures var s := Run(Init(n, ForkJoin(regions)), schedule);
            |s.workers| == n && Hist(s, c) == TeamJobs(regions, c)
  {
    ForkJoinShare(regions, c);
    hide Share, Pending, Stuck, ValidOps, Run, Init;
    NoDeadlock(n, ForkJoin(regions), schedule);
  }
}
