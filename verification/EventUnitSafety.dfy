/**
 What every interleaving of the event unit keeps, and what follows from it:
 every region runs exactly once on each core of its team before `eu_run_empty`
 returns, no wake-up is lost, and the event is written only while all workers
 are parked.
 */
module EventUnitSafety {
  import opened Counting
  import opened EventUnit

  /** What the master lets the workers do. */
  datatype Phase = Booting | Quiet | Parked | Active | Ran | Leaving

  function PhaseOf(m: Master): Phase {
    match m.pc
    case Boot => Booting
    case Idle => Quiet
    case WaitLoad(r) => if r == ToExit then Parked else Quiet
    case WaitSpin(r) => if r == ToExit then Parked else Quiet
    case StoreFn => Parked
    case StoreData => Parked
    case StoreArgc => Parked
    case StoreTeam => Parked
    case LoadTeam => Quiet
    case ZeroFini => Quiet
    case WakeRun => Parked
    case ClearTeam => Ran
    case ExitTeam => Quiet
    case StoreExit => Parked
    case WakeExit => Parked
    case Done => Leaving
    case _ => if m.team > 1 then Active else Quiet
  }

  /** Counted by `workers_wfi`. */
  predicate InWfi(w: Worker) {
    w.pc == Sleep || w.pc == Clear || w.pc == Unpark
  }

  predicate InLoop(w: Worker) {
    w.pc != Enter
  }

  /** Counted by `fini_count` while a region runs: through with the region and not woken again. */
  predicate Rested(w: Worker) {
    w.pc == Park || (w.pc == Sleep && !w.irq)
  }

  function Own(c: nat, job: Job, team: nat): seq<Job> {
    if c < team then [job] else []
  }

  /** Where worker `c` can be, `base` being what it had run before the current region. */
  predicate WorkerOk(ph: Phase, w: Worker, c: nat, base: seq<Job>, job: Job, team: nat) {
    match ph
    case Booting =>
      && !w.irq && w.hist == base
      && w.pc in {Enter, CheckExit, CheckTeam, Finish, Park, Sleep}
    case Quiet => Rested(w) && !w.irq && w.hist == base
    case Parked => w.pc == Sleep && !w.irq && w.hist == base
    case Ran => Rested(w) && !w.irq && w.hist == base + Own(c, job, team)
    case Leaving =>
      && w.hist == base
      && (if w.irq then w.pc in {Sleep, Clear} else w.pc in {Unpark, CheckExit, Returned})
    case Active =>
      match w.pc
      case Sleep => w.hist == base + if w.irq then [] else Own(c, job, team)
      case Clear => w.irq && w.hist == base
      case Unpark => !w.irq && w.hist == base
      case CheckExit => !w.irq && w.hist == base
      case CheckTeam => !w.irq && w.hist == base
      case CopyTeam => !w.irq && w.hist == base && c < team
      case LoadFn => !w.irq && w.hist == base && c < team
      case LoadData => !w.irq && w.hist == base && c < team && w.job.fn == job.fn
      case LoadArgc => !w.irq && w.hist == base && c < team && w.job.fn == job.fn && w.job.data == job.data
      case Call => !w.irq && w.hist == base && c < team && w.job == job
      case Finish => !w.irq && w.hist == base + Own(c, job, team)
      case Park => !w.irq && w.hist == base + Own(c, job, team)
      case _ => false
  }

  ghost predicate WorkersOk(s: State) {
    forall i | 0 <= i < |s.workers| ::
      WorkerOk(PhaseOf(s.master), s.workers[i], i + 1, Share(s.done, i + 1), Pending(s.done).0, Pending(s.done).1)
  }

  predicate CountsOk(s: State) {
    && s.eu.wfi == Count(s.workers, InWfi)
    && s.eu.inLoop == Count(s.workers, InLoop)
    && (PhaseOf(s.master) == Active ==> s.eu.fini == Count(s.workers, Rested))
    && (s.master.pc in {WaitLoad(ToRun), WaitSpin(ToRun), WakeRun} ==> s.eu.fini == 0)
  }

  /** The event holds the pending region, but for the fields the master is overwriting. */
  predicate EventOk(s: State) {
    var (e, m, p) := (s.eu, s.master, Pending(s.done));
    && e.nthreads == p.1
    && (e.exit <==> m.pc in {WaitLoad(ToExit), WaitSpin(ToExit), WakeExit, Done})
    && match m.pc
       case StoreData => e.job.fn == Pushed(m).job.fn
       case StoreArgc => e.job.fn == Pushed(m).job.fn && e.job.data == Pushed(m).job.data
       case StoreTeam => e.job == Pushed(m).job
       case _ => e.job == p.0
  }

  /** The call a program counter belongs to. */
  predicate InOp(pc: MasterPc, op: Op) {
    match op
    case Push(_, _) => pc in {WaitLoad(ToPush), WaitSpin(ToPush), StoreFn, StoreData, StoreArgc, StoreTeam}
    case RunEmpty =>
      pc in {LoadTeam, ZeroFini, WaitLoad(ToRun), WaitSpin(ToRun), WakeRun, OwnTeam, OwnFn, OwnData, OwnArgc, OwnCall,
             LoadInLoop, SpinFini, ClearTeam}
    case Exit => pc in {ExitTeam, WaitLoad(ToFlag), WaitSpin(ToFlag), StoreExit, WaitLoad(ToExit), WaitSpin(ToExit),
        WakeExit}
  }

  /** The calls still to make; the master is in the first of them. */
  ghost predicate CallOk(s: State) {
    var m := s.master;
    && ValidOps(m.ops)
    && (m.pc == Boot ==> s.done == [])
    && (m.pc == Done ==> m.ops == [])
    && (m.pc !in {Boot, Idle, Done} ==> m.ops != [] && InOp(m.pc, m.ops[0]))
  }

  /** The master's registers and what it has run itself. */
  predicate LocalsOk(s: State) {
    var (m, p) := (s.master, Pending(s.done));
    && (m.pc in {ZeroFini, WaitLoad(ToRun), WaitSpin(ToRun), WakeRun, OwnTeam, OwnFn, OwnData, OwnArgc, OwnCall,
                 LoadInLoop, SpinFini, ClearTeam}
        ==> m.team == p.1 > 0)
    && (m.pc in {WaitLoad(ToRun), WaitSpin(ToRun), WakeRun, SpinFini} ==> m.team > 1)
    && (m.pc.WaitSpin? || m.pc == SpinFini ==> m.seen == |s.workers|)
    && m.hist == Share(s.done, 0) + (if m.pc in {LoadInLoop, SpinFini, ClearTeam} then [p.0] else [])
    && (m.pc in {OwnData, OwnArgc, OwnCall} ==> m.job.fn == p.0.fn)
    && (m.pc in {OwnArgc, OwnCall} ==> m.job.data == p.0.data)
    && (m.pc == OwnCall ==> m.job.argc == p.0.argc)
  }

  ghost predicate MasterOk(s: State) {
    CallOk(s) && LocalsOk(s)
  }

  ghost predicate Inv(s: State) {
    WorkersOk(s) && CountsOk(s) && EventOk(s) && MasterOk(s)
  }

  lemma {:induction false} InvInit(n: nat, ops: seq<Op>)
    requires ValidOps(ops)
    ensures Inv(Init(n, ops))
  {
    var s := Init(n, ops);
    CountExtremes(s.workers, InWfi);
    CountExtremes(s.workers, InLoop);
  }

  // ----- worker steps

  /** A worker's step keeps its place in the protocol and every count. */
  lemma {:induction false} WorkerKeeps(ph: Phase, e: Eu, w: Worker, c: nat, base: seq<Job>, job: Job, team: nat)
    requires WorkerOk(ph, w, c, base, job, team) && WorkerStep(e, w, c).Some?
    requires e.nthreads == team && (ph == Booting ==> team == 0) && (ph == Active ==> e.job == job)
    requires InWfi(w) ==> e.wfi > 0
    requires ph in {Booting, Quiet, Active} ==> !e.exit
    requires ph == Leaving ==> e.exit
    ensures var (e', w') := WorkerStep(e, w, c).value;
            && WorkerOk(ph, w', c, base, job, team)
            && Kept(ph, e, w, e', w')
  {
  }

  /** The relation a worker's step leaves between the event and the one worker it moves. */
  predicate Kept(ph: Phase, e: Eu, w: Worker, e': Eu, w': Worker) {
    && (e'.nthreads, e'.job, e'.exit) == (e.nthreads, e.job, e.exit)
    && e'.wfi + (if InWfi(w) then 1 else 0) == e.wfi + (if InWfi(w') then 1 else 0)
    && e'.inLoop + (if InLoop(w) then 1 else 0) == e.inLoop + (if InLoop(w') then 1 else 0)
    && (ph == Active ==> e'.fini + (if Rested(w) then 1 else 0) == e.fini + (if Rested(w') then 1 else 0))
    && (ph in {Quiet, Parked} ==> e'.fini == e.fini)
  }

  lemma {:induction false} CountsKept(s: State, i: nat, e': Eu, w': Worker)
    requires CountsOk(s) && i < |s.workers| && Kept(PhaseOf(s.master), s.eu, s.workers[i], e', w')
    ensures CountsOk(State(e', s.master, s.workers[i := w'], s.done))
  {
    CountUpdate(s.workers, InWfi, i, w');
    CountUpdate(s.workers, InLoop, i, w');
    CountUpdate(s.workers, Rested, i, w');
    hide Count;
  }

  lemma {:induction false} WorkersKept(s: State, i: nat, e': Eu, w': Worker)
    requires WorkersOk(s) && i < |s.workers|
    requires WorkerOk(PhaseOf(s.master), w', i + 1, Share(s.done, i + 1), Pending(s.done).0, Pending(s.done).1)
    ensures WorkersOk(State(e', s.master, s.workers[i := w'], s.done))
  {
    hide WorkerOk, Share, Pending, PhaseOf;
  }

  lemma {:induction false} MasterKept(s: State, i: nat, e': Eu, w': Worker)
    requires EventOk(s) && MasterOk(s) && i < |s.workers|
    requires (e'.nthreads, e'.job, e'.exit) == (s.eu.nthreads, s.eu.job, s.eu.exit)
    ensures var t := State(e', s.master, s.workers[i := w'], s.done); EventOk(t) && MasterOk(t)
  {
    hide Share, Pending, ValidOps;
  }

  lemma {:induction false} WorkerStepKeepsInv(s: State, core: nat)
    requires Inv(s) && core > 0 && CoreStep(s, core).Some?
    ensures Inv(CoreStep(s, core).value)
  {
    hide Count, Share, Pending, WorkerStep, WorkerOk, PhaseOf, CountsOk, EventOk, MasterOk;
    var i := core - 1;
    var w := s.workers[i];
    var (e', w') := WorkerStep(s.eu, w, core).value;
    StepKept(s, i);
    CountsKept(s, i, e', w');
    WorkersKept(s, i, e', w');
    MasterKept(s, i, e', w');
  }

  lemma {:induction false} StepKept(s: State, i: nat)
    requires Inv(s) && i < |s.workers| && WorkerStep(s.eu, s.workers[i], i + 1).Some?
    ensures var (e', w') := WorkerStep(s.eu, s.workers[i], i + 1).value;
            && Kept(PhaseOf(s.master), s.eu, s.workers[i], e', w')
            && WorkerOk(PhaseOf(s.master), w', i + 1, Share(s.done, i + 1), Pending(s.done).0, Pending(s.done).1)
  {
    PhaseFacts(s);
    CountExtremes(s.workers, InWfi);
    hide Count, Share, Pending, WorkerStep, WorkerOk, PhaseOf, MasterOk;
    WorkerKeeps(PhaseOf(s.master), s.eu, s.workers[i], i + 1, Share(s.done, i + 1), Pending(s.done).0,
        Pending(s.done).1);
  }

  lemma {:induction false} PhaseFacts(s: State)
    requires EventOk(s) && MasterOk(s)
    ensures var ph := PhaseOf(s.master);
            && (ph == Booting ==> Pending(s.done).1 == 0)
            && (ph == Active ==> s.eu.job == Pending(s.done).0)
            && (ph in {Booting, Quiet, Active} ==> !s.eu.exit)
            && (ph == Leaving ==> s.eu.exit)
  {
  }

  // ----- master steps

  lemma {:induction false} PendingStep(done: seq<Op>, op: Op)
    ensures Pending(done + [op])
            == match op case Push(job, n) => (job, n) case RunEmpty => (Pending(done).0, 0) case Exit => Pending(done)
  {
    assert (done + [op])[..|done|] == done;
  }

  lemma {:induction false} ShareStep(done: seq<Op>, op: Op, c: nat)
    ensures op.RunEmpty? ==> Share(done + [op], c) == Share(done, c) + Own(c, Pending(done).0, Pending(done).1)
    ensures !op.RunEmpty? ==> Share(done + [op], c) == Share(done, c)
  {
    assert (done + [op])[..|done|] == done;
  }

  /** Moving from one phase to another without touching a worker or finishing a call. */
  predicate PhaseMove(s: State, from: Phase, to: Phase) {
    || from == to
    || (from == Booting && to == Quiet && s.eu.wfi == |s.workers|)
    || (from == Quiet && to == Parked && s.eu.wfi == |s.workers|)
    || (from == Active && to == Ran && s.eu.fini == |s.workers|)
    || (from == Quiet && to == Ran && Pending(s.done).1 <= 1)
  }

  lemma {:induction false} PhaseMoves(s: State, t: State)
    requires WorkersOk(s) && CountsOk(s)
    requires t.workers == s.workers && t.done == s.done
    requires PhaseMove(s, PhaseOf(s.master), PhaseOf(t.master))
    ensures WorkersOk(t)
  {
    CountExtremes(s.workers, InWfi);
    CountExtremes(s.workers, Rested);
    hide Count, Share, Pending, PhaseOf;
  }

  /** After boot every worker has entered its loop. */
  lemma {:induction false} AllInLoop(s: State)
    requires WorkersOk(s) && CountsOk(s) && PhaseOf(s.master) != Booting
    ensures s.eu.inLoop == |s.workers|
  {
    CountExtremes(s.workers, InLoop);
    hide Count, Share, Pending, PhaseOf;
  }

  predicate Returns(s: State) {
    s.master.pc in {StoreTeam, ClearTeam, WakeExit} || (s.master.pc == LoadTeam && s.eu.nthreads == 0)
  }

  /** Steps that neither wake a worker nor finish a call. */
  lemma {:induction false} MovesAreMoves(s: State)
    requires Inv(s) && MasterStep(s).Some? && !Returns(s) && s.master.pc != WakeRun
    ensures var t := MasterStep(s).value;
            && t.workers == s.workers && t.done == s.done
            && PhaseMove(s, PhaseOf(s.master), PhaseOf(t.master))
  {
    hide WorkersOk, Share, ValidOps, Count;
  }

  lemma {:induction false} MovesKeepCounts(s: State)
    requires Inv(s) && MasterStep(s).Some? && !Returns(s) && s.master.pc != WakeRun
    ensures CountsOk(MasterStep(s).value)
  {
    hide WorkersOk, Share, Pending, ValidOps, Count, InOp, Pushed;
  }

  lemma {:induction false} MovesKeepEvent(s: State)
    requires EventOk(s) && MasterOk(s) && MasterStep(s).Some? && !Returns(s) && s.master.pc != WakeRun
    ensures EventOk(MasterStep(s).value)
  {
    hide Share, Pending, ValidOps;
  }

  lemma {:induction false} MovesKeepCall(s: State)
    requires CallOk(s) && MasterStep(s).Some? && !Returns(s) && s.master.pc != WakeRun
    ensures CallOk(MasterStep(s).value)
  {
    hide Pushed;
  }

  lemma {:induction false} MovesKeepLocals(s: State)
    requires EventOk(s) && LocalsOk(s) && MasterStep(s).Some? && !Returns(s) && s.master.pc != WakeRun
    requires s.eu.inLoop == |s.workers| || s.master.pc == Boot
    ensures LocalsOk(MasterStep(s).value)
  {
    hide Share, Pending, Pushed;
    match s.master.pc {
      case WaitLoad(r) =>
      case WaitSpin(r) =>
      case OwnCall =>
        assert s.master.job == Pending(s.done).0;
      case _ =>
    }
  }

  lemma {:induction false} WokenWorkers(s: State, t: State)
    requires WorkersOk(s) && PhaseOf(s.master) == Parked && t.workers == Wake(s.workers)
    requires t.done == s.done && PhaseOf(t.master) in {Active, Leaving}
    ensures WorkersOk(t)
  {
    hide Share, Pending, PhaseOf;
  }

  lemma {:induction false} WokenCounts(s: State, t: State)
    requires WorkersOk(s) && CountsOk(s) && PhaseOf(s.master) == Parked
    requires t.workers == Wake(s.workers) && t.eu == s.eu && t.master.pc !in {WaitLoad(ToRun), WaitSpin(ToRun), WakeRun}
    requires PhaseOf(t.master) == Active ==> s.eu.fini == 0
    ensures CountsOk(t)
  {
    CountSame(s.workers, t.workers, InWfi);
    CountSame(s.workers, t.workers, InLoop);
    CountExtremes(t.workers, Rested);
    hide Share, Pending, PhaseOf, Count;
  }

  lemma {:induction false} WakeKeepsInv(s: State)
    requires Inv(s) && s.master.pc == WakeRun
    ensures Inv(MasterStep(s).value)
  {
    var t := MasterStep(s).value;
    hide WorkersOk, Share, Pending, Count, ValidOps;
    WokenWorkers(s, t);
    WokenCounts(s, t);
  }

  /** A call returns: what is now done is what the workers and the master have done. */
  lemma {:induction false} ReturnShape(s: State, t: State)
    requires MasterOk(s) && Returns(s) && s.master.pc != WakeExit && t == MasterStep(s).value
    ensures |t.workers| == |s.workers| && s.master.ops != [] && t.done == s.done + [s.master.ops[0]]
  {
    hide Share, Pending, ValidOps, Pushed;
  }

  lemma {:induction false} ReturnWorkers(s: State, t: State)
    requires WorkersOk(s) && EventOk(s) && MasterOk(s) && Returns(s) && s.master.pc != WakeExit
    requires t == MasterStep(s).value
    ensures WorkersOk(t)
  {
    ReturnShape(s, t);
    hide Share, Pending, ValidOps, Pushed, WorkerOk, MasterStep, EventOk, MasterOk, PhaseOf;
    forall i | 0 <= i < |t.workers|
      ensures WorkerOk(PhaseOf(t.master), t.workers[i], i + 1, Share(t.done, i + 1), Pending(t.done).0,
              Pending(t.done).1)
    {
      ShareStep(s.done, s.master.ops[0], i + 1);
      ReturnWorker(s, t, i);
    }
  }

  lemma {:induction false} ReturnWorker(s: State, t: State, i: nat)
    requires EventOk(s) && MasterOk(s) && Returns(s) && s.master.pc != WakeExit && t == MasterStep(s).value
    requires i < |s.workers| && Share(t.done, i + 1)
      == if s.master.ops[0].RunEmpty? then Share(s.done, i + 1) + Own(i + 1, Pending(s.done).0, Pending(s.done).1)
         else Share(s.done, i + 1)
    requires WorkerOk(PhaseOf(s.master), s.workers[i], i + 1, Share(s.done, i + 1), Pending(s.done).0,
             Pending(s.done).1)
    ensures WorkerOk(PhaseOf(t.master), t.workers[i], i + 1, Share(t.done, i + 1), Pending(t.done).0, Pending(t.done).1)
  {
    hide Share, Pending, ValidOps, Pushed;
  }

  lemma {:induction false} ReturnCounts(s: State, t: State)
    requires CountsOk(s) && MasterOk(s) && Returns(s) && s.master.pc != WakeExit
    requires t == MasterStep(s).value
    ensures CountsOk(t)
  {
    hide Share, Pending, ValidOps, Pushed, Count;
  }

  lemma {:induction false} ReturnEvent(s: State, t: State)
    requires EventOk(s) && MasterOk(s) && Returns(s) && t == MasterStep(s).value
    ensures EventOk(t)
  {
    hide Share, Pending, ValidOps;
    PendingStep(s.done, s.master.ops[0]);
  }

  lemma {:induction false} ReturnMaster(s: State, t: State)
    requires EventOk(s) && MasterOk(s) && Returns(s) && t == MasterStep(s).value
    ensures MasterOk(t)
  {
    hide Share, Pending, Pushed;
    PendingStep(s.done, s.master.ops[0]);
    ShareStep(s.done, s.master.ops[0], 0);
  }

  lemma {:induction false} ExitWorkers(s: State, t: State)
    requires WorkersOk(s) && CountsOk(s) && MasterOk(s) && s.master.pc == WakeExit && t == MasterStep(s).value
    ensures WorkersOk(t) && CountsOk(t)
  {
    hide Share, Pending, ValidOps, WorkersOk, CountsOk;
    PendingStep(s.done, s.master.ops[0]);
    forall c: nat ensures Share(t.done, c) == Share(s.done, c) {
      ShareStep(s.done, s.master.ops[0], c);
    }
    var u := State(t.eu, t.master, t.workers, s.done);
    WokenWorkers(s, u);
    WokenCounts(s, u);
    SameShares(u, t);
  }

  lemma {:induction false} SameShares(u: State, t: State)
    requires WorkersOk(u) && CountsOk(u) && t == State(u.eu, u.master, u.workers, t.done)
    requires Pending(t.done) == Pending(u.done) && forall c: nat :: Share(t.done, c) == Share(u.done, c)
    ensures WorkersOk(t) && CountsOk(t)
  {
    hide WorkerOk, Share, Pending, PhaseOf, Count;
  }

  lemma {:induction false} ReturnKeepsInv(s: State)
    requires Inv(s) && Returns(s)
    ensures MasterStep(s).Some? && Inv(MasterStep(s).value)
  {
    var t := MasterStep(s).value;
    ReturnEvent(s, t);
    ReturnMaster(s, t);
    if s.master.pc == WakeExit {
      ExitWorkers(s, t);
    } else {
      ReturnWorkers(s, t);
      ReturnCounts(s, t);
    }
    hide *;
  }

  lemma {:induction false} InvStep(s: State, core: nat)
    requires Inv(s) && CoreStep(s, core).Some?
    ensures Inv(CoreStep(s, core).value)
  {
    hide Inv, MasterStep, WorkerStep, PhaseMove;
    if core > 0 {
      WorkerStepKeepsInv(s, core);
    } else if s.master.pc == WakeRun {
      WakeKeepsInv(s);
    } else if Returns(s) {
      ReturnKeepsInv(s);
    } else {
      MoveKeepsInv(s);
    }
  }

  lemma {:induction false} MoveKeepsInv(s: State)
    requires Inv(s) && MasterStep(s).Some? && !Returns(s) && s.master.pc != WakeRun
    ensures Inv(MasterStep(s).value)
  {
    if s.master.pc != Boot {
      AllInLoop(s);
    }
    MovesAreMoves(s);
    MovesKeepCounts(s);
    MovesKeepEvent(s);
    MovesKeepCall(s);
    MovesKeepLocals(s);
    hide MasterStep, PhaseMove, WorkersOk, CountsOk, EventOk, CallOk, LocalsOk;
    PhaseMoves(s, MasterStep(s).value);
  }

  lemma {:induction false} InvRun(s: State, schedule: seq<nat>)
    requires Inv(s)
    ensures Inv(Run(s, schedule))
    decreases |schedule|
  {
    hide Inv, CoreStep;
    if schedule != [] {
      if CoreStep(s, schedule[0]).Some? {
        InvStep(s, schedule[0]);
        InvRun(CoreStep(s, schedule[0]).value, schedule[1..]);
      } else {
        InvRun(s, schedule[1..]);
      }
    }
  }
}
