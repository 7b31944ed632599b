/**
 The OpenMP event unit (sw/runtime/src/omp/eu.h): one master core forks parallel
 regions to parked worker cores.

 The protocol is a state machine.  A step is one shared access of one core; a
 spin loop and `wfi` are guards, so a core whose guard is false has no step.
 Memory is sequentially consistent, each core has one sticky interrupt bit, and
 `wfi` blocks until that bit is set (section 3.3.3 of the RISC-V Privileged
 Architecture v1.12 also lets it return early; that is excluded here).
 */
module EventUnit {
  import opened Wrappers

  /** What a region calls: `fn(data, argc)`. */
  datatype Job = Job(fn: nat, data: nat, argc: nat)

  /** The calls the master makes. */
  datatype Op = Push(job: Job, nthreads: nat) | RunEmpty | Exit

  /** The shared `eu_t`. */
  datatype Eu = Eu(inLoop: nat, wfi: nat, exit: bool, fini: nat, nthreads: nat, job: Job)

  datatype WorkerPc =
    | Enter | CheckExit | CheckTeam | CopyTeam | LoadFn | LoadData | LoadArgc | Call
    | Finish | Park | Sleep | Clear | Unpark | Returned

  /** A worker core, its interrupt bit, the arguments it has loaded and the jobs it has run. */
  datatype Worker = Worker(pc: WorkerPc, irq: bool, job: Job, hist: seq<Job>)

  /** Where `wait_worker_wfi` returns to. */
  datatype Ret = ToPush | ToRun | ToFlag | ToExit

  datatype MasterPc =
    | Boot | Idle | WaitLoad(ret: Ret) | WaitSpin(ret: Ret)
    | StoreFn | StoreData | StoreArgc | StoreTeam
    | LoadTeam | ZeroFini | WakeRun | OwnTeam | OwnFn | OwnData | OwnArgc | OwnCall | LoadInLoop | SpinFini | ClearTeam
    | ExitTeam | StoreExit | WakeExit | Done

  /** The master, its two scratch registers and the calls it has still to make, the current one first. */
  datatype Master = Master(pc: MasterPc, team: nat, seen: nat, job: Job, ops: seq<Op>, hist: seq<Job>)

  /** `done` records the completed calls. */
  datatype State = State(eu: Eu, master: Master, workers: seq<Worker>, done: seq<Op>)

  const NO_JOB := Job(0, 0, 0)

  function Init(workers: nat, ops: seq<Op>): State {
    State(Eu(0, 0, false, 0, 0, NO_JOB), Master(Boot, 0, 0, NO_JOB, ops, []),
          seq(workers, _ => Worker(Enter, false, NO_JOB, [])), [])
  }

  /** A step of the worker with core index `c` (lines 199-242 and 127-132). */
  function WorkerStep(e: Eu, w: Worker, c: nat): Option<(Eu, Worker)> {
    match w.pc
    case Enter => Some((e.(inLoop := e.inLoop + 1), w.(pc := CheckExit)))
    case CheckExit => Some((e, w.(pc := if e.exit then Returned else CheckTeam)))
    case CheckTeam => Some((e, w.(pc := if c < e.nthreads then CopyTeam else Finish)))
    case CopyTeam => Some((e, w.(pc := LoadFn)))
    case LoadFn => Some((e, w.(pc := LoadData, job := w.job.(fn := e.job.fn))))
    case LoadData => Some((e, w.(pc := LoadArgc, job := w.job.(data := e.job.data))))
    case LoadArgc => Some((e, w.(pc := Call, job := w.job.(argc := e.job.argc))))
    case Call => Some((e, w.(pc := Finish, hist := w.hist + [w.job])))
    case Finish => Some((e.(fini := e.fini + 1), w.(pc := Park)))
    case Park => Some((e.(wfi := e.wfi + 1), w.(pc := Sleep)))
    case Sleep => if w.irq then Some((e, w.(pc := Clear))) else None
    case Clear => Some((e, w.(pc := Unpark, irq := false)))
    case Unpark => Some((e.(wfi := if e.wfi > 0 then e.wfi - 1 else 0xFFFF_FFFF), w.(pc := CheckExit)))
    case Returned => None
  }

  function Wake(ws: seq<Worker>): (r: seq<Worker>)
    ensures |r| == |ws| && forall i | 0 <= i < |ws| :: r[i] == ws[i].(irq := true)
  {
    seq(|ws|, i requires 0 <= i < |ws| => ws[i].(irq := true))
  }

  function AfterWait(ret: Ret): MasterPc {
    match ret case ToPush => StoreFn case ToRun => WakeRun case ToFlag => StoreExit case ToExit => WakeExit
  }

  function OpStart(op: Op): MasterPc {
    match op case Push(_, _) => WaitLoad(ToPush) case RunEmpty => LoadTeam case Exit => ExitTeam
  }

  /** The current call returns. */
  function Return(s: State, pc: MasterPc): State {
    if s.master.ops == [] then s
    else State(s.eu, s.master.(pc := pc, ops := s.master.ops[1..]), s.workers, s.done + [s.master.ops[0]])
  }

  /** The job of the call `eu_dispatch_push` being made. */
  function Pushed(m: Master): Op {
    if m.ops != [] && m.ops[0].Push? then m.ops[0] else Push(NO_JOB, 0)
  }

  /** A step of the master (lines 64-68, 119-126, 185-192, 253-303; omp.c:117 for `Boot`). */
  function MasterStep(s: State): Option<State> {
    var (e, m) := (s.eu, s.master);
    match m.pc
    case Boot => if e.wfi == |s.workers| then Some(s.(master := m.(pc := Idle))) else None
    case Idle => if m.ops == [] then None else Some(s.(master := m.(pc := OpStart(m.ops[0]))))
    case WaitLoad(r) => Some(s.(master := m.(pc := WaitSpin(r), seen := e.inLoop)))
    case WaitSpin(r) => if e.wfi == m.seen then Some(s.(master := m.(pc := AfterWait(r)))) else None
    case StoreFn => Some(s.(eu := e.(job := e.job.(fn := Pushed(m).job.fn)), master := m.(pc := StoreData)))
    case StoreData => Some(s.(eu := e.(job := e.job.(data := Pushed(m).job.data)), master := m.(pc := StoreArgc)))
    case StoreArgc => Some(s.(eu := e.(job := e.job.(argc := Pushed(m).job.argc)), master := m.(pc := StoreTeam)))
    case StoreTeam => Some(Return(s.(eu := e.(nthreads := Pushed(m).nthreads)), Idle))
    case LoadTeam =>
      if e.nthreads == 0 then Some(Return(s.(master := m.(team := 0)), Idle))
      else Some(s.(master := m.(pc := ZeroFini, team := e.nthreads)))
    case ZeroFini =>
      Some(s.(eu := e.(fini := 0), master := m.(pc := if m.team > 1 then WaitLoad(ToRun) else OwnTeam)))
    case WakeRun => Some(s.(workers := Wake(s.workers), master := m.(pc := OwnTeam)))
    case OwnTeam => Some(s.(master := m.(pc := if 0 < e.nthreads then OwnFn else LoadInLoop)))
    case OwnFn => Some(s.(master := m.(pc := OwnData, job := m.job.(fn := e.job.fn))))
    case OwnData => Some(s.(master := m.(pc := OwnArgc, job := m.job.(data := e.job.data))))
    case OwnArgc => Some(s.(master := m.(pc := OwnCall, job := m.job.(argc := e.job.argc))))
    case OwnCall => Some(s.(master := m.(pc := LoadInLoop, hist := m.hist + [m.job])))
    case LoadInLoop => Some(s.(master := if m.team > 1 then m.(pc := SpinFini, seen := e.inLoop)
        else m.(pc := ClearTeam)))
    case SpinFini => if e.fini == m.seen then Some(s.(master := m.(pc := ClearTeam))) else None
    case ClearTeam => Some(Return(s.(eu := e.(nthreads := 0)), Idle))
    case ExitTeam => Some(s.(master := m.(pc := WaitLoad(ToFlag))))
    case StoreExit => Some(s.(eu := e.(exit := true), master := m.(pc := WaitLoad(ToExit))))
    case WakeExit => Some(Return(s.(workers := Wake(s.workers)), Done))
    case Done => None
  }

  /** Core 0 is the master, core `c` worker `c - 1`; `None` when the core is blocked or has returned. */
  function CoreStep(s: State, core: nat): Option<State> {
    if core == 0 then MasterStep(s)
    else if core > |s.workers| then None
    else
      var (e, w) :- WorkerStep(s.eu, s.workers[core - 1], core);
      Some(State(e, s.master, s.workers[core - 1 := w], s.done))
  }

  /** A run under a schedule; a blocked core's turn passes. */
  function Run(s: State, schedule: seq<nat>): State
    decreases |schedule|
  {
    if schedule == [] then s
    else Run(match CoreStep(s, schedule[0]) case None => s case Some(t) => t, schedule[1..])
  }

  // ----- what the calls promise

  /** The region pushed and not yet run after some calls: its job and its team size, 0 when there is none. */
  function Pending(done: seq<Op>): (Job, nat) {
    if done == [] then (NO_JOB, 0)
    else
      var last, p := done[|done| - 1], Pending(done[..|done| - 1]);
      match last case Push(job, n) => (job, n) case RunEmpty => (p.0, 0) case Exit => p
  }

  /** What core `c` runs if every region is run exactly once by each core of its team. */
  function Share(done: seq<Op>, c: nat): seq<Job> {
    if done == [] then []
    else
      var front := done[..|done| - 1];
      Share(front, c) + if done[|done| - 1].RunEmpty? then Contribution(front, c) else []
  }

  function Contribution(done: seq<Op>, c: nat): seq<Job> {
    if c < Pending(done).1 then [Pending(done).0] else []
  }

  /** `eu_exit` is the last call the master makes. */
  ghost predicate ValidOps(ops: seq<Op>) {
    forall i | 0 <= i < |ops| - 1 :: !ops[i].Exit?
  }
}
