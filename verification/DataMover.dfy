/**
 The data mover (sw/runtime/src/dm.h): one client core queues copies in a ring of
 four task slots, the data-mover core starts them on the DMA engine.

 A step is one shared access of the client, of the data-mover core, or the
 completion of one outstanding transfer, in any interleaving.  Spins and `wfi`
 are guards, memory is sequentially consistent, and `wfi` blocks until the
 interrupt bit is set (section 3.3.3 of the RISC-V Privileged Architecture v1.12
 also lets it return early; that is excluded here).
 */
module DataMover {
  import opened Wrappers
  import opened Words

  /** DM_TASK_QUEUE_SIZE */
  const SLOTS := 4

  datatype Transfer =
    | OneD(src: nat, dst: nat, size: nat, cfg: nat)
    | TwoD(src: nat, dst: nat, size: nat, sstrd: nat, dstrd: nat, nreps: nat, cfg: nat)

  /** The client's calls: dm_memcpy_async, dm_memcpy2d_async, dm_start, dm_wait. */
  datatype Op =
    | Copy(dst: nat, src: nat, n: nat)
    | Copy2D(src: nat, dst: nat, size: nat, sstrd: nat, dstrd: nat, nreps: nat, cfg: nat)
    | Start | Wait

  predicate IsCopy(op: Op) {
    op.Copy? || op.Copy2D?
  }

  /** A task slot: src, dst, size, sstrd, dstrd, nreps, cfg, twod. */
  type Task = t: seq<nat> | |t| == 8 witness [0, 0, 0, 0, 0, 0, 0, 0]

  const BLANK: Task := [0, 0, 0, 0, 0, 0, 0, 0]

  /** The field writes of a call, in the code's order (lines 278-282 and 321-328). */
  function Writes(op: Op): (w: seq<(nat, nat)>)
    ensures forall i | 0 <= i < |w| :: w[i].0 < 8
  {
    match op
    case Copy(dst, src, n) => [(0, src), (1, dst), (2, n % WORD), (7, 0), (6, 0)]
    case Copy2D(src, dst, size, sstrd, dstrd, nreps, cfg) =>
      [(0, src), (1, dst), (2, size), (3, sstrd), (4, dstrd), (5, nreps), (7, 1), (6, cfg)]
    case _ => []
  }

  /** The transfer a call asks for. */
  function TransferOf(op: Op): Transfer
    requires IsCopy(op)
  {
    match op
    case Copy(dst, src, n) => OneD(src, dst, n % WORD, 0)
    case Copy2D(src, dst, size, sstrd, dstrd, nreps, cfg) => TwoD(src, dst, size, sstrd, dstrd, nreps, cfg)
  }

  /** The fields the data mover loads, in the code's order (lines 189-197). */
  function Fields(twod: bool): (f: seq<nat>)
    ensures forall i | 0 <= i < |f| :: f[i] < 8
    ensures |f| == if twod then 7 else 4
  {
    if twod then [0, 1, 2, 3, 4, 5, 6] else [0, 1, 2, 6]
  }

  function Assemble(twod: bool, v: seq<nat>): Transfer
    requires |v| == |Fields(twod)|
  {
    if twod then TwoD(v[0], v[1], v[2], v[3], v[4], v[5], v[6]) else OneD(v[0], v[1], v[2], v[3])
  }

  datatype Ret = FromStart | FromWait | FromRequest

  datatype ClientPc =
    | Idle | PollFill | Lock | Write(k: nat) | BumpFill | BumpFront | Unlock
    | WakeSpin(ret: Ret) | WakeSet(ret: Ret)
    | SpinFill | SpinStat | LockStat | ClearValid | Request | SpinValid | UnlockStat

  datatype MoverPc =
    | CheckFill | WaitReady | LoadTwod | Load(k: nat) | Issue | BumpBack | DropFill
    | CheckStat | CheckBusy | SetValid | ClearStat
    | SleepFill | SleepStat | IncWfi | Wfi | ClearIrq | DecWfi

  /** The shared `dm_t` and the data mover's interrupt bit; `statQ` is a pending STAT_WAIT_IDLE. */
  datatype Shared = Shared(queue: seq<Task>, back: nat, front: nat, fill: nat, mutex: bool, statQ: bool, pvalid: bool,
                           dmWfi: nat, irq: bool)

  datatype Client = Client(pc: ClientPc, ops: seq<Op>)

  datatype Mover = Mover(pc: MoverPc, twod: bool, values: seq<nat>)

  /** What happened so far: transfers queued and started in order, completed ones, copies since the last wake-up. */
  datatype History = History(queued: seq<Transfer>, started: seq<Transfer>, completed: multiset<Transfer>, since: nat,
                             done: seq<Op>)

  datatype State = State(sh: Shared, client: Client, mover: Mover, outstanding: seq<Transfer>, hist: History)

  function Init(ops: seq<Op>): State {
    State(Shared([BLANK, BLANK, BLANK, BLANK], 0, 0, 0, false, false, false, 0, false),
          Client(Idle, ops), Mover(CheckFill, false, []), [], History([], [], multiset{}, 0, []))
  }

  function OpStart(op: Op): ClientPc {
    match op case Start => WakeSpin(FromStart) case Wait => WakeSpin(FromWait) case _ => PollFill
  }

  function Return(s: State, sh: Shared): State {
    if s.client.ops == [] then s
    else State(sh, Client(Idle, s.client.ops[1..]), s.mover, s.outstanding,
               s.hist.(done := s.hist.done + [s.client.ops[0]]))
  }

  function At(s: State, sh: Shared, pc: ClientPc): State {
    State(sh, Client(pc, s.client.ops), s.mover, s.outstanding, s.hist)
  }

  /** A step of the client (lines 138-143, 263-336 and 347-372). */
  function ClientStep(s: State): Option<State> {
    var (sh, c) := (s.sh, s.client);
    if c.pc == Idle then (if c.ops == [] then None else Some(At(s, sh, OpStart(c.ops[0]))))
    else if c.ops == [] then None
    else
      match c.pc
      case PollFill => if sh.fill >= SLOTS then None else Some(At(s, sh, Lock))
      case Lock => if sh.mutex then None else Some(At(s, sh.(mutex := true), Write(0)))
      case Write(k) =>
        var w := Writes(c.ops[0]);
        if k >= |w| || sh.front >= |sh.queue| then None
        else
          var task: Task := sh.queue[sh.front][w[k].0 := w[k].1];
          Some(At(s, sh.(queue := sh.queue[sh.front := task]), if k + 1 < |w| then Write(k + 1) else BumpFill))
      case BumpFill =>
        if !IsCopy(c.ops[0]) then None
        else Some(State(sh.(fill := sh.fill + 1), Client(BumpFront, c.ops), s.mover, s.outstanding,
                        s.hist.(queued := s.hist.queued + [TransferOf(c.ops[0])], since := s.hist.since + 1)))
      case BumpFront => Some(At(s, sh.(front := (sh.front + 1) % SLOTS), Unlock))
      case Unlock => Some(Return(s, sh.(mutex := false)))
      case WakeSpin(r) => if sh.dmWfi == 0 then None else Some(At(s, sh, WakeSet(r)))
      case WakeSet(r) =>
        var t := State(sh.(irq := true), Client(if r == FromWait then SpinFill else SpinValid, c.ops), s.mover,
                       s.outstanding, s.hist.(since := 0));
        Some(if r == FromStart then Return(t, t.sh) else t)
      case SpinFill => if sh.fill != 0 then None else Some(At(s, sh, SpinStat))
      case SpinStat => if sh.statQ then None else Some(At(s, sh, LockStat))
      case LockStat => if sh.mutex then None else Some(At(s, sh.(mutex := true), ClearValid))
      case ClearValid => Some(At(s, sh.(pvalid := false), Request))
      case Request => Some(At(s, sh.(statQ := true), WakeSpin(FromRequest)))
      case SpinValid => if !sh.pvalid then None else Some(At(s, sh, UnlockStat))
      case UnlockStat => Some(Return(s, sh.(mutex := false)))
  }

  function Moves(s: State, sh: Shared, pc: MoverPc): State {
    State(sh, s.client, s.mover.(pc := pc), s.outstanding, s.hist)
  }

  /** A step of the data-mover core (lines 182-232 and 132-137); the engine takes `cap` outstanding transfers. */
  function MoverStep(s: State, cap: nat): Option<State> {
    var (sh, m) := (s.sh, s.mover);
    match m.pc
    case CheckFill => Some(Moves(s, sh, if sh.fill != 0 then WaitReady else CheckStat))
    case WaitReady => if |s.outstanding| >= cap then None else Some(Moves(s, sh, LoadTwod))
    case LoadTwod =>
      if sh.back >= |sh.queue| then None
      else Some(State(sh, s.client, Mover(Load(0), sh.queue[sh.back][7] != 0, []), s.outstanding, s.hist))
    case Load(k) =>
      var f := Fields(m.twod);
      if k >= |f| || sh.back >= |sh.queue| then None
      else
        var next := if k + 1 < |f| then Load(k + 1) else Issue;
        Some(State(sh, s.client, Mover(next, m.twod, m.values + [sh.queue[sh.back][f[k]]]), s.outstanding, s.hist))
    case Issue =>
      if |m.values| != |Fields(m.twod)| then None
      else
        var t := Assemble(m.twod, m.values);
        Some(State(sh, s.client, m.(pc := BumpBack), s.outstanding + [t], s.hist.(started := s.hist.started + [t])))
    case BumpBack => Some(Moves(s, sh.(back := (sh.back + 1) % SLOTS), DropFill))
    case DropFill => Some(Moves(s, sh.(fill := if sh.fill > 0 then sh.fill - 1 else WORD - 1), CheckStat))
    case CheckStat => Some(Moves(s, sh, if sh.statQ then CheckBusy else SleepFill))
    case CheckBusy => Some(Moves(s, sh, if s.outstanding == [] then SetValid else SleepFill))
    case SetValid => Some(Moves(s, sh.(pvalid := true), ClearStat))
    case ClearStat => Some(Moves(s, sh.(statQ := false), SleepFill))
    case SleepFill => Some(Moves(s, sh, if sh.fill == 0 then SleepStat else CheckFill))
    case SleepStat => Some(Moves(s, sh, if sh.statQ then CheckFill else IncWfi))
    case IncWfi => Some(Moves(s, sh.(dmWfi := sh.dmWfi + 1), Wfi))
    case Wfi => if sh.irq then Some(Moves(s, sh, ClearIrq)) else None
    case ClearIrq => Some(Moves(s, sh.(irq := false), DecWfi))
    case DecWfi => Some(Moves(s, sh.(dmWfi := if sh.dmWfi > 0 then sh.dmWfi - 1 else WORD - 1), CheckFill))
  }

  /** The engine completes its `i`-th outstanding transfer. */
  function EngineStep(s: State, i: nat): Option<State> {
    if i >= |s.outstanding| then None
    else
      Some(State(s.sh, s.client, s.mover, s.outstanding[..i] + s.outstanding[i + 1..],
                 s.hist.(completed := s.hist.completed + multiset{s.outstanding[i]})))
  }

  /** Actor 0 is the client, 1 the data-mover core, `i + 2` the completion of transfer `i`. */
  function ActorStep(s: State, cap: nat, actor: nat): Option<State> {
    if actor == 0 then ClientStep(s) else if actor == 1 then MoverStep(s, cap) else EngineStep(s, actor - 2)
  }

  function Run(s: State, cap: nat, schedule: seq<nat>): State
    decreases |schedule|
  {
    if schedule == [] then s
    else Run(match ActorStep(s, cap, schedule[0]) case None => s case Some(t) => t, cap, schedule[1..])
  }

  /** The transfers some calls ask for, in order. */
  function Transfers(ops: seq<Op>): seq<Transfer> {
    if ops == [] then []
    else
      var last := ops[|ops| - 1];
      Transfers(ops[..|ops| - 1]) + if IsCopy(last) then [TransferOf(last)] else []
  }
}
