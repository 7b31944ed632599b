/**
 What the copies do to memory.  The engine moves a transfer's bytes, row after
 row, when it completes it; the queue and the engine's order do not show as long
 as no copy writes what another reads or writes.
 */
module DataMoverMemory {
  import opened Words
  import opened DataMover
  import opened DataMoverRuns

  type Memory = nat -> nat

  /** Byte `i` of row `r` of a region of rows `stride` apart. */
  function Cell(base: nat, stride: nat, r: nat, i: nat): nat {
    base + r * stride + i
  }

  function Rows(t: Transfer): nat {
    if t.TwoD? then t.nreps else 1
  }

  function From(t: Transfer, r: nat, i: nat): nat {
    Cell(t.src, if t.TwoD? then t.sstrd else 0, r, i)
  }

  function To(t: Transfer, r: nat, i: nat): nat {
    Cell(t.dst, if t.TwoD? then t.dstrd else 0, r, i)
  }

  function Stored(m: Memory, a: nat, v: nat): Memory {
    b => if b == a then v else m(b)
  }

  /** Memory after `r` rows of a transfer and `i` bytes of the next. */
  function Moved(m: Memory, t: Transfer, r: nat, i: nat): Memory
    decreases r, i
  {
    if i > 0 then
      var m' := Moved(m, t, r, i - 1);
      Stored(m', To(t, r, i - 1), m'(From(t, r, i - 1)))
    else if r > 0 then Moved(m, t, r - 1, t.size)
    else m
  }

  function Effect(m: Memory, t: Transfer): Memory {
    Moved(m, t, Rows(t), 0)
  }

  /** The memory after a run: only completed transfers touch it. */
  function MemoryAfter(s: State, m: Memory, cap: nat, schedule: seq<nat>): Memory
    decreases |schedule|
  {
    if schedule == [] then m
    else
      match ActorStep(s, cap, schedule[0])
      case None => MemoryAfter(s, m, cap, schedule[1..])
      case Some(t) =>
        MemoryAfter(t, if schedule[0] < 2 then m else Effect(m, s.outstanding[schedule[0] - 2]), cap, schedule[1..])
  }

  ghost predicate Reads(t: Transfer, a: nat) {
    exists r: nat, i: nat :: r < Rows(t) && i < t.size && From(t, r, i) == a
  }

  ghost predicate Overwrites(t: Transfer, a: nat) {
    exists r: nat, i: nat :: r < Rows(t) && i < t.size && To(t, r, i) == a
  }

  /** No transfer writes a byte twice. */
  ghost predicate RowsApart(t: Transfer) {
    forall r: nat, i: nat, q: nat, j: nat ::
      r < Rows(t) && q < Rows(t) && i < t.size && j < t.size && To(t, r, i) == To(t, q, j) ==> r == q && i == j
  }

  /** What `t` writes is not read by `u`, and not written by it either unless both are the same transfer. */
  ghost predicate Apart(t: Transfer, u: Transfer) {
    forall a: nat :: Overwrites(t, a) ==> !Reads(u, a) && (t == u || !Overwrites(u, a))
  }

  ghost predicate Independent(ts: seq<Transfer>) {
    && (forall j | 0 <= j < |ts| :: RowsApart(ts[j]))
    && (forall j, k | 0 <= j < |ts| && 0 <= k < |ts| :: Apart(ts[j], ts[k]))
  }

  /** The transfer's destination holds what its source held. */
  ghost predicate Holds(t: Transfer, before: Memory, after: Memory) {
    forall r: nat, i: nat :: r < Rows(t) && i < t.size ==> after(To(t, r, i)) == before(From(t, r, i))
  }

  // ----- one transfer

  ghost predicate Earlier(r: nat, i: nat, q: nat, j: nat) {
    r < q || (r == q && i < j)
  }

  lemma {:induction false} MovedSpares(m: Memory, t: Transfer, q: nat, j: nat, a: nat)
    requires (q < Rows(t) && j <= t.size) || (q == Rows(t) && j == 0)
    requires !Overwrites(t, a)
    ensures Moved(m, t, q, j)(a) == m(a)
    decreases q, j
  {
    hide Cell;
    if j > 0 {
      MovedSpares(m, t, q, j - 1, a);
      assert To(t, q, j - 1) != a;
    } else if q > 0 {
      MovedSpares(m, t, q - 1, t.size, a);
    }
  }

  lemma {:induction false} MovedHolds(m: Memory, t: Transfer, q: nat, j: nat, r: nat, i: nat)
    requires (q < Rows(t) && j <= t.size) || (q == Rows(t) && j == 0)
    requires RowsApart(t) && Apart(t, t)
    requires r < Rows(t) && i < t.size && Earlier(r, i, q, j)
    ensures Moved(m, t, q, j)(To(t, r, i)) == m(From(t, r, i))
    decreases q, j
  {
    hide Cell, To, From;
    if j > 0 {
      if r == q && i == j - 1 {
        SourceUnwritten(t, r, i);
        MovedSpares(m, t, q, j - 1, From(t, r, i));
      } else {
        MovedHolds(m, t, q, j - 1, r, i);
        assert To(t, r, i) != To(t, q, j - 1);
      }
    } else {
      MovedHolds(m, t, q - 1, t.size, r, i);
    }
  }

  lemma {:induction false} SourceUnwritten(t: Transfer, r: nat, i: nat)
    requires Apart(t, t) && r < Rows(t) && i < t.size
    ensures !Overwrites(t, From(t, r, i))
  {
    hide From, To;
    assert Reads(t, From(t, r, i));
  }

  lemma {:induction false} EffectHolds(m: Memory, t: Transfer)
    requires RowsApart(t) && Apart(t, t)
    ensures Holds(t, m, Effect(m, t))
  {
    hide From, To, Moved, RowsApart, Apart;
    forall r: nat, i: nat | r < Rows(t) && i < t.size ensures Effect(m, t)(To(t, r, i)) == m(From(t, r, i)) {
      MovedHolds(m, t, Rows(t), 0, r, i);
    }
  }

  // ----- runs

  /** The completed transfers hold, and nothing else has changed. */
  ghost predicate Delivering(done: multiset<Transfer>, before: Memory, m: Memory) {
    && (forall t | t in done :: Holds(t, before, m))
    && (forall a: nat :: m(a) == before(a) || exists t :: t in done && Overwrites(t, a))
  }

  lemma {:induction false} OthersHold(t: Transfer, x: Transfer, before: Memory, m: Memory)
    requires Holds(t, before, m) && Apart(t, x) && t != x
    ensures Holds(t, before, Effect(m, x))
  {
    hide From, To, Moved;
    forall r: nat, i: nat | r < Rows(t) && i < t.size ensures Effect(m, x)(To(t, r, i)) == before(From(t, r, i)) {
      assert Overwrites(t, To(t, r, i));
      MovedSpares(m, x, Rows(x), 0, To(t, r, i));
    }
  }

  lemma {:induction false} NewHolds(done: multiset<Transfer>, x: Transfer, before: Memory, m: Memory)
    requires Delivering(done, before, m) && RowsApart(x) && Apart(x, x) && forall t | t in done :: Apart(t, x)
    ensures Holds(x, before, Effect(m, x))
  {
    EffectHolds(m, x);
    hide From, To, Effect, RowsApart;
    forall r: nat, i: nat | r < Rows(x) && i < x.size ensures m(From(x, r, i)) == before(From(x, r, i)) {
      assert Reads(x, From(x, r, i));
    }
  }

  lemma {:induction false} Completing(done: multiset<Transfer>, x: Transfer, before: Memory, m: Memory)
    requires Delivering(done, before, m) && RowsApart(x) && Apart(x, x) && forall t | t in done :: Apart(t, x)
    ensures Delivering(done + multiset{x}, before, Effect(m, x))
  {
    NewHolds(done, x, before, m);
    hide Holds, Overwrites, Reads, RowsApart, Apart, Moved;
    forall t | t in done + multiset{x} ensures Holds(t, before, Effect(m, x)) {
      if t != x {
        OthersHold(t, x, before, m);
      }
    }
    forall a: nat
      ensures Effect(m, x)(a) == before(a) || exists t :: t in done + multiset{x} && Overwrites(t, a)
    {
      if Overwrites(x, a) {
        assert x in done + multiset{x};
      } else {
        MovedSpares(m, x, Rows(x), 0, a);
        if m(a) != before(a) {
          var t :| t in done && Overwrites(t, a);
          assert t in done + multiset{x};
        }
      }
    }
  }

  lemma {:induction false} TransfersGrow(done: seq<Op>, more: seq<Op>)
    ensures Transfers(done) <= Transfers(done + more)
  {
    if more == [] {
      assert done + more == done;
    } else {
      var last := |more| - 1;
      TransfersGrow(done, more[..last]);
      assert done + more == done + more[..last] + [more[last]];
      TransfersSnoc(done + more[..last], more[last]);
    }
  }

  /** Everything started is one of the transfers the program asks for. */
  lemma {:induction false} StartedIsAsked(s: State, ops: seq<Op>, t: Transfer)
    requires Inv(s) && s.hist.done + s.client.ops == ops && (t in s.outstanding || t in s.hist.completed)
    ensures t in Transfers(ops)
  {
    assert t in multiset(s.hist.started);
    assert t in s.hist.queued;
    QueuedIsAsked(s, ops);
  }

  lemma {:induction false} QueuedIsAsked(s: State, ops: seq<Op>)
    requires DoneOk(s) && s.hist.done + s.client.ops == ops
    ensures s.hist.queued <= Transfers(ops)
  {
    hide Transfers, TransferOf;
    var done, more := s.hist.done, s.client.ops;
    if s.client.pc in {BumpFront, Unlock} {
      TransfersSnoc(done, more[0]);
      TransfersGrow(done + [more[0]], more[1..]);
      assert done + more == done + [more[0]] + more[1..];
    } else {
      TransfersGrow(done, more);
    }
  }

  /** The transfer has the fields of the call. */
  predicate Asks(op: Op, t: Transfer) {
    match op
    case Copy(dst, src, n) => t.OneD? && t.src == src && t.dst == dst && t.size == n % WORD && t.cfg == 0
    case Copy2D(src, dst, size, sstrd, dstrd, nreps, cfg) =>
      && t.TwoD? && t.src == src && t.dst == dst && t.size == size && t.sstrd == sstrd && t.dstrd == dstrd
      && t.nreps == nreps && t.cfg == cfg
    case _ => false
  }

  lemma {:induction false} AskedBy(ops: seq<Op>, t: Transfer) returns (op: Op)
    requires t in Transfers(ops)
    ensures op in ops && Asks(op, t)
  {
    var last := |ops| - 1;
    if IsCopy(ops[last]) && t == TransferOf(ops[last]) {
      op := ops[last];
    } else {
      op := AskedBy(ops[..last], t);
    }
  }

  /** Every transfer started is asked for by one of the calls, in every field. */
  lemma {:induction false} StartedAsAsked(ops: seq<Op>, cap: nat, schedule: seq<nat>, t: Transfer) returns (op: Op)
    requires t in Run(Init(ops), cap, schedule).hist.started
    ensures op in ops && Asks(op, t)
  {
    var s := Run(Init(ops), cap, schedule);
    Reached(ops, cap, schedule);
    assert t in s.hist.queued;
    hide *;
    QueuedIsAsked(s, ops);
    op := AskedBy(ops, t);
  }

  lemma {:induction false} IndependentPair(ts: seq<Transfer>, t: Transfer, x: Transfer)
    requires Independent(ts) && t in ts && x in ts
    ensures RowsApart(x) && Apart(t, x)
  {
    hide RowsApart, Apart;
  }

  lemma {:induction false} EngineDelivers(s: State, ops: seq<Op>, i: nat, before: Memory, m: Memory)
    requires Inv(s) && s.hist.done + s.client.ops == ops && Independent(Transfers(ops)) && i < |s.outstanding|
    requires Delivering(s.hist.completed, before, m)
    ensures Delivering(s.hist.completed + multiset{s.outstanding[i]}, before, Effect(m, s.outstanding[i]))
  {
    var x := s.outstanding[i];
    hide Inv, Independent, Delivering, RowsApart, Apart, Effect, Transfers;
    StartedIsAsked(s, ops, x);
    IndependentPair(Transfers(ops), x, x);
    forall t | t in s.hist.completed ensures Apart(t, x) {
      StartedIsAsked(s, ops, t);
      IndependentPair(Transfers(ops), t, x);
    }
    Completing(s.hist.completed, x, before, m);
  }

  lemma {:induction false} OthersSpareMemory(s: State, cap: nat, actor: nat)
    requires ActorStep(s, cap, actor).Some?
    ensures actor < 2 ==> ActorStep(s, cap, actor).value.hist.completed == s.hist.completed
    ensures actor >= 2 ==> actor - 2 < |s.outstanding|
    ensures actor >= 2 ==>
              ActorStep(s, cap, actor).value.hist.completed == s.hist.completed + multiset{s.outstanding[actor - 2]}
  {
    hide Writes, TransferOf, Fields, Assemble;
  }

  lemma {:induction false} RunDelivers(s: State, ops: seq<Op>, cap: nat, schedule: seq<nat>, before: Memory, m: Memory)
    requires Inv(s) && s.hist.done + s.client.ops == ops && Independent(Transfers(ops))
    requires Delivering(s.hist.completed, before, m)
    ensures Delivering(Run(s, cap, schedule).hist.completed, before, MemoryAfter(s, m, cap, schedule))
    decreases |schedule|
  {
    hide Inv, Independent, Delivering, Effect, Transfers, ActorStep;
    if schedule != [] {
      match ActorStep(s, cap, schedule[0]) {
        case None => RunDelivers(s, ops, cap, schedule[1..], before, m);
        case Some(t) =>
          InvStep(s, cap, schedule[0]);
          StepShape(s, cap, schedule[0]);
          OthersSpareMemory(s, cap, schedule[0]);
          if schedule[0] < 2 {
            RunDelivers(t, ops, cap, schedule[1..], before, m);
          } else {
            var i := schedule[0] - 2;
            EngineDelivers(s, ops, i, before, m);
            RunDelivers(t, ops, cap, schedule[1..], before, Effect(m, s.outstanding[i]));
          }
      }
    }
  }

  /** What the caller of a copy wants of the memory: the size of a 1-D copy is a 32-bit word. */
  ghost predicate Copied(op: Op, before: Memory, after: Memory) {
    match op
    case Copy(dst, src, n) =>
      forall i: nat :: i < n % WORD ==> after(Cell(dst, 0, 0, i)) == before(Cell(src, 0, 0, i))
    case Copy2D(src, dst, size, sstrd, dstrd, nreps, _) =>
      forall r: nat, i: nat :: r < nreps && i < size ==> after(Cell(dst, dstrd, r, i)) == before(Cell(src, sstrd, r, i))
    case _ => true
  }

  lemma {:induction false} HoldsCopied(op: Op, before: Memory, after: Memory)
    requires IsCopy(op) && Holds(TransferOf(op), before, after)
    ensures Copied(op, before, after)
  {
    hide Cell;
    var t := TransferOf(op);
    if op.Copy? {
      forall i: nat | i < op.n % WORD
        ensures after(Cell(op.dst, 0, 0, i)) == before(Cell(op.src, 0, 0, i))
      {
        assert after(To(t, 0, i)) == before(From(t, 0, i));
      }
    } else {
      forall r: nat, i: nat | r < op.nreps && i < op.size
        ensures after(Cell(op.dst, op.dstrd, r, i)) == before(Cell(op.src, op.sstrd, r, i))
      {
        assert after(To(t, r, i)) == before(From(t, r, i));
      }
    }
  }

  lemma {:induction false} AskedFor(ops: seq<Op>, op: Op)
    requires op in ops && IsCopy(op)
    ensures TransferOf(op) in Transfers(ops)
  {
    var last := |ops| - 1;
    if op != ops[last] {
      assert op in ops[..last];
      AskedFor(ops[..last], op);
    }
  }

  /**
   When `dm_wait` returns, every copy before it has arrived: its destination holds
   what its source held when the program started, and memory that no copy writes is
   as it was.  The program's copies must not write what another one reads or writes.
   */
  lemma {:induction false} WaitDelivers(ops: seq<Op>, cap: nat, schedule: seq<nat>, before: Memory)
    requires Independent(Transfers(ops))
    ensures var s, after := Run(Init(ops), cap, schedule), MemoryAfter(Init(ops), before, cap, schedule);
            && (s.client.pc == UnlockStat ==> forall op | op in s.hist.done :: Copied(op, before, after))
            && (forall a: nat :: after(a) == before(a) || exists t :: t in Transfers(ops) && Overwrites(t, a))
  {
    hide *;
    var s, after := Run(Init(ops), cap, schedule), MemoryAfter(Init(ops), before, cap, schedule);
    AtFirst(ops, before);
    RunDelivers(Init(ops), ops, cap, schedule, before, before);
    Reached(ops, cap, schedule);
    WaitMeansComplete(ops, cap, schedule);
    forall op | s.client.pc == UnlockStat && op in s.hist.done ensures Copied(op, before, after) {
      ArrivesCopied(s, op, before, after);
    }
    forall a: nat ensures after(a) == before(a) || exists t :: t in Transfers(ops) && Overwrites(t, a) {
      if after(a) != before(a) {
        var t := ChangedBy(s.hist.completed, before, after, a);
        StartedIsAsked(s, ops, t);
      }
    }
  }

  lemma {:induction false} AtFirst(ops: seq<Op>, before: Memory)
    ensures Inv(Init(ops)) && Init(ops).hist.done + Init(ops).client.ops == ops
    ensures Delivering(Init(ops).hist.completed, before, before)
  {
    InvInit(ops);
    assert [] + ops == ops;
  }

  lemma {:induction false} ArrivesCopied(s: State, op: Op, before: Memory, after: Memory)
    requires Delivering(s.hist.completed, before, after) && s.hist.completed == multiset(Transfers(s.hist.done))
    requires op in s.hist.done
    ensures Copied(op, before, after)
  {
    hide Holds;
    if IsCopy(op) {
      AskedFor(s.hist.done, op);
      assert TransferOf(op) in s.hist.completed;
      HoldsCopied(op, before, after);
    }
  }

  lemma {:induction false} ChangedBy(done: multiset<Transfer>, before: Memory, after: Memory, a: nat)
    returns (t: Transfer)
    requires Delivering(done, before, after) && after(a) != before(a)
    ensures t in done && Overwrites(t, a)
  {
    t :| t in done && Overwrites(t, a);
  }
}
