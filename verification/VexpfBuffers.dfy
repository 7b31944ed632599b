/**
 The buffers of the pipelined exponential (vexpf_optimized.h:19-41) and what one
 iteration of the pipeline does to them: iteration `it` loads batch `it`, and
 works on batches `it - 1` (FP0), `it - 2` (INT), `it - 3` (FP1) and `it - 4`
 (store).  No location read in an iteration is written in it, so the DMA, FP and
 integer activities may interleave in any order.
 */
module VexpfBuffers {
  import opened Wrappers
  import opened Arithmetic
  import opened VexpfAsm

  /** The kernel's inputs: `batches` batches of `size` elements of `a`. */
  datatype Env = Env(f: Fpu, table: Table, a: seq<Word>, size: nat, batches: nat)

  ghost predicate EnvOk(env: Env) {
    env.size > 0 && env.size % 4 == 0 && |env.a| >= env.batches * env.size
  }

  const REGIONS := 13
  const N_T_BUFFERS := 2
  const N_W_BUFFERS := 3

  // Buffer numbers in allocation order (lines 26-41).
  function Ki(i: nat): (r: nat)
    requires i < 3
  {
    i
  }

  function W(i: nat): nat
    requires i < 3
  {
    3 + i
  }

  function Result(i: nat): nat
    requires i < 3
  {
    if i == 0 then 8 else 5 + i
  }

  function Input(i: nat): nat
    requires i < 2
  {
    9 + i
  }

  function T(i: nat): nat
    requires i < 2
  {
    11 + i
  }

  /** Element `j` of block `k` of an array of blocks. */
  function Elem(size: nat, k: nat, j: nat): nat {
    k * size + j
  }

  /** A word of a buffer in L1, or an element of the output. */
  datatype Loc = L1(r: nat, j: nat) | Out(k: nat, j: nat)

  datatype Mem = Mem(l1: seq<Word>, out: seq<Word>)

  predicate LocOk(env: Env, l: Loc) {
    match l case L1(r, j) => r < REGIONS && j < env.size case Out(k, j) => k < env.batches && j < env.size
  }

  predicate MemOk(env: Env, m: Mem) {
    |m.l1| == REGIONS * env.size && |m.out| >= env.batches * env.size
  }

  lemma {:induction false} ElemFits(size: nat, k: nat, j: nat, n: nat)
    requires k < n && j < size
    ensures Elem(size, k, j) < n * size
  {
    MulStep(k, n, size);
  }

  lemma {:induction false} ElemInjective(size: nat, k: nat, j: nat, k': nat, j': nat)
    requires j < size && j' < size
    ensures Elem(size, k, j) == Elem(size, k', j') <==> k == k' && j == j'
  {
    MulStep(k, k', size);
    MulStep(k', k, size);
  }

  function Get(env: Env, m: Mem, l: Loc): Word
    requires MemOk(env, m) && LocOk(env, l)
  {
    match l
    case L1(r, j) => ElemFits(env.size, r, j, REGIONS); m.l1[Elem(env.size, r, j)]
    case Out(k, j) => ElemFits(env.size, k, j, env.batches); m.out[Elem(env.size, k, j)]
  }

  function Put(env: Env, m: Mem, l: Loc, v: Word): (m': Mem)
    requires MemOk(env, m) && LocOk(env, l)
    ensures MemOk(env, m')
  {
    match l
    case L1(r, j) => ElemFits(env.size, r, j, REGIONS); Mem(m.l1[Elem(env.size, r, j) := v], m.out)
    case Out(k, j) => ElemFits(env.size, k, j, env.batches); Mem(m.l1, m.out[Elem(env.size, k, j) := v])
  }

  lemma {:induction false} GetPut(env: Env, m: Mem, l: Loc, v: Word, l': Loc)
    requires MemOk(env, m) && LocOk(env, l) && LocOk(env, l')
    ensures Get(env, Put(env, m, l, v), l') == if l == l' then v else Get(env, m, l')
  {
    hide Elem;
    match (l, l') {
      case (L1(r, j), L1(r', j')) =>
        ElemFits(env.size, r, j, REGIONS);
        ElemFits(env.size, r', j', REGIONS);
        ElemInjective(env.size, r, j, r', j');
      case (Out(k, j), Out(k', j')) =>
        ElemFits(env.size, k, j, env.batches);
        ElemFits(env.size, k', j', env.batches);
        ElemInjective(env.size, k, j, k', j');
      case _ =>
    }
  }

  /** What one element of one stage does; `src`, `dst`, `w`, `t` are buffers. */
  datatype Op =
    | Load(k: nat, dst: nat, j: nat)
    | ToKd(src: nat, dst: nat, j: nat)
    | ToPoly(src: nat, dst: nat, j: nat)
    | ToScale(src: nat, dst: nat, j: nat)
    | Product(w: nat, t: nat, dst: nat, j: nat)
    | Store(src: nat, k: nat, j: nat)

  function Dst(op: Op): Loc {
    if op.Store? then Out(op.k, op.j) else L1(op.dst, op.j)
  }

  /** The L1 words an operation reads. */
  function Reads(op: Op): seq<Loc> {
    match op
    case Load(_, _, _) => []
    case Product(w, t, _, j) => [L1(w, j), L1(t, j)]
    case _ => [L1(op.src, op.j)]
  }

  predicate OpOk(env: Env, op: Op) {
    && LocOk(env, Dst(op))
    && match op
       case Load(k, _, j) => k < env.batches && j < env.size && Elem(env.size, k, j) < |env.a|
       case Product(w, t, _, _) => w < REGIONS && t < REGIONS
       case _ => op.src < REGIONS
  }

  function Value(env: Env, op: Op, m: Mem): Word
    requires MemOk(env, m) && OpOk(env, op)
  {
    match op
    case Load(k, _, j) => env.a[Elem(env.size, k, j)]
    case ToKd(src, _, j) => Kd(env.f, Get(env, m, L1(src, j)))
    case ToPoly(src, _, j) => Poly(env.f, Get(env, m, L1(src, j)))
    case ToScale(src, _, j) => Scale(env.table, Get(env, m, L1(src, j)))
    case Product(w, t, _, j) => env.f.mul(Get(env, m, L1(w, j)), Get(env, m, L1(t, j)))
    case Store(src, _, j) => Get(env, m, L1(src, j))
  }

  predicate Batch(env: Env, k: int) {
    0 <= k < env.batches
  }

  /** The rotating buffer indices. */
  function Two(k: int): (i: nat)
    ensures i < N_T_BUFFERS
  {
    k % N_T_BUFFERS
  }

  function Three(k: int): (i: nat)
    ensures i < N_W_BUFFERS
  {
    k % N_W_BUFFERS
  }

  lemma {:induction false} Rotation(it: int)
    ensures Two(it - 1) != Two(it) && Two(it - 2) == Two(it) && Two(it - 3) == Two(it - 1)
    ensures Three(it - 1) != Three(it - 2) && Three(it - 1) != Three(it - 3) && Three(it - 2) != Three(it - 3)
    ensures Three(it - 4) == Three(it - 1) && Three(it) == Three(it - 3)
  {
  }

  /** The operation of iteration `it` that writes a location, if any. */
  function Writer(env: Env, it: nat, l: Loc): Option<Op> {
    match l
    case L1(r, j) =>
      if Batch(env, it) && r == Input(Two(it)) then Some(Load(it, r, j))
      else if Batch(env, it - 1) && r == Ki(Three(it - 1)) then Some(ToKd(Input(Two(it - 1)), r, j))
      else if Batch(env, it - 1) && r == W(Three(it - 1)) then Some(ToPoly(Input(Two(it - 1)), r, j))
      else if Batch(env, it - 2) && r == T(Two(it - 2)) then Some(ToScale(Ki(Three(it - 2)), r, j))
      else if Batch(env, it - 3)
          && r == Result(Three(it - 3)) then Some(Product(W(Three(it - 3)), T(Two(it - 3)), r, j))
      else None
    case Out(k, j) => if Batch(env, it - 4) && k == it - 4 then Some(Store(Result(Three(it - 4)), k, j)) else None
  }

  /** The operations of iteration `it`. */
  predicate OpOf(env: Env, it: nat, op: Op) {
    LocOk(env, Dst(op)) && Writer(env, it, Dst(op)) == Some(op)
  }

  lemma {:induction false} WriterOk(env: Env, it: nat, l: Loc)
    requires EnvOk(env) && LocOk(env, l) && Writer(env, it, l).Some?
    ensures OpOk(env, Writer(env, it, l).value) && Dst(Writer(env, it, l).value) == l
  {
    hide Elem;
    if Batch(env, it) {
      ElemFits(env.size, it, l.j, env.batches);
    }
  }

  /** Nothing an iteration reads is written in it. */
  lemma {:induction false} ReadsUnwritten(env: Env, it: nat, op: Op, l: Loc)
    requires OpOf(env, it, op) && l in Reads(op)
    ensures LocOk(env, l) && Writer(env, it, l) == None
  {
    hide Two, Three;
    Rotation(it);
  }

  lemma {:induction false} ValueSame(env: Env, op: Op, m: Mem, m': Mem)
    requires MemOk(env, m) && MemOk(env, m') && OpOk(env, op)
    requires forall l | l in Reads(op) :: LocOk(env, l) && Get(env, m, l) == Get(env, m', l)
    ensures Value(env, op, m) == Value(env, op, m')
  {
    hide Get;
    match op {
      case Load(_, _, _) =>
      case Product(w, t, _, j) =>
        assert L1(w, j) in Reads(op) && L1(t, j) in Reads(op);
      case _ =>
        assert L1(op.src, op.j) in Reads(op);
    }
  }

  /** `m'` is `m` after those operations of iteration `it` that `some` selects, all on the values of `m`. */
  ghost predicate Assigned(env: Env, it: nat, some: Op -> bool, m: Mem, m': Mem)
    requires EnvOk(env)
  {
    && MemOk(env, m) && MemOk(env, m')
    && forall l | LocOk(env, l) :: Get(env, m', l) == After(env, it, some, m, l)
  }

  ghost function After(env: Env, it: nat, some: Op -> bool, m: Mem, l: Loc): Word
    requires EnvOk(env) && MemOk(env, m) && LocOk(env, l)
  {
    match Writer(env, it, l)
    case None => Get(env, m, l)
    case Some(op) =>
      WriterOk(env, it, l);
      if some(op) then Value(env, op, m) else Get(env, m, l)
  }

  // ----- any order of operations

  function Execute(env: Env, ops: seq<Op>, m: Mem): (m': Mem)
    requires MemOk(env, m) && forall i | 0 <= i < |ops| :: OpOk(env, ops[i])
    ensures MemOk(env, m')
  {
    if ops == [] then m
    else
      var last := ops[|ops| - 1];
      var m1 := Execute(env, ops[..|ops| - 1], m);
      Put(env, m1, Dst(last), Value(env, last, m1))
  }

  /**
   Operations of one iteration, executed one by one on the live memory in any order, act at once on
   the old values.
   */
  lemma {:induction false} ExecuteAssigns(env: Env, it: nat, ops: seq<Op>, m: Mem)
    requires EnvOk(env) && MemOk(env, m)
    requires forall i | 0 <= i < |ops| :: OpOf(env, it, ops[i])
    ensures forall i | 0 <= i < |ops| :: OpOk(env, ops[i])
    ensures Assigned(env, it, op => op in ops, m, Execute(env, ops, m))
  {
    hide Writer, Get, Put, Value, Elem;
    forall i | 0 <= i < |ops| ensures OpOk(env, ops[i]) {
      assert OpOf(env, it, ops[i]);
      WriterOk(env, it, Dst(ops[i]));
    }
    if ops != [] {
      var front, last := ops[..|ops| - 1], ops[|ops| - 1];
      ExecuteAssigns(env, it, front, m);
      var m1 := Execute(env, front, m);
      assert OpOf(env, it, last);
      forall l | l in Reads(last) ensures LocOk(env, l) && Get(env, m, l) == Get(env, m1, l) {
        ReadsUnwritten(env, it, last, l);
      }
      ValueSame(env, last, m, m1);
      assert ops == front + [last];
      forall l | LocOk(env, l)
        ensures Get(env, Execute(env, ops, m), l) == After(env, it, op => op in ops, m, l)
      {
        GetPut(env, m1, Dst(last), Value(env, last, m1), l);
        if Writer(env, it, l).Some? {
          WriterOk(env, it, l);
        }
      }
    }
  }

  /** Every operation of the iteration and nothing else. */
  ghost predicate Schedule(env: Env, it: nat, ops: seq<Op>) {
    forall op :: op in ops <==> OpOf(env, it, op)
  }

  /** Activities one after the other are activities at once. */
  lemma {:induction false} Compose(env: Env, it: nat, p: Op -> bool, q: Op -> bool, m: Mem, m1: Mem, m2: Mem)
    requires EnvOk(env) && Assigned(env, it, p, m, m1) && Assigned(env, it, q, m1, m2)
    ensures Assigned(env, it, op => p(op) || q(op), m, m2)
  {
    hide Get, Value, Writer, Elem;
    forall l | LocOk(env, l) ensures Get(env, m2, l) == After(env, it, op => p(op) || q(op), m, l) {
      if Writer(env, it, l).Some? {
        var op := Writer(env, it, l).value;
        WriterOk(env, it, l);
        forall x | x in Reads(op) ensures LocOk(env, x) && Get(env, m, x) == Get(env, m1, x) {
          ReadsUnwritten(env, it, op, x);
        }
        ValueSame(env, op, m, m1);
      }
    }
  }
}
