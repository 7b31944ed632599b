/**
 The pipeline computes the element-wise map: whatever the interleaving of the
 activities within each iteration, `batches + 4` iterations leave the exponential
 of every input element in the output.
 */
module VexpfPipeline {
  import opened Arithmetic
  import opened VexpfAsm
  import opened VexpfBuffers

  function In(env: Env, k: nat, j: nat): Word
    requires EnvOk(env) && Batch(env, k) && j < env.size
  {
    ElemFits(env.size, k, j, env.batches);
    env.a[Elem(env.size, k, j)]
  }

  /** What each buffer in use holds before iteration `it`, and which batches are stored. */
  ghost predicate Pipe(env: Env, it: nat, m: Mem)
    requires EnvOk(env)
  {
    && MemOk(env, m)
    && (forall j: nat | j < env.size :: Loaded(env, it, m, j) && Fronted(env, it, m, j) && Scaled(env, it, m, j))
    && forall k: nat, j: nat | Batch(env, k) && k < it - 4 && j < env.size ::
         Get(env, m, Out(k, j)) == Exp(env.f, env.table, In(env, k, j))
  }

  ghost predicate Loaded(env: Env, it: nat, m: Mem, j: nat)
    requires EnvOk(env) && MemOk(env, m) && j < env.size
  {
    && (Batch(env, it - 1) ==> Get(env, m, L1(Input(Two(it - 1)), j)) == In(env, it - 1, j))
    && (Batch(env, it - 4) ==>
          Get(env, m, L1(Result(Three(it - 4)), j)) == Exp(env.f, env.table, In(env, it - 4, j)))
  }

  ghost predicate Fronted(env: Env, it: nat, m: Mem, j: nat)
    requires EnvOk(env) && MemOk(env, m) && j < env.size
  {
    && (Batch(env, it - 2) ==> Get(env, m, L1(Ki(Three(it - 2)), j)) == Kd(env.f, In(env, it - 2, j)))
    && (Batch(env, it - 2) ==> Get(env, m, L1(W(Three(it - 2)), j)) == Poly(env.f, In(env, it - 2, j)))
  }

  ghost predicate Scaled(env: Env, it: nat, m: Mem, j: nat)
    requires EnvOk(env) && MemOk(env, m) && j < env.size
  {
    && (Batch(env, it - 3) ==> Get(env, m, L1(W(Three(it - 3)), j)) == Poly(env.f, In(env, it - 3, j)))
    && (Batch(env, it - 3) ==> Get(env, m, L1(T(Two(it - 3)), j)) == Scale(env.table, Kd(env.f, In(env, it - 3, j))))
  }

  const ALL := (op: Op) => true

  lemma {:induction false} StepLoaded(env: Env, it: nat, m: Mem, m': Mem, j: nat)
    requires EnvOk(env) && Pipe(env, it, m) && Assigned(env, it, ALL, m, m') && j < env.size
    ensures Loaded(env, it + 1, m', j)
  {
    Rotation(it);
    assert Loaded(env, it, m, j) && Fronted(env, it, m, j) && Scaled(env, it, m, j);
    hide Get, Two, Three, Elem, Kd, Poly, Scale, Pipe;
  }

  lemma {:induction false} StepFronted(env: Env, it: nat, m: Mem, m': Mem, j: nat)
    requires EnvOk(env) && Pipe(env, it, m) && Assigned(env, it, ALL, m, m') && j < env.size
    ensures Fronted(env, it + 1, m', j)
  {
    Rotation(it);
    assert Loaded(env, it, m, j) && Fronted(env, it, m, j) && Scaled(env, it, m, j);
    hide Get, Two, Three, Elem, Kd, Poly, Scale, Pipe;
  }

  lemma {:induction false} StepScaled(env: Env, it: nat, m: Mem, m': Mem, j: nat)
    requires EnvOk(env) && Pipe(env, it, m) && Assigned(env, it, ALL, m, m') && j < env.size
    ensures Scaled(env, it + 1, m', j)
  {
    Rotation(it);
    assert Loaded(env, it, m, j) && Fronted(env, it, m, j) && Scaled(env, it, m, j);
    hide Get, Two, Three, Elem, Kd, Poly, Scale, Pipe;
  }

  lemma {:induction false} StepOut(env: Env, it: nat, m: Mem, m': Mem, k: nat, j: nat)
    requires EnvOk(env) && Pipe(env, it, m) && Assigned(env, it, ALL, m, m')
    requires Batch(env, k) && k < it - 3 && j < env.size
    ensures Get(env, m', Out(k, j)) == Exp(env.f, env.table, In(env, k, j))
  {
    assert Loaded(env, it, m, j);
    hide Get, Two, Three, Elem, Exp;
  }

  /** One iteration moves every batch one stage on. */
  lemma {:induction false} PipeStep(env: Env, it: nat, m: Mem, m': Mem)
    requires EnvOk(env) && Pipe(env, it, m) && Assigned(env, it, ALL, m, m')
    ensures Pipe(env, it + 1, m')
  {
    hide Get, Loaded, Fronted, Scaled, After, Exp;
    var next := it + 1;
    forall j: nat | j < env.size
      ensures Loaded(env, next, m', j) && Fronted(env, next, m', j) && Scaled(env, next, m', j)
    {
      StepLoaded(env, it, m, m', j);
      StepFronted(env, it, m, m', j);
      StepScaled(env, it, m, m', j);
    }
    forall k: nat, j: nat | Batch(env, k) && k < it - 3 && j < env.size
      ensures Get(env, m', Out(k, j)) == Exp(env.f, env.table, In(env, k, j))
    {
      StepOut(env, it, m, m', k, j);
    }
  }

  lemma {:induction false} PipeStart(env: Env, m: Mem)
    requires EnvOk(env) && MemOk(env, m)
    ensures Pipe(env, 0, m)
  {
    hide Get;
  }

  /** The element-wise map. */
  ghost predicate Done(env: Env, out: seq<Word>)
    requires EnvOk(env)
  {
    |out| >= env.batches * env.size
    && forall i | 0 <= i < env.batches * env.size :: out[i] == Reference(env.f, env.table, env.a[i])
  }

  lemma {:induction false} PipeDone(env: Env, m: Mem)
    requires EnvOk(env) && Pipe(env, env.batches + 4, m)
    ensures Done(env, m.out)
  {
    hide Exp, Reference;
    forall i: nat | i < env.batches * env.size ensures m.out[i] == Reference(env.f, env.table, env.a[i]) {
      ExpIsReference(env.f, env.table, env.a[i]);
      var k, j := Quot(i, env.size), Rem(i, env.size);
      QuotRem(i, env.size);
      Commute(env.batches, env.size);
      QuotBelow(i, env.size, env.batches);
      assert Get(env, m, Out(k, j)) == Exp(env.f, env.table, In(env, k, j));
    }
  }

  // ----- any interleaving of any iteration

  /** `orders[it]` is the order in which iteration `it` happens to execute its operations. */
  ghost predicate Schedules(env: Env, orders: seq<seq<Op>>) {
    forall it | 0 <= it < |orders| :: Schedule(env, it, orders[it])
  }

  ghost predicate Executed(env: Env, orders: seq<seq<Op>>, states: seq<Mem>)
    requires EnvOk(env)
  {
    && |states| == |orders| + 1
    && (forall it | 0 <= it < |states| :: MemOk(env, states[it]))
    && forall it | 0 <= it < |orders| ::
         (forall i | 0 <= i < |orders[it]| :: OpOk(env, orders[it][i]))
         && states[it + 1] == Execute(env, orders[it], states[it])
  }

  lemma {:induction false} ScheduleAssigns(env: Env, it: nat, ops: seq<Op>, m: Mem)
    requires EnvOk(env) && MemOk(env, m) && Schedule(env, it, ops)
    ensures forall i | 0 <= i < |ops| :: OpOk(env, ops[i])
    ensures Assigned(env, it, ALL, m, Execute(env, ops, m))
  {
    hide Get, Writer, Execute, Value, OpOf;
    forall i | 0 <= i < |ops| ensures OpOf(env, it, ops[i]) {
      assert ops[i] in ops;
    }
    ExecuteAssigns(env, it, ops, m);
    var m' := Execute(env, ops, m);
    forall l | LocOk(env, l) ensures Get(env, m', l) == After(env, it, ALL, m, l) {
      assert Get(env, m', l) == After(env, it, op => op in ops, m, l);
      WriterIsOp(env, it, l);
    }
  }

  lemma {:induction false} WriterIsOp(env: Env, it: nat, l: Loc)
    requires EnvOk(env) && LocOk(env, l)
    ensures Writer(env, it, l).Some? ==> OpOf(env, it, Writer(env, it, l).value)
  {
    if Writer(env, it, l).Some? {
      WriterOk(env, it, l);
    }
  }

  lemma {:induction false} PipeRun(env: Env, orders: seq<seq<Op>>, states: seq<Mem>, it: nat)
    requires EnvOk(env) && Schedules(env, orders) && Executed(env, orders, states) && it < |states|
    ensures Pipe(env, it, states[it])
  {
    hide Pipe, Assigned, Execute, Schedule;
    if it == 0 {
      PipeStart(env, states[0]);
    } else {
      PipeRun(env, orders, states, it - 1);
      ScheduleAssigns(env, it - 1, orders[it - 1], states[it - 1]);
      PipeStep(env, it - 1, states[it - 1], states[it]);
    }
  }

  /**
   For every number of batches, every batch size divisible by four and every
   interleaving of the operations within each of the `batches + 4` iterations,
   the output ends up as the element-wise exponential of the input.
   */
  lemma {:induction false} PipelineIsMap(env: Env, orders: seq<seq<Op>>, states: seq<Mem>)
    requires EnvOk(env) && |orders| == env.batches + 4
    requires Schedules(env, orders) && Executed(env, orders, states)
    ensures Done(env, states[env.batches + 4].out)
  {
    hide Pipe, Schedule, Execute;
    PipeRun(env, orders, states, env.batches + 4);
    PipeDone(env, states[env.batches + 4]);
  }
}
