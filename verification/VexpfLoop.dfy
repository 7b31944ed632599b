/**
 `vexpf_optimized` (sw/kernels/misc/exp/vexpf_optimized.h:12-259): buffer
 allocation and the loop over iterations.
 */
module VexpfLoop {
  import opened Arithmetic
  import opened Ssr
  import opened VexpfBuffers
  import opened VexpfStreams
  import opened VexpfPipeline
  import opened VexpfKernel
  import opened Words

  /** Rounded up to a multiple of 8. */
  function AlignUp(x: nat): nat {
    (x + 7) / 8 * 8
  }

  lemma {:induction false} AlignUpIs(x: nat)
    ensures x <= AlignUp(x) < x + 8 && AlignUp(x) % 8 == 0 && AlignUp(AlignUp(x)) == AlignUp(x)
  {
  }

  /** The bump allocator for 8-byte elements (alloc_v2.h:74-82, vexpf.h:34-35). */
  class Allocator {
    var next: nat

    constructor (start: nat)
      ensures next == start
    {
      next := start;
    }

    method Alloc(count: nat) returns (ptr: nat)
      modifies this
      ensures ptr == AlignUp(old(next)) && next == ptr + 8 * count
    {
      next := AlignUp(next);
      ptr := next;
      next := next + 8 * count;
    }
  }

  /** Pointers to the buffers of each kind. */
  datatype Buffers = Buffers(ki: seq<nat>, w: seq<nat>, b: seq<nat>, a: seq<nat>, t: seq<nat>)

  ghost predicate Placed(p: Buffers, start: nat, size: nat) {
    && |p.ki| == 3 && |p.w| == 3 && |p.b| == 3 && |p.a| == 2 && |p.t| == 2
    && (forall i | 0 <= i < 3 :: p.ki[i] == Address(start, size, Ki(i), 0))
    && (forall i | 0 <= i < 3 :: p.w[i] == Address(start, size, W(i), 0))
    && (forall i | 0 <= i < 3 :: p.b[i] == Address(start, size, Result(i), 0))
    && (forall i | 0 <= i < 2 :: p.a[i] == Address(start, size, Input(i), 0))
    && (forall i | 0 <= i < 2 :: p.t[i] == Address(start, size, T(i), 0))
  }

  lemma {:induction false} NextBuffer(start: nat, size: nat, r: nat)
    requires start % 8 == 0
    ensures AlignUp(Address(start, size, r, 0) + 8 * size) == Address(start, size, r + 1, 0)
  {
    Distribute(size, r, 1);
  }

  /** Lines 26-34: the `ki` and `w` buffers. */
  method AllocateFront(l1: Allocator, size: nat) returns (ki: seq<nat>, w: seq<nat>, ghost start: nat)
    modifies l1
    ensures start == AlignUp(old(l1.next)) && |ki| == 3 && |w| == 3
    ensures At(start, size, 0, ki[0]) && At(start, size, 1, ki[1]) && At(start, size, 2, ki[2])
    ensures At(start, size, 3, w[0]) && At(start, size, 4, w[1]) && At(start, size, 5, w[2])
    ensures start % 8 == 0 && At(start, size, 6, AlignUp(l1.next)) && ki[0] == start
  {
    hide AlignUp, Address, At;
    start := AlignUp(l1.next);
    AlignUpIs(l1.next);
    FirstAt(start, size);
    var ki0 := l1.Alloc(size);
    NextAt(start, size, 0, ki0);
    var ki1 := l1.Alloc(size);
    NextAt(start, size, 1, ki1);
    var ki2 := l1.Alloc(size);
    NextAt(start, size, 2, ki2);
    var w0 := l1.Alloc(size);
    NextAt(start, size, 3, w0);
    var w1 := l1.Alloc(size);
    NextAt(start, size, 4, w1);
    var w2 := l1.Alloc(size);
    NextAt(start, size, 5, w2);
    ki, w := [ki0, ki1, ki2], [w0, w1, w2];
  }

  /** Lines 35-41: the `b`, `a` and `t` buffers, `b1` and `b2` before `b0`. */
  method AllocateBack(l1: Allocator, size: nat, ghost start: nat) returns (b: seq<nat>, a: seq<nat>, t: seq<nat>)
    requires start % 8 == 0 && At(start, size, 6, AlignUp(l1.next))
    modifies l1
    ensures |b| == 3 && |a| == 2 && |t| == 2
    ensures At(start, size, 6, b[1]) && At(start, size, 7, b[2]) && At(start, size, 8, b[0])
    ensures At(start, size, 9, a[0]) && At(start, size, 10, a[1]) && At(start, size, 11, t[0])
            && At(start, size, 12, t[1])
    ensures l1.next == t[1] + 8 * size
  {
    hide AlignUp, Address, At;
    var b1 := l1.Alloc(size);
    NextAt(start, size, 6, b1);
    var b2 := l1.Alloc(size);
    NextAt(start, size, 7, b2);
    var b0 := l1.Alloc(size);
    NextAt(start, size, 8, b0);
    var a0 := l1.Alloc(size);
    NextAt(start, size, 9, a0);
    var a1 := l1.Alloc(size);
    NextAt(start, size, 10, a1);
    var t0 := l1.Alloc(size);
    NextAt(start, size, 11, t0);
    var t1 := l1.Alloc(size);
    b, a, t := [b0, b1, b2], [a0, a1], [t0, t1];
  }

  /** Lines 26-41. */
  method AllocateBuffers(l1: Allocator, size: nat) returns (p: Buffers, start: nat)
    modifies l1
    ensures start == AlignUp(old(l1.next)) && Placed(p, start, size)
    ensures l1.next == start + 8 * (REGIONS * size)
  {
    hide AlignUp, Address, Placed, At;
    var ki, w, s := AllocateFront(l1, size);
    var b, a, t := AllocateBack(l1, size, s);
    p, start := Buffers(ki, w, b, a, t), ki[0];
    AllPlaced(s, size, p);
    LastAt(s, size, t[1]);
  }

  /** `ptr` is buffer `r`. */
  predicate At(start: nat, size: nat, r: nat, ptr: nat) {
    ptr == Address(start, size, r, 0)
  }

  lemma {:induction false} FirstAt(start: nat, size: nat)
    requires start % 8 == 0
    ensures At(start, size, 0, start)
  {
  }

  lemma {:induction false} NextAt(start: nat, size: nat, r: nat, ptr: nat)
    requires start % 8 == 0 && At(start, size, r, ptr)
    ensures At(start, size, r + 1, AlignUp(ptr + 8 * size))
  {
    NextBuffer(start, size, r);
  }

  lemma {:induction false} LastAt(start: nat, size: nat, ptr: nat)
    requires At(start, size, 12, ptr)
    ensures ptr + 8 * size == start + 8 * (REGIONS * size)
  {
  }

  lemma {:induction false} AllPlaced(start: nat, size: nat, p: Buffers)
    requires |p.ki| == 3 && |p.w| == 3 && |p.b| == 3 && |p.a| == 2 && |p.t| == 2
    requires At(start, size, 0, p.ki[0]) && At(start, size, 1, p.ki[1]) && At(start, size, 2, p.ki[2])
    requires At(start, size, 3, p.w[0]) && At(start, size, 4, p.w[1]) && At(start, size, 5, p.w[2])
    requires At(start, size, 6, p.b[1]) && At(start, size, 7, p.b[2]) && At(start, size, 8, p.b[0])
    requires At(start, size, 9, p.a[0]) && At(start, size, 10, p.a[1])
    requires At(start, size, 11, p.t[0]) && At(start, size, 12, p.t[1])
    ensures Placed(p, start, size)
  {
    hide Address;
  }

  // ----- the loop over iterations

  /** A buffer index that starts rotating `lag` iterations late. */
  function Lagged2(it: nat, lag: nat): (i: nat)
    ensures i < 2
  {
    if it < lag then 0 else Two(it - lag)
  }

  function Lagged3(it: nat, lag: nat): (i: nat)
    ensures i < 3
  {
    if it < lag then 0 else Three(it - lag)
  }

  lemma {:induction false} LaggedStep(it: nat, lag: nat)
    ensures it < lag ==> Lagged2(it, lag) == 0 == Lagged2(it + 1, lag) && Lagged3(it, lag) == 0 == Lagged3(it + 1, lag)
    ensures it >= lag ==> Lagged2(it + 1, lag) == (Lagged2(it, lag) + 1) % N_T_BUFFERS
                          && Lagged3(it + 1, lag) == (Lagged3(it, lag) + 1) % N_W_BUFFERS
                          && Lagged2(it, lag) == Two(it - lag) && Lagged3(it, lag) == Three(it - lag)
    ensures Lagged2(0, lag) == 0 && Lagged3(0, lag) == 0
  {
  }

  /** All operations of the iteration are done once its four activities are. */
  lemma {:induction false} FourActivities(env: Env, it: nat, m: Mem, m1: Mem, m2: Mem, m3: Mem, m4: Mem)
    requires EnvOk(env) && Assigned(env, it, LOADS, m, m1) && Assigned(env, it, STORES, m1, m2)
    requires Assigned(env, it, FPS, m2, m3) && Assigned(env, it, INTS, m3, m4)
    ensures Assigned(env, it, ALL, m, m4)
  {
    hide Assigned, Writer, Get, Elem, Value;
    Compose(env, it, LOADS, STORES, m, m1, m2);
    var p := (op: Op) => LOADS(op) || STORES(op);
    Compose(env, it, p, FPS, m, m2, m3);
    var q := (op: Op) => p(op) || FPS(op);
    Compose(env, it, q, INTS, m, m3, m4);
    var r := (op: Op) => q(op) || INTS(op);
    SameSelection(env, it, r, ALL, m, m4);
  }

  lemma {:induction false} SameSelection(env: Env, it: nat, p: Op -> bool, q: Op -> bool, m: Mem, m': Mem)
    requires EnvOk(env) && Assigned(env, it, p, m, m')
    requires forall op | OpOf(env, it, op) :: p(op) == q(op)
    ensures Assigned(env, it, q, m, m')
  {
    hide Get, Writer, Value, Elem;
    forall l | LocOk(env, l) ensures Get(env, m', l) == After(env, it, q, m, l) {
      WriterIsOp(env, it, l);
    }
  }

  /** An activity that is not active in an iteration has no operation in it. */
  lemma {:induction false} Inactive(env: Env, it: nat, kind: Op -> bool, m: Mem)
    requires EnvOk(env) && MemOk(env, m) && forall op | OpOf(env, it, op) :: !kind(op)
    ensures Assigned(env, it, kind, m, m)
  {
    hide Get, Writer, Value, Elem;
    forall l | LocOk(env, l) ensures Get(env, m, l) == After(env, it, kind, m, l) {
      WriterIsOp(env, it, l);
    }
  }

  lemma {:induction false} ActiveBatches(env: Env, it: nat, op: Op)
    requires OpOf(env, it, op)
    ensures op.Load? ==> Batch(env, it)
    ensures op.ToKd? || op.ToPoly? ==> Batch(env, it - 1)
    ensures op.ToScale? ==> Batch(env, it - 2)
    ensures op.Product? ==> Batch(env, it - 3)
    ensures op.Store? ==> Batch(env, it - 4)
  {
  }

  /** The configuration the fused phases run with. */
  ghost predicate Fused3D(c: Config, size: nat, h: nat)
    reads c
    requires h > 0 && size >= 4
  {
    && c.Valid()
    && c.bounds[..3] == Minus1([4, h, size / 4])
    && c.strides[..3] == Relative([8, 8 * h * size, 32], [4, h, size / 4], 0)
  }

  ghost predicate Plain1D(c: Config, size: nat)
    reads c
    requires size > 0
  {
    c.Valid() && c.bounds[..1] == Minus1([size]) && c.strides[..1] == Relative([8], [size], 0)
  }

  method ConfigureLine(c: Config, size: nat)
    requires c.Valid() && 0 < size < WORD
    modifies c
    ensures Plain1D(c, size)
  {
    c.Loop1D(size, 8);
    assert c.bounds[..1] == [Dec(size)] == Minus1([size]);
    assert c.strides[..1] == Relative([8], [size], 0);
  }

  lemma {:induction false} MinusThree(b0: nat, b1: nat, b2: nat)
    requires b0 > 0 && b1 > 0 && b2 > 0
    ensures Minus1([b0, b1, b2]) == [b0 - 1, b1 - 1, b2 - 1]
  {
    assert [b0, b1, b2][1..] == [b1, b2] && [b1, b2][1..] == [b2] && [b2][1..] == [];
    assert Minus1([b2]) == [b2 - 1];
    assert Minus1([b1, b2]) == [b1 - 1] + Minus1([b2]);
  }

  method ConfigureWoven(c: Config, size: nat, h: nat)
    requires c.Valid() && 4 <= size < WORD && 0 < h < WORD
    modifies c
    ensures Fused3D(c, size, h)
  {
    c.Loop3D(4, h, size / 4, 8, h * size * 8, 8 * 4);
    MinusThree(4, h, size / 4);
    assert c.bounds[..3] == [Dec(4), Dec(h), Dec(size / 4)] == Minus1([4, h, size / 4]);
    assert h * size * 8 == 8 * h * size;
    assert c.strides[..3] == Relative([8, 8 * h * size, 32], [4, h, size / 4], 0);
  }

  /** Pointers and configuration for any iteration. */
  ghost predicate KernelOk(env: Env, start: nat, m: Mem, p: Buffers) {
    Ready(env, start, m) && env.size < WORD && Placed(p, start, env.size)
  }

  /** Lines 112-221: the floating-point work of one iteration, on the streams `dm0`, `dm1`, `dm2`. */
  method FpPhases(env: Env, start: nat, it: nat, m: Mem, p: Buffers, dm0: Config, dm1: Config, dm2: Config,
                  fp0A: nat, fp0W: nat, fp1W: nat, fp1T: nat)
    returns (m': Mem, fp0A': nat, fp0W': nat, fp1W': nat, fp1T': nat)
    requires KernelOk(env, start, m, p) && dm0 != dm1 && dm0 != dm2 && dm1 != dm2
    requires dm0.Valid() && dm1.Valid() && dm2.Valid() && it < env.batches + 4
    requires it <= env.batches + 1 ==> fp0A == Lagged2(it, 1) && fp0W == Lagged3(it, 1)
    requires it <= env.batches + 3 ==> fp1W == Lagged3(it, 3) && fp1T == Lagged2(it, 3)
    requires it > 3 && Batch(env, it - 1) ==>
               Fused3D(dm0, env.size, 2) && Plain1D(dm1, env.size) && Fused3D(dm2, env.size, 3)
    modifies dm0, dm1, dm2
    ensures Assigned(env, it, FPS, m, m') && dm0.Valid() && dm1.Valid() && dm2.Valid()
    ensures it + 1 <= env.batches + 1 ==> fp0A' == Lagged2(it + 1, 1) && fp0W' == Lagged3(it + 1, 1)
    ensures it + 1 <= env.batches + 3 ==> fp1W' == Lagged3(it + 1, 3) && fp1T' == Lagged2(it + 1, 3)
    ensures it + 1 > 3 && Batch(env, it) ==>
              Fused3D(dm0, env.size, 2) && Plain1D(dm1, env.size) && Fused3D(dm2, env.size, 3)
  {
    hide Get, Elem, Two, Three, Address, Generator, Minus1, Relative, Lagged2, Lagged3, Assigned, Writer;
    var iterations := env.batches + 4;
    m', fp0A', fp0W', fp1W', fp1T' := m, fp0A, fp0W, fp1W, fp1T;
    LaggedStep(it, 1);
    LaggedStep(it, 3);
    if it > 0 && it < 3 && it < iterations - 3 {
      ConfigureLine(dm0, env.size);
      ConfigureLine(dm1, env.size);
      ConfigureLine(dm2, env.size);
      m' := Fp0Phase(env, start, it, m, dm0.bounds[..1], dm0.strides[..1], p.a[fp0A], p.ki[fp0W], p.w[fp0W]);
      fp0W', fp0A' := (fp0W + 1) % N_W_BUFFERS, (fp0A + 1) % N_T_BUFFERS;
    } else if it > 2 && it < iterations - 3 {
      if it == 3 {
        ConfigureWoven(dm0, env.size, 2);
        ConfigureLine(dm1, env.size);
        ConfigureWoven(dm2, env.size, 3);
      }
      m' := FusedPhase(env, start, it, m, dm0.bounds[..3], dm0.strides[..3], dm1.bounds[..1], dm1.strides[..1],
                       dm2.bounds[..3], dm2.strides[..3], p.a[fp0A], p.w[fp1W], p.ki[fp0W]);
      fp0W', fp0A' := (fp0W + 1) % N_W_BUFFERS, (fp0A + 1) % N_T_BUFFERS;
      fp1W', fp1T' := (fp1W + 1) % N_W_BUFFERS, (fp1T + 1) % N_T_BUFFERS;
    } else if it > 2 && it >= iterations - 3 && it < iterations - 1 {
      ConfigureLine(dm0, env.size);
      ConfigureLine(dm1, env.size);
      ConfigureLine(dm2, env.size);
      m' := Fp1Phase(env, start, it, m, dm0.bounds[..1], dm0.strides[..1], p.w[fp1W], p.t[fp1T], p.b[fp1W]);
      fp1W', fp1T' := (fp1W + 1) % N_W_BUFFERS, (fp1T + 1) % N_T_BUFFERS;
    } else {
      forall op | OpOf(env, it, op) ensures !FPS(op) {
        ActiveBatches(env, it, op);
      }
      Inactive(env, it, FPS, m);
    }
  }

  /** Lines 78-108: the DMA core's work of one iteration. */
  method DmaPhases(env: Env, start: nat, it: nat, m: Mem, p: Buffers, dmaA: nat, dmaB: nat)
    returns (m1: Mem, m2: Mem, dmaA': nat, dmaB': nat)
    requires KernelOk(env, start, m, p) && it < env.batches + 4
    requires it <= env.batches ==> dmaA == Lagged2(it, 0)
    requires dmaB == Lagged3(it, 4)
    ensures Assigned(env, it, LOADS, m, m1) && Assigned(env, it, STORES, m1, m2)
    ensures it + 1 <= env.batches ==> dmaA' == Lagged2(it + 1, 0)
    ensures dmaB' == Lagged3(it + 1, 4)
  {
    hide Get, Elem, Two, Three, Address, Lagged2, Lagged3, Assigned, Writer;
    var iterations := env.batches + 4;
    m1, dmaA', dmaB' := m, dmaA, dmaB;
    LaggedStep(it, 0);
    LaggedStep(it, 4);
    if it < iterations - 4 {
      m1 := DmaIn(env, start, it, m, p.a[dmaA]);
      dmaA' := (dmaA + 1) % N_T_BUFFERS;
    } else {
      forall op | OpOf(env, it, op) ensures !LOADS(op) {
        ActiveBatches(env, it, op);
      }
      Inactive(env, it, LOADS, m);
    }
    AssignedMem(env, it, LOADS, m, m1);
    m2 := m1;
    if it > 3 {
      m2 := DmaOut(env, start, it, m1, p.b[dmaB]);
      dmaB' := (dmaB + 1) % N_W_BUFFERS;
    } else {
      forall op | OpOf(env, it, op) ensures !STORES(op) {
        ActiveBatches(env, it, op);
      }
      Inactive(env, it, STORES, m1);
    }
  }

  lemma {:induction false} AssignedMem(env: Env, it: nat, kind: Op -> bool, m: Mem, m': Mem)
    requires EnvOk(env) && Assigned(env, it, kind, m, m')
    ensures MemOk(env, m) && MemOk(env, m')
  {
  }

  /** Lines 223-248. */
  method IntPhases(env: Env, start: nat, it: nat, m: Mem, p: Buffers, intKi: nat, intT: nat)
    returns (m': Mem, intKi': nat, intT': nat)
    requires KernelOk(env, start, m, p) && it < env.batches + 4
    requires it <= env.batches + 2 ==> intKi == Lagged3(it, 2) && intT == Lagged2(it, 2)
    ensures Assigned(env, it, INTS, m, m')
    ensures it + 1 <= env.batches + 2 ==> intKi' == Lagged3(it + 1, 2) && intT' == Lagged2(it + 1, 2)
  {
    hide Get, Elem, Two, Three, Address, Lagged2, Lagged3, Assigned, Writer;
    var iterations := env.batches + 4;
    m', intKi', intT' := m, intKi, intT;
    LaggedStep(it, 2);
    if it > 1 && it < iterations - 2 {
      m' := IntPhase(env, start, it, m, p.ki[intKi], p.t[intT]);
      intKi', intT' := (intKi + 1) % N_W_BUFFERS, (intT + 1) % N_T_BUFFERS;
    } else {
      forall op | OpOf(env, it, op) ensures !INTS(op) {
        ActiveBatches(env, it, op);
      }
      Inactive(env, it, INTS, m);
    }
  }

  /**
   The kernel: whatever L1 and the output held before, the output ends up as the
   element-wise exponential of the input, for every number of batches and every
   batch size divisible by four whose thirteen buffers fit in L1.
   */
  method Vexpf(env: Env, l1: Allocator, memory: Mem) returns (m: Mem)
    requires EnvOk(env) && MemOk(env, memory) && env.size < WORD
    requires AlignUp(l1.next) + 8 * (REGIONS * env.size) <= WORD
    modifies l1
    ensures MemOk(env, m) && Done(env, m.out)
  {
    hide Get, Elem, Two, Three, Address, Lagged2, Lagged3, Assigned, Writer, AlignUp, Placed, Pipe, Done;
    var p, start := AllocateBuffers(l1, env.size);
    var dm0 := new Config();
    var dm1 := new Config();
    var dm2 := new Config();
    var dmaA, dmaB, fp0A, fp0W, intKi, intT, fp1W, fp1T := 0, 0, 0, 0, 0, 0, 0, 0;
    m := memory;
    PipeStart(env, m);
    LaggedStep(0, 0);
    LaggedStep(0, 1);
    LaggedStep(0, 2);
    LaggedStep(0, 3);
    LaggedStep(0, 4);
    for it := 0 to env.batches + 4
      invariant MemOk(env, m) && Pipe(env, it, m)
      invariant fresh(dm0) && fresh(dm1) && fresh(dm2)
      invariant dm0.Valid() && dm1.Valid() && dm2.Valid()
      invariant it <= env.batches ==> dmaA == Lagged2(it, 0)
      invariant dmaB == Lagged3(it, 4)
      invariant it <= env.batches + 1 ==> fp0A == Lagged2(it, 1) && fp0W == Lagged3(it, 1)
      invariant it <= env.batches + 2 ==> intKi == Lagged3(it, 2) && intT == Lagged2(it, 2)
      invariant it <= env.batches + 3 ==> fp1W == Lagged3(it, 3) && fp1T == Lagged2(it, 3)
      invariant it > 3 && Batch(env, it - 1) ==>
                  Fused3D(dm0, env.size, 2) && Plain1D(dm1, env.size) && Fused3D(dm2, env.size, 3)
    {
      var m0 := m;
      var m1, m2, m3;
      m1, m2, dmaA, dmaB := DmaPhases(env, start, it, m0, p, dmaA, dmaB);
      AssignedMem(env, it, STORES, m1, m2);
      m3, fp0A, fp0W, fp1W, fp1T := FpPhases(env, start, it, m2, p, dm0, dm1, dm2, fp0A, fp0W, fp1W, fp1T);
      AssignedMem(env, it, FPS, m2, m3);
      m, intKi, intT := IntPhases(env, start, it, m3, p, intKi, intT);
      AssignedMem(env, it, INTS, m3, m);
      FourActivities(env, it, m0, m1, m2, m3, m);
      PipeStep(env, it, m0, m);
    }
    PipeDone(env, m);
  }
}
