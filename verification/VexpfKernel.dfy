/**
 The kernel itself (vexpf_optimized.h:12-259): the loop over iterations with its
 phase guards, rotating buffer indices and stream configuration, proved against
 the pipeline.  The activities of an iteration are executed here one after the
 other; VexpfPipeline shows that their interleaving does not matter.
 */
module VexpfKernel {
  import opened Arithmetic
  import opened Ssr
  import opened VexpfAsm
  import opened VexpfBuffers
  import opened VexpfStreams

  ghost predicate Ready(env: Env, base: nat, m: Mem) {
    EnvOk(env) && Fits(base, env.size) && MemOk(env, m)
  }

  // ----- whole buffers through streams

  lemma {:induction false} GetL1(env: Env, m: Mem, r: nat, j: nat)
    requires MemOk(env, m) && r < REGIONS && j < env.size
    ensures Elem(env.size, r, j) < |m.l1| && Get(env, m, L1(r, j)) == m.l1[Elem(env.size, r, j)]
  {
    ElemFits(env.size, r, j, REGIONS);
  }

  /** A 1-D stream reads buffer `r`. */
  method ReadBuffer(env: Env, start: nat, m: Mem, bounds: seq<nat>, strides: seq<nat>, ptr: nat, ghost r: nat)
    returns (values: seq<Word>)
    requires Ready(env, start, m) && r < REGIONS && ptr == Address(start, env.size, r, 0)
    requires Positive([env.size]) && bounds == Minus1([env.size]) && strides == Relative([8], [env.size], 0)
    ensures |values| == env.size && forall j | 0 <= j < env.size :: values[j] == Get(env, m, L1(r, j))
  {
    hide Generator, Minus1, Relative, Get, Elem, Spots;
    LineSpots(start, env.size, r);
    values := ReadStream(m.l1, start, bounds, strides, ptr, Line(env.size, r), env.size);
    forall j | 0 <= j < env.size ensures values[j] == Get(env, m, L1(r, j)) {
      GetL1(env, m, r, j);
    }
  }

  /** `m'` is `m` with new contents in buffer `r`. */
  ghost predicate Filled(env: Env, m: Mem, m': Mem, r: nat, values: seq<Word>) {
    && MemOk(env, m) && MemOk(env, m') && m'.out == m.out && |values| == env.size
    && forall r': nat, j: nat | r' < REGIONS && j < env.size ::
         Get(env, m', L1(r', j)) == if r' == r then values[j] else Get(env, m, L1(r', j))
  }

  /** A 1-D stream writes buffer `r`. */
  method WriteBuffer(env: Env, start: nat, m: Mem, bounds: seq<nat>, strides: seq<nat>, ptr: nat, ghost r: nat,
                     values: seq<Word>)
    returns (m': Mem)
    requires Ready(env, start, m) && r < REGIONS && ptr == Address(start, env.size, r, 0) && |values| == env.size
    requires Positive([env.size]) && bounds == Minus1([env.size]) && strides == Relative([8], [env.size], 0)
    ensures Filled(env, m, m', r, values)
  {
    hide Generator, Minus1, Relative, Get, Elem, Spots;
    LineSpots(start, env.size, r);
    ghost var spots := Line(env.size, r);
    forall i, j | 0 <= i < j < |spots| ensures spots[i] != spots[j] {
      ElemInjective(env.size, r, i, r, j);
    }
    var l1 := WriteStream(m.l1, start, bounds, strides, ptr, spots, values);
    m' := Mem(l1, m.out);
    forall r': nat, j: nat | r' < REGIONS && j < env.size
      ensures Get(env, m', L1(r', j)) == if r' == r then values[j] else Get(env, m, L1(r', j))
    {
      GetL1(env, m, r', j);
      GetL1(env, m', r', j);
      forall k | 0 <= k < |spots| ensures spots[k] == Elem(env.size, r', j) <==> r' == r && k == j {
        ElemInjective(env.size, r, k, r', j);
      }
      assert r' == r ==> spots[j] == Elem(env.size, r', j);
    }
  }

  lemma {:induction false} WovenFits(size: nat, r: nat, step: nat, h: nat, k: nat)
    requires size % 4 == 0 && h > 0 && r + step * (h - 1) < REGIONS && k < size * h
    ensures Buf(r, step, h, k) < REGIONS && Idx(h, k) < size
  {
    hide Quot, Rem;
    assert size * h == 4 * (h * (size / 4));
    WovenIndex(k, h, size / 4);
    BufferBound(r, step, Rem(Quot(k, 4), h), h);
  }

  /** `values` are the contents of `h` buffers, four elements of each in turn. */
  ghost predicate WovenRead(env: Env, m: Mem, r: nat, step: nat, h: nat, values: seq<Word>)
    requires h > 0
  {
    && MemOk(env, m) && |values| == env.size * h
    && forall k: nat | k < env.size * h ::
         Buf(r, step, h, k) < REGIONS && Idx(h, k) < env.size
         && values[k] == Get(env, m, L1(Buf(r, step, h, k), Idx(h, k)))
  }

  /** A 3-D stream reads `h` buffers, four elements of each in turn. */
  method ReadWoven(env: Env, start: nat, m: Mem, bounds: seq<nat>, strides: seq<nat>, ptr: nat,
                   ghost r: nat, ghost step: nat, h: nat)
    returns (values: seq<Word>)
    requires Ready(env, start, m) && h > 0 && r + step * (h - 1) < REGIONS && ptr == Address(start, env.size, r, 0)
    requires Positive([4, h, env.size / 4]) && bounds == Minus1([4, h, env.size / 4])
    requires strides == Relative([8, 8 * step * env.size, 32], [4, h, env.size / 4], 0)
    ensures WovenRead(env, m, r, step, h, values)
  {
    hide Generator, Minus1, Relative, Get, Elem, Spots, Buf, Idx;
    WovenSpots(start, env.size, r, step, h, env.size / 4);
    assert env.size * h > 0;
    values := ReadStream(m.l1, start, bounds, strides, ptr, Woven(env.size, r, step, h), env.size * h);
    forall k: nat | k < env.size * h
      ensures Buf(r, step, h, k) < REGIONS && Idx(h, k) < env.size
      ensures values[k] == Get(env, m, L1(Buf(r, step, h, k), Idx(h, k)))
    {
      WovenFits(env.size, r, step, h, k);
      GetL1(env, m, Buf(r, step, h, k), Idx(h, k));
    }
  }

  /** `m'` is `m` with new contents in `h` buffers. */
  ghost predicate WovenFilled(env: Env, m: Mem, m': Mem, r: nat, step: nat, h: nat, values: seq<Word>)
    requires h > 0
  {
    && MemOk(env, m) && MemOk(env, m') && m'.out == m.out && |values| == env.size * h
    && (forall k: nat | k < env.size * h ::
          Buf(r, step, h, k) < REGIONS && Idx(h, k) < env.size
          && Get(env, m', L1(Buf(r, step, h, k), Idx(h, k))) == values[k])
    && forall r': nat, j: nat | r' < REGIONS && j < env.size && (forall d: nat | d < h :: r' != r + step * d) ::
         Get(env, m', L1(r', j)) == Get(env, m, L1(r', j))
  }

  /** A word determines its place in the stream. */
  lemma {:induction false} SpotInjective(size: nat, r: nat, step: nat, h: nat, i: nat, j: nat)
    requires size % 4 == 0 && h > 0 && step > 0 && r + step * (h - 1) < REGIONS && i < size * h && j < size * h
    ensures Spot(size, r, step, h, i) == Spot(size, r, step, h, j) ==> i == j
  {
    WovenFits(size, r, step, h, i);
    WovenFits(size, r, step, h, j);
    ElemInjective(size, Buf(r, step, h, i), Idx(h, i), Buf(r, step, h, j), Idx(h, j));
    hide Quot, Rem, Elem;
    QuotRem(i, 4);
    QuotRem(j, 4);
    QuotRem(Quot(i, 4), h);
    QuotRem(Quot(j, 4), h);
    MulCancel(Rem(Quot(i, 4), h), Rem(Quot(j, 4), h), step);
    Commute(step, Rem(Quot(i, 4), h));
    Commute(step, Rem(Quot(j, 4), h));
  }

  /** A 3-D stream writes `h` buffers, four elements of each in turn. */
  method WriteWoven(env: Env, start: nat, m: Mem, bounds: seq<nat>, strides: seq<nat>, ptr: nat,
                    ghost r: nat, ghost step: nat, ghost h: nat, values: seq<Word>)
    returns (m': Mem)
    requires Ready(env, start, m) && h > 0 && step > 0 && r + step * (h - 1) < REGIONS
             && ptr == Address(start, env.size, r, 0)
    requires |values| == env.size * h
    requires Positive([4, h, env.size / 4]) && bounds == Minus1([4, h, env.size / 4])
    requires strides == Relative([8, 8 * step * env.size, 32], [4, h, env.size / 4], 0)
    ensures WovenFilled(env, m, m', r, step, h, values)
  {
    hide Generator, Minus1, Relative, Get, Elem, Spots, Buf, Idx, Spot;
    WovenSpots(start, env.size, r, step, h, env.size / 4);
    ghost var spots := Woven(env.size, r, step, h);
    assert env.size * h > 0;
    forall i, j | 0 <= i < j < |spots| ensures spots[i] != spots[j] {
      SpotInjective(env.size, r, step, h, i, j);
    }
    var l1 := WriteStream(m.l1, start, bounds, strides, ptr, spots, values);
    m' := Mem(l1, m.out);
    forall k: nat | k < env.size * h
      ensures Buf(r, step, h, k) < REGIONS && Idx(h, k) < env.size
      ensures Get(env, m', L1(Buf(r, step, h, k), Idx(h, k))) == values[k]
    {
      WovenFits(env.size, r, step, h, k);
      GetL1(env, m', Buf(r, step, h, k), Idx(h, k));
      assert spots[k] == Elem(env.size, Buf(r, step, h, k), Idx(h, k)) by { SpotIs(env.size, r, step, h, k); }
    }
    forall r': nat, j: nat | r' < REGIONS && j < env.size && (forall d: nat | d < h :: r' != r + step * d)
      ensures Get(env, m', L1(r', j)) == Get(env, m, L1(r', j))
    {
      GetL1(env, m, r', j);
      GetL1(env, m', r', j);
      forall k | 0 <= k < |spots| ensures spots[k] != Elem(env.size, r', j) {
        WovenFits(env.size, r, step, h, k);
        SpotIs(env.size, r, step, h, k);
        BufIs(r, step, h, k);
        ElemInjective(env.size, Buf(r, step, h, k), Idx(h, k), r', j);
      }
    }
  }

  lemma {:induction false} SpotIs(size: nat, r: nat, step: nat, h: nat, k: nat)
    requires h > 0
    ensures Spot(size, r, step, h, k) == Elem(size, Buf(r, step, h, k), Idx(h, k))
  {
  }

  lemma {:induction false} BufIs(r: nat, step: nat, h: nat, k: nat)
    requires h > 0
    ensures exists d: nat :: d < h && Buf(r, step, h, k) == r + step * d
  {
    var d := Rem(Quot(k, 4), h);
    assert Buf(r, step, h, k) == r + step * d;
  }

  // ----- the phases

  const LOADS := (op: Op) => op.Load?
  const STORES := (op: Op) => op.Store?
  const FPS := (op: Op) => op.ToKd? || op.ToPoly? || op.Product?
  const INTS := (op: Op) => op.ToScale?

  /** A buffer filled with what the iteration's operations of one kind compute is those operations assigned. */
  lemma {:induction false} FilledAssigned(env: Env, it: nat, kind: Op -> bool, m: Mem, m': Mem, r: nat,
                                          values: seq<Word>)
    requires EnvOk(env) && r < REGIONS && Filled(env, m, m', r, values)
    requires forall l | LocOk(env, l) && Writer(env, it, l).Some? && kind(Writer(env, it, l).value) :: l.L1? && l.r == r
    requires forall j: nat | j < env.size ::
               var w := Writer(env, it, L1(r, j));
               w.Some? && kind(w.value) && OpOk(env, w.value) && values[j] == Value(env, w.value, m)
    ensures Assigned(env, it, kind, m, m')
  {
    hide Get, Value, Writer, Elem;
    forall l | LocOk(env, l) ensures Get(env, m', l) == After(env, it, kind, m, l) {
      match l {
        case L1(r', j) =>
        case Out(k, j) => OutKept(env, m, m', k, j);
      }
    }
  }

  lemma {:induction false} OutKept(env: Env, m: Mem, m': Mem, k: nat, j: nat)
    requires MemOk(env, m) && MemOk(env, m') && m'.out == m.out && k < env.batches && j < env.size
    ensures Get(env, m', Out(k, j)) == Get(env, m, Out(k, j))
  {
  }

  /** Words copied into a buffer, by the DMA engine or by stores. */
  method CopyIn(env: Env, start: nat, m: Mem, ptr: nat, ghost r: nat, values: seq<Word>) returns (m': Mem)
    requires Ready(env, start, m) && r < REGIONS && ptr == Address(start, env.size, r, 0) && |values| == env.size
    ensures Filled(env, m, m', r, values)
  {
    hide Get, Elem;
    var lo := (ptr - start) / 8;
    BlockFits(env.size, r);
    var l1 := m.l1[..lo] + values + m.l1[lo + env.size..];
    m' := Mem(l1, m.out);
    forall r': nat, j: nat | r' < REGIONS && j < env.size
      ensures Get(env, m', L1(r', j)) == if r' == r then values[j] else Get(env, m, L1(r', j))
    {
      GetL1(env, m, r', j);
      GetL1(env, m', r', j);
      InBlock(env.size, r, r', j);
    }
  }

  lemma {:induction false} BlockFits(size: nat, r: nat)
    requires r < REGIONS
    ensures Elem(size, r, 0) + size <= REGIONS * size
  {
    MulStep(r, REGIONS, size);
  }

  lemma {:induction false} InBlock(size: nat, r: nat, r': nat, j: nat)
    requires j < size
    ensures if r' == r then Elem(size, r', j) == Elem(size, r, 0) + j
            else Elem(size, r', j) < Elem(size, r, 0) || Elem(size, r', j) >= Elem(size, r, 0) + size
  {
    MulStep(r, r', size);
    MulStep(r', r, size);
  }

  /** The words of a buffer, loaded one by one. */
  method CopyOut(env: Env, start: nat, m: Mem, ptr: nat, ghost r: nat) returns (values: seq<Word>)
    requires Ready(env, start, m) && r < REGIONS && ptr == Address(start, env.size, r, 0)
    ensures |values| == env.size && forall j | 0 <= j < env.size :: values[j] == Get(env, m, L1(r, j))
  {
    hide Get, Elem;
    var lo := (ptr - start) / 8;
    BlockFits(env.size, r);
    values := m.l1[lo..lo + env.size];
    forall j | 0 <= j < env.size ensures values[j] == Get(env, m, L1(r, j)) {
      GetL1(env, m, r, j);
      InBlock(env.size, r, r, j);
    }
  }

  /** DMA in (lines 79-91). */
  method DmaIn(env: Env, start: nat, it: nat, m: Mem, ptr: nat) returns (m': Mem)
    requires Ready(env, start, m) && it < env.batches && ptr == Address(start, env.size, Input(Two(it)), 0)
    ensures Assigned(env, it, LOADS, m, m')
  {
    hide Get, Elem, Two, Three;
    BlockOf(env, it);
    var tile := env.a[it * env.size..it * env.size + env.size];
    m' := CopyIn(env, start, m, ptr, Input(Two(it)), tile);
    forall j: nat | j < env.size
      ensures Elem(env.size, it, j) < |env.a| && tile[j] == env.a[Elem(env.size, it, j)]
    {
      ElemFits(env.size, it, j, env.batches);
      ElemIs(env.size, it, j);
    }
    FilledAssigned(env, it, LOADS, m, m', Input(Two(it)), tile);
  }

  lemma {:induction false} BlockOf(env: Env, k: nat)
    requires EnvOk(env) && k < env.batches
    ensures k * env.size + env.size <= env.batches * env.size
  {
    MulStep(k, env.batches, env.size);
  }

  lemma {:induction false} ElemIs(size: nat, k: nat, j: nat)
    ensures Elem(size, k, j) == k * size + j
  {
  }

  /** DMA out (lines 93-105). */
  method DmaOut(env: Env, start: nat, it: nat, m: Mem, ptr: nat) returns (m': Mem)
    requires Ready(env, start, m) && Batch(env, it - 4) && ptr == Address(start, env.size, Result(Three(it - 4)), 0)
    ensures Assigned(env, it, STORES, m, m')
  {
    hide Get, Elem, Two, Three;
    var k := it - 4;
    BlockOf(env, k);
    var tile := CopyOut(env, start, m, ptr, Result(Three(it - 4)));
    var out := m.out[..k * env.size] + tile + m.out[k * env.size + env.size..];
    m' := Mem(m.l1, out);
    forall l | LocOk(env, l) ensures Get(env, m', l) == After(env, it, STORES, m, l) {
      match l {
        case L1(r, j) =>
          GetL1(env, m, r, j);
          GetL1(env, m', r, j);
        case Out(k', j) =>
          GetOut(env, m, k', j);
          GetOut(env, m', k', j);
          ElemIs(env.size, k, 0);
          InBlock(env.size, k, k', j);
      }
    }
  }

  lemma {:induction false} GetOut(env: Env, m: Mem, k: nat, j: nat)
    requires MemOk(env, m) && k < env.batches && j < env.size
    ensures Elem(env.size, k, j) < |m.out| && Get(env, m, Out(k, j)) == m.out[Elem(env.size, k, j)]
  {
    ElemFits(env.size, k, j, env.batches);
  }

  lemma {:induction false} ScaledAll(table: Table, ki: seq<Word>, t: seq<Word>)
    requires |t| == |ki|
    requires forall k | 0 <= k < |ki| :: t[k] == (table[ki[k] % 32] + ki[k] * 0x8000_0000_0000) % DOUBLE
    ensures forall k | 0 <= k < |ki| :: t[k] == Scale(table, ki[k])
  {
  }

  /** INT phase (lines 223-248). */
  method IntPhase(env: Env, start: nat, it: nat, m: Mem, kiPtr: nat, tPtr: nat) returns (m': Mem)
    requires Ready(env, start, m) && Batch(env, it - 2)
    requires kiPtr == Address(start, env.size, Ki(Three(it - 2)), 0)
             && tPtr == Address(start, env.size, T(Two(it - 2)), 0)
    ensures Assigned(env, it, INTS, m, m')
  {
    hide Get, Elem, Two, Three, Scale;
    var ki := CopyOut(env, start, m, kiPtr, Ki(Three(it - 2)));
    var t := IntLoop(env.table, ki);
    ScaledAll(env.table, ki, t);
    m' := CopyIn(env, start, m, tPtr, T(Two(it - 2)), t);
    Rotation(it);
    FilledAssigned(env, it, INTS, m, m', T(Two(it - 2)), t);
  }

  /** FP1 phase (lines 194-221). */
  method Fp1Phase(env: Env, start: nat, it: nat, m: Mem, bounds: seq<nat>, strides: seq<nat>, wPtr: nat, tPtr: nat,
                  bPtr: nat)
    returns (m': Mem)
    requires Ready(env, start, m) && Batch(env, it - 3) && !Batch(env, it - 1)
    requires Positive([env.size]) && bounds == Minus1([env.size]) && strides == Relative([8], [env.size], 0)
    requires wPtr == Address(start, env.size, W(Three(it - 3)), 0)
             && tPtr == Address(start, env.size, T(Two(it - 3)), 0)
    requires bPtr == Address(start, env.size, Result(Three(it - 3)), 0)
    ensures Assigned(env, it, FPS, m, m')
  {
    hide Get, Elem, Two, Three, Address, Generator, Minus1, Relative;
    var ft0 := ReadBuffer(env, start, m, bounds, strides, wPtr, W(Three(it - 3)));
    var ft1 := ReadBuffer(env, start, m, bounds, strides, tPtr, T(Two(it - 3)));
    var ft2 := Fp1Loop(env.f, env.size / 4, ft0, ft1);
    m' := WriteBuffer(env, start, m, bounds, strides, bPtr, Result(Three(it - 3)), ft2);
    Rotation(it);
    FilledAssigned(env, it, FPS, m, m', Result(Three(it - 3)), ft2);
  }

  /** FP0 phase (lines 112-145). */
  method Fp0Phase(env: Env, start: nat, it: nat, m: Mem, bounds: seq<nat>, strides: seq<nat>, aPtr: nat, kdPtr: nat,
                  wPtr: nat)
    returns (m': Mem)
    requires Ready(env, start, m) && Batch(env, it - 1) && !Batch(env, it - 3)
    requires Positive([env.size]) && bounds == Minus1([env.size]) && strides == Relative([8], [env.size], 0)
    requires aPtr == Address(start, env.size, Input(Two(it - 1)), 0)
             && kdPtr == Address(start, env.size, Ki(Three(it - 1)), 0)
    requires wPtr == Address(start, env.size, W(Three(it - 1)), 0)
    ensures Assigned(env, it, FPS, m, m')
  {
    hide Get, Elem, Two, Three, Address, Generator, Minus1, Relative;
    var ft0 := ReadBuffer(env, start, m, bounds, strides, aPtr, Input(Two(it - 1)));
    var ft1, ft2 := Fp0Loop(env.f, env.size / 4, ft0);
    var m1 := WriteBuffer(env, start, m, bounds, strides, kdPtr, Ki(Three(it - 1)), ft1);
    m' := WriteBuffer(env, start, m1, bounds, strides, wPtr, W(Three(it - 1)), ft2);
    Fp0Assigned(env, it, m, m1, m', ft1, ft2);
  }

  lemma {:induction false} Fp0Assigned(env: Env, it: nat, m: Mem, m1: Mem, m': Mem, kd: seq<Word>, w: seq<Word>)
    requires EnvOk(env) && Batch(env, it - 1) && !Batch(env, it - 3)
    requires Filled(env, m, m1, Ki(Three(it - 1)), kd) && Filled(env, m1, m', W(Three(it - 1)), w)
    requires forall j | 0 <= j < env.size ::
               kd[j] == Kd(env.f, Get(env, m, L1(Input(Two(it - 1)), j)))
                   && w[j] == Poly(env.f, Get(env, m, L1(Input(Two(it - 1)), j)))
    ensures Assigned(env, it, FPS, m, m')
  {
    hide Get, Elem, Two, Three, Kd, Poly;
    Rotation(it);
    forall l | LocOk(env, l) ensures Get(env, m', l) == After(env, it, FPS, m, l) {
      match l {
        case L1(r, j) =>
        case Out(k, j) => OutKept(env, m, m', k, j);
      }
    }
  }

  /** The element of a woven stream that belongs to element `4 * g + e` of its `d`-th buffer. */
  lemma {:induction false} WovenPlace(r: nat, step: nat, h: nat, g: nat, d: nat, e: nat)
    requires d < h && e < 4
    ensures Buf(r, step, h, 4 * (g * h + d) + e) == r + step * d && Idx(h, 4 * (g * h + d) + e) == 4 * g + e
  {
    hide Quot, Rem;
    Unique(4 * (g * h + d) + e, 4, g * h + d, e);
    Unique(g * h + d, h, g, d);
  }

  /** What the fused body leaves at element `j` of the three buffers it writes. */
  lemma {:induction false} FusedElement(env: Env, m: Mem, m': Mem, i2: nat, i3: nat, w: nat, j: nat,
                                        ft0: seq<Word>, ft1: seq<Word>, ft2: seq<Word>)
    requires EnvOk(env) && i2 < 2 && i3 < 3 && w < REGIONS && j < env.size
    requires WovenFilled(env, m, m', Ki(i3), 3, 3, ft2)
    requires WovenRead(env, m, Input(i2), 2, 2, ft0) && |ft0| == env.size * 2 && |ft1| == env.size
    requires MemOk(env, m) && MemOk(env, m') && |ft2| == env.size * 3
    requires forall k | 0 <= k < env.size :: ft1[k] == Get(env, m, L1(w, k))
    requires forall g, h, e | 0 <= g < env.size / 4 && 0 <= h < 3 && 0 <= e < 4 ::
               ft2[12 * g + 4 * h + e] == FusedAt(env.f, ft0, ft1, g, h, e)
    ensures Get(env, m', L1(Ki(i3), j)) == Kd(env.f, Get(env, m, L1(Input(i2), j)))
    ensures Get(env, m', L1(W(i3), j)) == Poly(env.f, Get(env, m, L1(Input(i2), j)))
    ensures Get(env, m', L1(Ki(i3) + 6, j)) == env.f.mul(Get(env, m, L1(w, j)), Get(env, m, L1(T(i2), j)))
  {
    hide Get, Buf, Idx, Kd, Poly, WovenRead, WovenFilled, EnvOk;
    var g, e := GroupOf(env, j);
    FusedPlace(i2, i3, g, e);
    WovenReadAt(env, m, Input(i2), 2, 2, ft0, 8 * g + e);
    WovenReadAt(env, m, Input(i2), 2, 2, ft0, 8 * g + 4 + e);
    WovenFilledAt(env, m, m', Ki(i3), 3, 3, ft2, 12 * g + e);
    WovenFilledAt(env, m, m', Ki(i3), 3, 3, ft2, 12 * g + 4 + e);
    WovenFilledAt(env, m, m', Ki(i3), 3, 3, ft2, 12 * g + 8 + e);
    assert ft2[12 * g + 4 * 0 + e] == FusedAt(env.f, ft0, ft1, g, 0, e);
    assert ft2[12 * g + 4 * 1 + e] == FusedAt(env.f, ft0, ft1, g, 1, e);
    assert ft2[12 * g + 4 * 2 + e] == FusedAt(env.f, ft0, ft1, g, 2, e);
  }

  lemma {:induction false} GroupOf(env: Env, j: nat) returns (g: nat, e: nat)
    requires EnvOk(env) && j < env.size
    ensures j == 4 * g + e && e < 4 && g < env.size / 4 && env.size == 4 * (env.size / 4)
  {
    g, e := j / 4, j % 4;
  }

  lemma {:induction false} WovenReadAt(env: Env, m: Mem, r: nat, step: nat, h: nat, values: seq<Word>, k: nat)
    requires h > 0 && WovenRead(env, m, r, step, h, values) && k < env.size * h
    ensures MemOk(env, m) && |values| == env.size * h && Buf(r, step, h, k) < REGIONS && Idx(h, k) < env.size
    ensures values[k] == Get(env, m, L1(Buf(r, step, h, k), Idx(h, k)))
  {
    hide Get, Buf, Idx;
  }

  lemma {:induction false} WovenFilledAt(env: Env, m: Mem, m': Mem, r: nat, step: nat, h: nat, values: seq<Word>,
                                         k: nat)
    requires h > 0 && WovenFilled(env, m, m', r, step, h, values) && k < env.size * h
    ensures MemOk(env, m') && |values| == env.size * h && Buf(r, step, h, k) < REGIONS && Idx(h, k) < env.size
    ensures Get(env, m', L1(Buf(r, step, h, k), Idx(h, k))) == values[k]
  {
    hide Get, Buf, Idx;
  }

  /**
   The allocation order at work: two buffers after an input comes its scale buffer; three after `ki`
   comes `w`, six after it a result.
   */
  lemma {:induction false} FusedPlace(i2: nat, i3: nat, g: nat, e: nat)
    requires i2 < 2 && i3 < 3 && e < 4
    ensures Buf(Input(i2), 2, 2, 8 * g + e) == Input(i2) && Idx(2, 8 * g + e) == 4 * g + e
    ensures Buf(Input(i2), 2, 2, 8 * g + 4 + e) == T(i2) && Idx(2, 8 * g + 4 + e) == 4 * g + e
    ensures Buf(Ki(i3), 3, 3, 12 * g + e) == Ki(i3) && Idx(3, 12 * g + e) == 4 * g + e
    ensures Buf(Ki(i3), 3, 3, 12 * g + 4 + e) == W(i3) && Idx(3, 12 * g + 4 + e) == 4 * g + e
    ensures Buf(Ki(i3), 3, 3, 12 * g + 8 + e) == Ki(i3) + 6 && Idx(3, 12 * g + 8 + e) == 4 * g + e
  {
    hide Buf, Idx;
    WovenPlace(Input(i2), 2, 2, g, 0, e);
    WovenPlace(Input(i2), 2, 2, g, 1, e);
    WovenPlace(Ki(i3), 3, 3, g, 0, e);
    WovenPlace(Ki(i3), 3, 3, g, 1, e);
    WovenPlace(Ki(i3), 3, 3, g, 2, e);
  }

  /** The result buffers are allocated b1, b2, b0, so that six buffers after `ki` comes the batch two behind. */
  lemma {:induction false} ResultFollows(it: int)
    ensures Result(Three(it - 3)) == Ki(Three(it - 1)) + 6
  {
  }

  lemma {:induction false} FusedAssigned(env: Env, it: nat, m: Mem, m': Mem, ft0: seq<Word>, ft1: seq<Word>,
                                         ft2: seq<Word>)
    requires EnvOk(env) && Batch(env, it - 1) && Batch(env, it - 3)
    requires WovenFilled(env, m, m', Ki(Three(it - 1)), 3, 3, ft2)
    requires WovenRead(env, m, Input(Two(it - 1)), 2, 2, ft0) && |ft0| == env.size * 2 && |ft1| == env.size
    requires forall k | 0 <= k < env.size :: ft1[k] == Get(env, m, L1(W(Three(it - 3)), k))
    requires forall g, h, e | 0 <= g < env.size / 4 && 0 <= h < 3 && 0 <= e < 4 ::
               ft2[12 * g + 4 * h + e] == FusedAt(env.f, ft0, ft1, g, h, e)
    ensures Assigned(env, it, FPS, m, m')
  {
    Rotation(it);
    ResultFollows(it);
    hide Get, Buf, Idx, Kd, Poly, Two, Three, FusedAt, Elem, WovenRead;
    var i3 := Three(it - 1);
    forall l | LocOk(env, l) ensures Get(env, m', l) == After(env, it, FPS, m, l) {
      match l {
        case L1(r, j) =>
          FusedElement(env, m, m', Two(it - 1), i3, W(Three(it - 3)), j, ft0, ft1, ft2);
          if r != Ki(i3) && r != W(i3) && r != Ki(i3) + 6 {
            forall d: nat | d < 3 ensures r != Ki(i3) + 3 * d {
            }
          }
        case Out(k, j) => OutKept(env, m, m', k, j);
      }
    }
  }

  /** Both FP0 and FP1 (lines 147-192). */
  method FusedPhase(env: Env, start: nat, it: nat, m: Mem, bounds0: seq<nat>, strides0: seq<nat>, bounds1: seq<nat>,
                    strides1: seq<nat>, bounds2: seq<nat>, strides2: seq<nat>, aPtr: nat, wPtr: nat, kdPtr: nat)
    returns (m': Mem)
    requires Ready(env, start, m) && Batch(env, it - 1) && Batch(env, it - 3)
    requires Positive([4, 2, env.size / 4]) && Positive([4, 3, env.size / 4]) && Positive([env.size])
    requires bounds0 == Minus1([4, 2, env.size / 4])
             && strides0 == Relative([8, 8 * 2 * env.size, 32], [4, 2, env.size / 4], 0)
    requires bounds1 == Minus1([env.size]) && strides1 == Relative([8], [env.size], 0)
    requires bounds2 == Minus1([4, 3, env.size / 4])
             && strides2 == Relative([8, 8 * 3 * env.size, 32], [4, 3, env.size / 4], 0)
    requires aPtr == Address(start, env.size, Input(Two(it - 1)), 0)
             && wPtr == Address(start, env.size, W(Three(it - 3)), 0)
    requires kdPtr == Address(start, env.size, Ki(Three(it - 1)), 0)
    ensures Assigned(env, it, FPS, m, m')
  {
    hide Get, Elem, Two, Three, Address, Generator, Minus1, Relative, Buf, Idx, FusedAt;
    var ft0 := ReadWoven(env, start, m, bounds0, strides0, aPtr, Input(Two(it - 1)), 2, 2);
    var ft1 := ReadBuffer(env, start, m, bounds1, strides1, wPtr, W(Three(it - 3)));
    var ft2 := FusedLoop(env.f, env.size / 4, ft0, ft1);
    m' := WriteWoven(env, start, m, bounds2, strides2, kdPtr, Ki(Three(it - 1)), 3, 3, ft2);
    FusedAssigned(env, it, m, m', ft0, ft1, ft2);
  }
}
