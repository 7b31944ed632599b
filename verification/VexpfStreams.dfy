/**
 Streams over the buffers of the exponential kernel: where each element of a
 configured stream lies.  The buffers are contiguous in allocation order
 (vexpf_optimized.h:26-41, alloc_v2.h:74-82), so one 3-D stream passes from a
 buffer to the one two or three buffers further on and back.
 */
module VexpfStreams {
  import opened Wrappers
  import opened Arithmetic
  import opened Ssr
  import opened VexpfAsm
  import opened VexpfBuffers
  import opened Words

  /** The address of element `j` of buffer `r`. */
  function Address(base: nat, size: nat, r: nat, j: nat): nat {
    base + 8 * Elem(size, r, j)
  }

  ghost predicate Fits(base: nat, size: nat) {
    size > 0 && size % 4 == 0 && base + 8 * (REGIONS * size) <= WORD
  }

  /** Element `k` of a stream goes to word `spots[k]`. */
  ghost predicate Spots(base: nat, bounds: seq<nat>, strides: seq<nat>, ptr: nat, spots: seq<nat>, words: nat)
    requires |bounds| == |strides|
  {
    && (forall k: nat | k < |spots| ::
          var g := Generator(ptr, bounds, strides, k);
          spots[k] < words && g.Some? && g.value.1 == base + 8 * spots[k])
    && Generator(ptr, bounds, strides, |spots|).None?
  }

  /** Reading a whole stream, one generator step per element. */
  method ReadStream(l1: seq<Word>, base: nat, bounds: seq<nat>, strides: seq<nat>, ptr: nat, ghost spots: seq<nat>,
                    count: nat)
    returns (values: seq<Word>)
    requires |bounds| == |strides| && count == |spots| > 0 && Spots(base, bounds, strides, ptr, spots, |l1|)
    ensures |values| == count && forall k | 0 <= k < count :: values[k] == l1[spots[k]]
  {
    hide Generator, Advance;
    var idx, addr := Zeros(|bounds|), ptr;
    GeneratorStep(ptr, bounds, strides, 0);
    values := [l1[(addr - base) / 8]];
    for k := 1 to count
      invariant |values| == k && |idx| == |bounds|
      invariant Generator(ptr, bounds, strides, k - 1) == Some((idx, addr))
      invariant forall i | 0 <= i < k :: values[i] == l1[spots[i]]
    {
      GeneratorStep(ptr, bounds, strides, k);
      var next := Advance(idx, bounds, strides);
      assert Generator(ptr, bounds, strides, k).Some?;
      idx, addr := next.value.0, (addr + next.value.1) % WORD;
      values := values + [l1[(addr - base) / 8]];
    }
  }

  /** Writing a whole stream. */
  method WriteStream(l1: seq<Word>, base: nat, bounds: seq<nat>, strides: seq<nat>, ptr: nat, ghost spots: seq<nat>,
                     values: seq<Word>)
    returns (l1': seq<Word>)
    requires |bounds| == |strides| && |values| == |spots| > 0 && Spots(base, bounds, strides, ptr, spots, |l1|)
    requires forall i, j | 0 <= i < j < |spots| :: spots[i] != spots[j]
    ensures |l1'| == |l1|
    ensures forall k | 0 <= k < |spots| :: l1'[spots[k]] == values[k]
    ensures forall x | 0 <= x < |l1| && x !in spots :: l1'[x] == l1[x]
  {
    hide Generator, Advance;
    var idx, addr := Zeros(|bounds|), ptr;
    GeneratorStep(ptr, bounds, strides, 0);
    assert addr == base + 8 * spots[0];
    l1' := l1[(addr - base) / 8 := values[0]];
    for k := 1 to |values|
      invariant |l1'| == |l1| && |idx| == |bounds|
      invariant Generator(ptr, bounds, strides, k - 1) == Some((idx, addr))
      invariant forall i | 0 <= i < k :: l1'[spots[i]] == values[i]
      invariant forall x | 0 <= x < |l1| && x !in spots :: l1'[x] == l1[x]
    {
      GeneratorStep(ptr, bounds, strides, k);
      var next := Advance(idx, bounds, strides);
      assert Generator(ptr, bounds, strides, k).Some?;
      idx, addr := next.value.0, (addr + next.value.1) % WORD;
      assert addr == base + 8 * spots[k];
      l1' := l1'[(addr - base) / 8 := values[k]];
    }
  }

  // ----- one buffer, front to back

  function Line(size: nat, r: nat): (s: seq<nat>)
    ensures |s| == size && forall j | 0 <= j < size :: s[j] == Elem(size, r, j)
  {
    seq(size, j requires 0 <= j < size => Elem(size, r, j))
  }

  lemma {:induction false} AddressFits(base: nat, size: nat, r: nat, j: nat)
    requires Fits(base, size) && r < REGIONS && j < size
    ensures Elem(size, r, j) < REGIONS * size && Address(base, size, r, j) % WORD == Address(base, size, r, j) < WORD
  {
    ElemFits(size, r, j, REGIONS);
    hide Elem;
  }

  lemma {:induction false} OneDimension(k: nat, size: nat)
    requires size > 0
    ensures Positive([size]) && Prod([size]) == size
    ensures k < size ==> Digits(k, [size]) == [k] && Dot([8], [k]) == 8 * k
  {
    assert Prod([]) == 1 && [size][1..] == [];
    if k < size {
      Unique(k, size, 0, k);
      DigitsStep(k, [size]);
      DotStep(8, [], k, []);
      DotEmpty();
      assert [8] + [] == [8] && [k] + [] == [k] && Digits(Quot(k, size), []) == [];
    }
  }

  lemma {:induction false} LineAt(base: nat, size: nat, r: nat, k: nat)
    requires Fits(base, size) && r < REGIONS
    ensures Positive([size])
    ensures var g := Generator(Address(base, size, r, 0), Minus1([size]), Relative([8], [size], 0), k);
            if k < size then Elem(size, r, k) < REGIONS * size && g.Some?
                && g.value.1 == Address(base, size, r, k) else g.None?
  {
    hide Generator, Minus1, Relative, Digits, Dot, Prod;
    AddressFits(base, size, r, 0);
    StreamIsLoopNest(Address(base, size, r, 0), [8], [size], k);
    OneDimension(k, size);
    if k < size {
      AddressFits(base, size, r, k);
    }
  }

  lemma {:induction false} LineSpots(base: nat, size: nat, r: nat)
    requires Fits(base, size) && r < REGIONS
    ensures Positive([size])
    ensures Spots(base, Minus1([size]), Relative([8], [size], 0), Address(base, size, r, 0), Line(size, r),
            REGIONS * size)
  {
    hide Generator, Minus1, Relative, Elem;
    forall k: nat ensures
        var g := Generator(Address(base, size, r, 0), Minus1([size]), Relative([8], [size], 0), k);
        if k < size then Elem(size, r, k) < REGIONS * size && g.Some?
            && g.value.1 == Address(base, size, r, k) else g.None?
    {
      LineAt(base, size, r, k);
    }
  }

  // ----- several buffers, four elements of each in turn

  /** The buffer of element `k` of a stream over `h` buffers, `step` apart, from buffer `r` on. */
  function Buf(r: nat, step: nat, h: nat, k: nat): nat
    requires h > 0
  {
    r + step * Rem(Quot(k, 4), h)
  }

  /** Its index within the buffer. */
  function Idx(h: nat, k: nat): nat
    requires h > 0
  {
    4 * Quot(Quot(k, 4), h) + Rem(k, 4)
  }

  function Spot(size: nat, r: nat, step: nat, h: nat, k: nat): nat
    requires h > 0
  {
    Elem(size, Buf(r, step, h, k), Idx(h, k))
  }

  function Woven(size: nat, r: nat, step: nat, h: nat): (s: seq<nat>)
    requires h > 0
    ensures |s| == size * h && forall k | 0 <= k < size * h :: s[k] == Spot(size, r, step, h, k)
  {
    seq(size * h, k requires 0 <= k < size * h => Spot(size, r, step, h, k))
  }

  lemma {:induction false} Digits3(k: nat, h: nat, n: nat)
    requires h > 0 && n > 0
    ensures Positive([4, h, n])
    ensures Digits(k, [4, h, n]) == [Rem(k, 4), Rem(Quot(k, 4), h), Rem(Quot(Quot(k, 4), h), n)]
  {
    hide Quot, Rem;
    DigitsStep(k, [4, h, n]);
    assert [4, h, n][1..] == [h, n] && [h, n][1..] == [n];
    DigitsStep(Quot(k, 4), [h, n]);
    DigitsStep(Quot(Quot(k, 4), h), [n]);
    assert Digits(Quot(Quot(Quot(k, 4), h), n), []) == [];
  }

  lemma {:induction false} Dot3(s0: nat, s1: nat, s2: nat, d0: nat, d1: nat, d2: nat)
    ensures Dot([s0, s1, s2], [d0, d1, d2]) == s0 * d0 + s1 * d1 + s2 * d2
  {
    hide Dot;
    assert [s0] + [s1, s2] == [s0, s1, s2] && [d0] + [d1, d2] == [d0, d1, d2];
    assert [s1] + [s2] == [s1, s2] && [d1] + [d2] == [d1, d2];
    assert [s2] + [] == [s2] && [d2] + [] == [d2];
    DotStep(s0, [s1, s2], d0, [d1, d2]);
    DotStep(s1, [s2], d1, [d2]);
    DotStep(s2, [], d2, []);
    DotEmpty();
  }

  lemma {:induction false} DotEmpty()
    ensures Dot([], []) == 0
  {
  }

  lemma {:induction false} Prod3(h: nat, n: nat)
    ensures Prod([4, h, n]) == 4 * (h * n)
  {
    assert [4, h, n][1..] == [h, n] && [h, n][1..] == [n] && [n][1..] == [];
    assert Prod([n]) == n * Prod([]);
  }

  /** The element index within a buffer. */
  lemma {:induction false} WovenIndex(k: nat, h: nat, n: nat)
    requires h > 0
    ensures k < 4 * (h * n) <==> Quot(Quot(k, 4), h) < n
  {
    hide Quot, Rem;
    QuotBelow(k, 4, h * n);
    QuotBelow(Quot(k, 4), h, n);
  }

  lemma {:induction false} WovenAddress(base: nat, size: nat, r: nat, step: nat, d0: nat, d1: nat, d2: nat)
    ensures Address(base, size, r, 0) + (8 * d0 + (8 * step * size) * d1 + 32 * d2)
            == Address(base, size, r + step * d1, 4 * d2 + d0)
  {
    Distribute(size, r, step * d1);
    assert (step * d1) * size == (step * size) * d1;
    assert (8 * step * size) * d1 == 8 * ((step * size) * d1);
  }

  lemma {:induction false} WovenAt(base: nat, size: nat, r: nat, step: nat, h: nat, n: nat, k: nat)
    requires Fits(base, size) && size == 4 * n && h > 0 && r + step * (h - 1) < REGIONS
    ensures Positive([4, h, n])
    ensures var g := Generator(Address(base, size, r, 0), Minus1([4, h, n]),
            Relative([8, 8 * step * size, 32], [4, h, n], 0), k);
            if k < 4 * (h * n) then
              Spot(size, r, step, h, k) < REGIONS * size && g.Some? && g.value.1 == base + 8 * Spot(size, r, step, h, k)
            else g.None?
  {
    var stride := 8 * step * size;
    var d0, d1, d2 := Rem(k, 4), Rem(Quot(k, 4), h), Quot(Quot(k, 4), h);
    assert Spot(size, r, step, h, k) == Elem(size, r + step * d1, 4 * d2 + d0);
    Prod3(h, n);
    BufferBound(r, step, 0, h);
    BufferBound(r, step, d1, h);
    WovenIndex(k, h, n);
    WovenAddress(base, size, r, step, d0, d1, d2);
    Digits3(k, h, n);
    Dot3(8, stride, 32, d0, d1, d2);
    AddressFits(base, size, r, 0);
    hide Quot, Rem, Generator, Minus1, Relative, Digits, Dot, Prod, Elem, Spot;
    StreamIsLoopNest(Address(base, size, r, 0), [8, stride, 32], [4, h, n], k);
    if k < 4 * (h * n) {
      Unique(d2, n, 0, d2);
      AddressFits(base, size, r + step * d1, 4 * d2 + d0);
      assert Dot([8, stride, 32], Digits(k, [4, h, n])) == 8 * d0 + stride * d1 + 32 * d2;
    }
  }

  lemma {:induction false} BufferBound(r: nat, step: nat, d: nat, h: nat)
    requires r + step * (h - 1) < REGIONS && d < h
    ensures r + step * d < REGIONS
  {
    MulMono(d, h - 1, step);
    Commute(step, d);
    Commute(step, h - 1);
  }

  lemma {:induction false} WovenSpots(base: nat, size: nat, r: nat, step: nat, h: nat, n: nat)
    requires Fits(base, size) && size == 4 * n && h > 0 && r + step * (h - 1) < REGIONS
    ensures Positive([4, h, n])
    ensures Spots(base, Minus1([4, h, n]), Relative([8, 8 * step * size, 32], [4, h, n], 0), Address(base, size, r, 0),
                  Woven(size, r, step, h), REGIONS * size)
  {
    hide Generator, Minus1, Relative, Spot, Address;
    assert size * h == 4 * (h * n);
    forall k: nat ensures
        var g := Generator(Address(base, size, r, 0), Minus1([4, h, n]),
            Relative([8, 8 * step * size, 32], [4, h, n], 0), k);
        if k < 4 * (h * n) then
          Spot(size, r, step, h, k) < REGIONS * size && g.Some? && g.value.1 == base + 8 * Spot(size, r, step, h, k)
        else g.None?
    {
      WovenAt(base, size, r, step, h, n, k);
    }
  }
}
