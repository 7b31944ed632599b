/**
 Stream semantic registers (sw/runtime/src/ssr.h:178-268): the loop setup writes
 each dimension's stride relative to the distance the inner dimensions have
 already moved, and the address generator (hw/snitch_ssr/src/snitch_ssr_addr_gen.sv:
 296-362) adds the stride of the innermost dimension that is not at its bound.
 `StreamIsLoopNest`: together they produce the addresses of the affine loop nest.
 Words are natural numbers below 2^32; dimension 0 is the innermost one.
 */
module Ssr {
  import opened Wrappers
  import opened Arithmetic
  import opened Words

  /** Values equal modulo 2^32. */
  predicate Same(x: int, y: int) {
    x % WORD == y % WORD
  }

  function Prod(bs: seq<nat>): nat {
    if bs == [] then 1 else bs[0] * Prod(bs[1..])
  }

  function Dot(ss: seq<nat>, idx: seq<nat>): int
    requires |ss| == |idx|
  {
    if ss == [] then 0 else ss[0] * idx[0] + Dot(ss[1..], idx[1..])
  }

  predicate Positive(bs: seq<nat>) {
    forall i | 0 <= i < |bs| :: bs[i] > 0
  }

  /** The loop indices of the `k`-th iteration of a nest. */
  function Digits(k: nat, bs: seq<nat>): (d: seq<nat>)
    requires Positive(bs)
    ensures |d| == |bs|
    decreases |bs|
  {
    if bs == [] then [] else [Rem(k, bs[0])] + Digits(Quot(k, bs[0]), bs[1..])
  }

  /** The strides the setup writes, `moved` being what the inner dimensions have moved. */
  function Relative(ss: seq<nat>, bs: seq<int>, moved: int): (r: seq<nat>)
    requires |ss| == |bs|
    ensures |r| == |ss|
  {
    if ss == [] then []
    else [(ss[0] - moved) % WORD] + Relative(ss[1..], bs[1..], moved + ss[0] * (bs[0] - 1))
  }

  /** One advance of the hardware counters: the new indices and the stride added; `None` when the nest is finished. */
  function Advance(idx: seq<nat>, bounds: seq<nat>, strides: seq<nat>): Option<(seq<nat>, nat)>
    requires |idx| == |bounds| == |strides|
  {
    if idx == [] then None
    else if idx[0] != bounds[0] then Some(([idx[0] + 1] + idx[1..], strides[0]))
    else
      var (outer, stride) :- Advance(idx[1..], bounds[1..], strides[1..]);
      Some(([0] + outer, stride))
  }

  function Zeros(n: nat): (z: seq<nat>)
    ensures |z| == n && forall i | 0 <= i < n :: z[i] == 0
  {
    seq(n, _ => 0)
  }

  /** The generator after `k` elements, started at `base`; `None` when the stream has fewer. */
  function Generator(base: nat, bounds: seq<nat>, strides: seq<nat>, k: nat): (g: Option<(seq<nat>, nat)>)
    requires |bounds| == |strides|
    ensures g.Some? ==> |g.value.0| == |bounds|
  {
    if k == 0 then Some((Zeros(|bounds|), base))
    else
      var (idx, ptr) :- Generator(base, bounds, strides, k - 1);
      var (next, stride) :- Advance(idx, bounds, strides);
      if |next| != |bounds| then None else Some((next, (ptr + stride) % WORD))
  }

  // ----- the theorem

  function Minus1(bs: seq<nat>): (r: seq<nat>)
    requires Positive(bs)
    ensures |r| == |bs|
  {
    if bs == [] then [] else [bs[0] - 1] + Minus1(bs[1..])
  }

  lemma {:induction false} SameMod(x: int)
    ensures Same(x % WORD, x)
  {
  }

  lemma {:induction false} DigitsStep(k: nat, bs: seq<nat>)
    requires bs != [] && Positive(bs)
    ensures Positive(bs[1..]) && Digits(k, bs) == [Rem(k, bs[0])] + Digits(Quot(k, bs[0]), bs[1..])
    ensures Digits(k, bs)[0] == Rem(k, bs[0]) && Digits(k, bs)[1..] == Digits(Quot(k, bs[0]), bs[1..])
  {
  }

  lemma {:induction false} DotStep(s: nat, ss: seq<nat>, d: nat, idx: seq<nat>)
    requires |ss| == |idx|
    ensures Dot([s] + ss, [d] + idx) == s * d + Dot(ss, idx)
  {
    assert ([s] + ss)[1..] == ss && ([d] + idx)[1..] == idx;
  }

  lemma {:induction false} SetupStep(s: nat, ss: seq<nat>, b: nat, bs: seq<nat>, moved: int)
    requires |ss| == |bs| && b > 0 && Positive(bs)
    ensures Positive([b] + bs)
    ensures Relative([s] + ss, [b] + bs, moved) == [(s - moved) % WORD] + Relative(ss, bs, moved + s * (b - 1))
    ensures Minus1([b] + bs) == [b - 1] + Minus1(bs)
  {
    assert ([s] + ss)[1..] == ss && ([b] + bs)[1..] == bs;
  }

  lemma {:induction false} AdvanceStep(d: nat, idx: seq<nat>, b: nat, bounds: seq<nat>, r: nat, strides: seq<nat>)
    requires |idx| == |bounds| == |strides|
    ensures Advance([d] + idx, [b] + bounds, [r] + strides)
            == if d != b then Some(([d + 1] + idx, r))
               else match Advance(idx, bounds, strides) case None => None case Some(a) => Some(([0] + a.0, a.1))
  {
    assert ([d] + idx)[1..] == idx && ([b] + bounds)[1..] == bounds && ([r] + strides)[1..] == strides;
  }

  /** What an advance owes: the indices of iteration `k + 1`, and the distance to it less what was moved already. */
  ghost predicate Next(a: Option<(seq<nat>, nat)>, k: nat, ss: seq<nat>, bs: seq<nat>, moved: int)
    requires |ss| == |bs| && Positive(bs)
  {
    && a.Some? && a.value.0 == Digits(k + 1, bs)
    && Same(a.value.1, Dot(ss, Digits(k + 1, bs)) - Dot(ss, Digits(k, bs)) - moved)
  }

  lemma {:induction false} InnerNext(k: nat, s: nat, rest: seq<nat>, b: nat, outer: seq<nat>, moved: int)
    requires |rest| == |outer| && b > 0 && Positive(outer) && Positive([b] + outer) && Rem(k, b) + 1 < b
    ensures Next(Some(([Rem(k, b) + 1] + Digits(Quot(k, b), outer), (s - moved) % WORD)), k, [s] + rest, [b] + outer,
            moved)
  {
    hide Quot, Rem, Digits, Dot, Same;
    var q, r := Quot(k, b), Rem(k, b);
    QuotNext(k, b);
    DigitsStep(k, [b] + outer);
    DigitsStep(k + 1, [b] + outer);
    assert ([b] + outer)[1..] == outer;
    DotStep(s, rest, r, Digits(q, outer));
    DotStep(s, rest, r + 1, Digits(q, outer));
    Distribute(s, r, 1);
    SameMod(s - moved);
  }

  lemma {:induction false} OuterNext(k: nat, s: nat, rest: seq<nat>, b: nat, outer: seq<nat>, moved: int,
                                     a: Option<(seq<nat>, nat)>)
    requires |rest| == |outer| && b > 0 && Positive(outer) && Positive([b] + outer) && Rem(k, b) + 1 == b
    requires Next(a, Quot(k, b), rest, outer, moved + s * (b - 1))
    ensures Next(Some(([0] + a.value.0, a.value.1)), k, [s] + rest, [b] + outer, moved)
  {
    hide Quot, Rem, Digits, Dot, Same;
    var q := Quot(k, b);
    QuotNext(k, b);
    DigitsStep(k, [b] + outer);
    DigitsStep(k + 1, [b] + outer);
    assert ([b] + outer)[1..] == outer;
    DotStep(s, rest, b - 1, Digits(q, outer));
    DotStep(s, rest, 0, Digits(q + 1, outer));
  }

  /** An advance goes to the next iteration, and there is one until the nest is finished. */
  lemma {:induction false} AdvanceIsNext(k: nat, ss: seq<nat>, bs: seq<nat>, moved: int)
    requires |ss| == |bs| && Positive(bs) && k < Prod(bs)
    ensures var a := Advance(Digits(k, bs), Minus1(bs), Relative(ss, bs, moved));
            if k + 1 == Prod(bs) then a.None? else k + 1 < Prod(bs) && Next(a, k, ss, bs, moved)
    decreases |bs|
  {
    if bs != [] {
      var b, outer, s, rest := bs[0], bs[1..], ss[0], ss[1..];
      assert bs == [b] + outer && ss == [s] + rest && Prod(bs) == b * Prod(outer);
      hide Quot, Rem, Digits, Dot, Relative, Minus1, Advance, Prod, Next;
      QuotNext(k, b);
      QuotBelow(k, b, Prod(outer));
      QuotBelow(k + 1, b, Prod(outer));
      DigitsStep(k, bs);
      SetupStep(s, rest, b, outer, moved);
      AdvanceStep(Rem(k, b), Digits(Quot(k, b), outer), b - 1, Minus1(outer), (s - moved) % WORD,
                  Relative(rest, outer, moved + s * (b - 1)));
      if Rem(k, b) + 1 < b {
        InnerNext(k, s, rest, b, outer, moved);
      } else {
        AdvanceIsNext(Quot(k, b), rest, outer, moved + s * (b - 1));
        if Quot(k, b) + 1 != Prod(outer) {
          var a := Advance(Digits(Quot(k, b), outer), Minus1(outer), Relative(rest, outer, moved + s * (b - 1)));
          NextIsSome(a, Quot(k, b), rest, outer, moved + s * (b - 1));
          OuterNext(k, s, rest, b, outer, moved, a);
        }
      }
    }
  }

  lemma {:induction false} NextIsSome(a: Option<(seq<nat>, nat)>, k: nat, ss: seq<nat>, bs: seq<nat>, moved: int)
    requires |ss| == |bs| && Positive(bs) && Next(a, k, ss, bs, moved)
    ensures a.Some?
  {
  }

  lemma {:induction false} FirstDigits(bs: seq<nat>)
    requires Positive(bs)
    ensures Digits(0, bs) == Zeros(|bs|)
  {
    if bs != [] {
      FirstDigits(bs[1..]);
      Unique(0, bs[0], 0, 0);
      assert Zeros(|bs|) == [0] + Zeros(|bs| - 1);
    }
  }

  lemma {:induction false} DotZeros(ss: seq<nat>)
    ensures Dot(ss, Zeros(|ss|)) == 0
  {
    if ss != [] {
      assert Zeros(|ss|)[1..] == Zeros(|ss| - 1);
      DotZeros(ss[1..]);
    }
  }

  /**
   The `k`-th address of a stream set up for a loop nest is the address of the
   nest's `k`-th iteration, modulo 2^32, and the stream has exactly as many
   elements as the nest has iterations: for every number of dimensions, all
   bounds of at least one, all strides and every start.
   */
  lemma {:induction false} StreamIsLoopNest(base: nat, ss: seq<nat>, bs: seq<nat>, k: nat)
    requires |ss| == |bs| && Positive(bs) && base < WORD
    ensures Generator(base, Minus1(bs), Relative(ss, bs, 0), k)
            == if k < Prod(bs) then Some((Digits(k, bs), (base + Dot(ss, Digits(k, bs))) % WORD)) else None
  {
    hide Digits, Dot, Relative, Minus1, Prod, Advance, Generator;
    GeneratorStep(base, Minus1(bs), Relative(ss, bs, 0), k);
    if k == 0 {
      FirstDigits(bs);
      DotZeros(ss);
      ProdPositive(bs);
      MinusLength(bs);
    } else {
      StreamIsLoopNest(base, ss, bs, k - 1);
      if k - 1 < Prod(bs) {
        AdvanceIsNext(k - 1, ss, bs, 0);
        if k < Prod(bs) {
          var a := Advance(Digits(k - 1, bs), Minus1(bs), Relative(ss, bs, 0)).value;
          SumMod(base, Dot(ss, Digits(k - 1, bs)), Dot(ss, Digits(k, bs)), a.1);
        }
      }
    }
  }

  lemma {:induction false} MinusLength(bs: seq<nat>)
    requires Positive(bs)
    ensures |Minus1(bs)| == |bs|
  {
  }

  lemma {:induction false} GeneratorStep(base: nat, bounds: seq<nat>, strides: seq<nat>, k: nat)
    requires |bounds| == |strides|
    ensures k == 0 ==> Generator(base, bounds, strides, k) == Some((Zeros(|bounds|), base))
    ensures k > 0 ==>
              Generator(base, bounds, strides, k)
              == match Generator(base, bounds, strides, k - 1)
                 case None => None
                 case Some(g) =>
                   match Advance(g.0, bounds, strides)
                   case None => None
                   case Some(a) => if |a.0| != |bounds| then None else Some((a.0, (g.1 + a.1) % WORD))
  {
  }

  lemma {:induction false} SumMod(base: int, d: int, d': int, stride: int)
    requires Same(stride, d' - d)
    ensures ((base + d) % WORD + stride) % WORD == (base + d') % WORD
  {
  }

  lemma {:induction false} ProdPositive(bs: seq<nat>)
    requires Positive(bs)
    ensures Prod(bs) > 0
  {
    if bs != [] {
      ProdPositive(bs[1..]);
      assert bs[0] * Prod(bs[1..]) > 0;
    }
  }

  // ----- the setup code

  /** `--b` on a 32-bit word. */
  function Dec(b: nat): (r: nat)
    ensures r < WORD && (0 < b <= WORD ==> r == b - 1)
  {
    (b + WORD - 1) % WORD
  }

  /** The bounds the setup writes. */
  function Decs(bs: seq<nat>): (r: seq<nat>)
    ensures |r| == |bs|
  {
    seq(|bs|, i requires 0 <= i < |bs| => Dec(bs[i]))
  }

  /** For bounds of one to 2^32 the registers the setup writes make the address generator walk the loop nest. */
  lemma {:induction false} SetUpStream(base: nat, ss: seq<nat>, bs: seq<nat>, k: nat)
    requires |ss| == |bs| && Positive(bs) && base < WORD && forall i | 0 <= i < |bs| :: bs[i] <= WORD
    ensures Generator(base, Decs(bs), Relative(ss, bs, 0), k)
            == if k < Prod(bs) then Some((Digits(k, bs), (base + Dot(ss, Digits(k, bs))) % WORD)) else None
  {
    DecsAre(bs);
    StreamIsLoopNest(base, ss, bs, k);
  }

  lemma {:induction false} DecsAre(bs: seq<nat>)
    requires Positive(bs) && forall i | 0 <= i < |bs| :: bs[i] <= WORD
    ensures Decs(bs) == Minus1(bs)
  {
    if bs != [] {
      DecsAre(bs[1..]);
      assert Decs(bs) == [Dec(bs[0])] + Decs(bs[1..]);
    }
  }

  lemma {:induction false} DecIs(b: nat) returns (j: int)
    ensures Dec(b) == b - 1 + WORD * j
  {
    j := 1 - (b + WORD - 1) / WORD;
  }

  lemma {:induction false} MulShift(s: int, x: int, w: int, j: int)
    ensures s * (x + w * j) == s * x + w * (s * j)
  {
    Distribute(s, x, w * j);
    assert s * (w * j) == w * (s * j);
  }

  /** The running offset is the exact distance moved, modulo 2^32. */
  lemma {:induction false} OffsetSame(a: nat, moved: int, s: nat, b: nat)
    requires Same(a, moved)
    ensures (s - a) % WORD == (s - moved) % WORD
    ensures Same((a + s * Dec(b)) % WORD, moved + s * (b - 1))
  {
    SameSub(s, a, moved);
    hide Dec, Same;
    var j := DecIs(b);
    MulShift(s, b - 1, WORD, j);
    Multiples(a, moved, s * (b - 1), s * j);
    SameMod(a + s * Dec(b));
    SameTrans(a + s * Dec(b), moved + s * (b - 1));
  }

  lemma {:induction false} SameSub(s: int, a: int, moved: int)
    requires Same(a, moved)
    ensures (s - a) % WORD == (s - moved) % WORD
  {
  }

  lemma {:induction false} SameTrans(x: int, y: int)
    requires x % WORD == y % WORD
    ensures Same(x % WORD, y)
  {
  }

  lemma {:induction false} Multiples(a: int, moved: int, x: int, m: int)
    requires Same(a, moved)
    ensures (a + (x + WORD * m)) % WORD == (moved + x) % WORD
  {
  }

  /** The configuration registers of one data mover. */
  class Config {
    var bounds: seq<nat>
    var strides: seq<nat>

    ghost predicate Valid()
      reads this
    {
      |bounds| == 4 && |strides| == 4
    }

    constructor ()
      ensures Valid()
    {
      bounds, strides := [0, 0, 0, 0], [0, 0, 0, 0];
    }

    /** snrt_ssr_loop_1d; the other dimensions keep their registers. */
    method Loop1D(b0: nat, s0: nat)
      requires Valid()
      modifies this
      ensures Valid() && bounds == Decs([b0]) + old(bounds[1..])
      ensures strides == Relative([s0], [b0], 0) + old(strides[1..])
    {
      bounds := bounds[0 := Dec(b0)];
      var a := 0;
      strides := strides[0 := (s0 - a) % WORD];
      a := (a + s0 * Dec(b0)) % WORD;
    }

    /** snrt_ssr_loop_2d */
    method Loop2D(b0: nat, b1: nat, s0: nat, s1: nat)
      requires Valid()
      modifies this
      ensures Valid() && bounds == Decs([b0, b1]) + old(bounds[2..])
      ensures strides == Relative([s0, s1], [b0, b1], 0) + old(strides[2..])
    {
      bounds := bounds[0 := Dec(b0)][1 := Dec(b1)];
      var a := 0;
      strides := strides[0 := (s0 - a) % WORD];
      OffsetSame(a, 0, s0, b0);
      a := (a + s0 * Dec(b0)) % WORD;
      strides := strides[1 := (s1 - a) % WORD];
      OffsetSame(a, s0 * (b0 - 1), s1, b1);
      a := (a + s1 * Dec(b1)) % WORD;
      Relative2(s0, s1, b0, b1);
    }

    /** snrt_ssr_loop_3d */
    method Loop3D(b0: nat, b1: nat, b2: nat, s0: nat, s1: nat, s2: nat)
      requires Valid()
      modifies this
      ensures Valid() && bounds == Decs([b0, b1, b2]) + old(bounds[3..])
      ensures strides == Relative([s0, s1, s2], [b0, b1, b2], 0) + old(strides[3..])
    {
      bounds := bounds[0 := Dec(b0)][1 := Dec(b1)][2 := Dec(b2)];
      var a := 0;
      ghost var moved := 0;
      strides := strides[0 := (s0 - a) % WORD];
      OffsetSame(a, moved, s0, b0);
      a, moved := (a + s0 * Dec(b0)) % WORD, moved + s0 * (b0 - 1);
      strides := strides[1 := (s1 - a) % WORD];
      OffsetSame(a, moved, s1, b1);
      a, moved := (a + s1 * Dec(b1)) % WORD, moved + s1 * (b1 - 1);
      strides := strides[2 := (s2 - a) % WORD];
      OffsetSame(a, moved, s2, b2);
      a := (a + s2 * Dec(b2)) % WORD;
      Relative3(s0, s1, s2, b0, b1, b2);
    }

    /** snrt_ssr_loop_4d */
    method Loop4D(b0: nat, b1: nat, b2: nat, b3: nat, s0: nat, s1: nat, s2: nat, s3: nat)
      requires Valid()
      modifies this
      ensures Valid() && bounds == Decs([b0, b1, b2, b3])
      ensures strides == Relative([s0, s1, s2, s3], [b0, b1, b2, b3], 0)
    {
      bounds := bounds[0 := Dec(b0)][1 := Dec(b1)][2 := Dec(b2)][3 := Dec(b3)];
      var a := 0;
      ghost var moved := 0;
      strides := strides[0 := (s0 - a) % WORD];
      OffsetSame(a, moved, s0, b0);
      a, moved := (a + s0 * Dec(b0)) % WORD, moved + s0 * (b0 - 1);
      strides := strides[1 := (s1 - a) % WORD];
      OffsetSame(a, moved, s1, b1);
      a, moved := (a + s1 * Dec(b1)) % WORD, moved + s1 * (b1 - 1);
      strides := strides[2 := (s2 - a) % WORD];
      OffsetSame(a, moved, s2, b2);
      a, moved := (a + s2 * Dec(b2)) % WORD, moved + s2 * (b2 - 1);
      strides := strides[3 := (s3 - a) % WORD];
      OffsetSame(a, moved, s3, b3);
      a := (a + s3 * Dec(b3)) % WORD;
      Relative4(s0, s1, s2, s3, b0, b1, b2, b3);
    }
  }

  lemma {:induction false} RelativeCons(s: nat, ss: seq<nat>, b: int, bs: seq<int>, moved: int)
    requires |ss| == |bs|
    ensures Relative([s] + ss, [b] + bs, moved) == [(s - moved) % WORD] + Relative(ss, bs, moved + s * (b - 1))
  {
    assert ([s] + ss)[1..] == ss && ([b] + bs)[1..] == bs;
  }

  lemma {:induction false} Relative2(s0: nat, s1: nat, b0: int, b1: int)
    ensures Relative([s0, s1], [b0, b1], 0) == [s0 % WORD, (s1 - s0 * (b0 - 1)) % WORD]
  {
    hide Relative;
    assert [s0] + [s1] == [s0, s1] && [b0] + [b1] == [b0, b1];
    RelativeCons(s0, [s1], b0, [b1], 0);
    Relative1(s1, b1, s0 * (b0 - 1));
  }

  lemma {:induction false} Relative1(s: nat, b: int, moved: int)
    ensures Relative([s], [b], moved) == [(s - moved) % WORD]
  {
  }

  lemma {:induction false} Relative3(s0: nat, s1: nat, s2: nat, b0: int, b1: int, b2: int)
    ensures Relative([s0, s1, s2], [b0, b1, b2], 0)
            == [s0 % WORD, (s1 - s0 * (b0 - 1)) % WORD, (s2 - (s0 * (b0 - 1) + s1 * (b1 - 1))) % WORD]
  {
    hide Relative;
    assert [s0] + [s1, s2] == [s0, s1, s2] && [b0] + [b1, b2] == [b0, b1, b2];
    assert [s1] + [s2] == [s1, s2] && [b1] + [b2] == [b1, b2];
    RelativeCons(s0, [s1, s2], b0, [b1, b2], 0);
    RelativeCons(s1, [s2], b1, [b2], s0 * (b0 - 1));
    Relative1(s2, b2, s0 * (b0 - 1) + s1 * (b1 - 1));
  }

  lemma {:induction false} Relative4(s0: nat, s1: nat, s2: nat, s3: nat, b0: int, b1: int, b2: int, b3: int)
    ensures Relative([s0, s1, s2, s3], [b0, b1, b2, b3], 0)
            == [s0 % WORD, (s1 - s0 * (b0 - 1)) % WORD, (s2 - (s0 * (b0 - 1) + s1 * (b1 - 1))) % WORD,
                (s3 - (s0 * (b0 - 1) + s1 * (b1 - 1) + s2 * (b2 - 1))) % WORD]
  {
    hide Relative;
    var m := s0 * (b0 - 1);
    assert [s0] + [s1, s2, s3] == [s0, s1, s2, s3] && [b0] + [b1, b2, b3] == [b0, b1, b2, b3];
    assert [s1] + [s2, s3] == [s1, s2, s3] && [b1] + [b2, b3] == [b1, b2, b3];
    assert [s2] + [s3] == [s2, s3] && [b2] + [b3] == [b2, b3];
    RelativeCons(s0, [s1, s2, s3], b0, [b1, b2, b3], 0);
    RelativeCons(s1, [s2, s3], b1, [b2, b3], m);
    RelativeCons(s2, [s3], b2, [b3], m + s1 * (b1 - 1));
    Relative1(s3, b3, m + s1 * (b1 - 1) + s2 * (b2 - 1));
  }
}
