/**
 The hardware-loop bodies of the vectorized exponential
 (sw/kernels/misc/exp/vexpf_optimized_asm.h), four elements at a time.  Local
 variables are registers; reading `ft0` or `ft1` pops a stream and writing `ft1`
 or `ft2` pushes one.  The floating-point operations are parameters.
 */
module VexpfAsm {
  /** A 64-bit memory word or register. */
  type Word = x: int | 0 <= x < 0x1_0000_0000_0000_0000 witness 0

  const HALF := 0x1_0000_0000

  /** The floating-point unit and the constants of the kernel (vexpf_optimized.h:64-69). */
  datatype Fpu = Fpu(mul: (Word, Word) -> Word, add: (Word, Word) -> Word, sub: (Word, Word) -> Word,
                     fma: (Word, Word, Word) -> Word,
                     invLn2N: Word, shift: Word, c0: Word, c1: Word, c2: Word, c3: Word)

  // ----- what the phases compute for one element

  function Scaled(f: Fpu, x: Word): Word {
    f.mul(f.invLn2N, x)
  }

  /** The shifted scaled input, whose low bits are the integer part. */
  function Kd(f: Fpu, x: Word): Word {
    f.add(Scaled(f, x), f.shift)
  }

  function Residue(f: Fpu, x: Word): Word {
    f.sub(Scaled(f, x), f.sub(Kd(f, x), f.shift))
  }

  /** The polynomial in the residue. */
  function Poly(f: Fpu, x: Word): Word {
    var r := Residue(f, x);
    f.fma(f.fma(f.c0, r, f.c1), f.mul(r, r), f.fma(f.c2, r, f.c3))
  }

  type Table = t: seq<Word> | |t| == 32 witness seq(32, _ => 0)

  const DOUBLE := 0x1_0000_0000_0000_0000

  /** The scaled power of two for the integer part (exp.c:70-71). */
  function Scale(table: Table, ki: Word): Word {
    (table[ki % 32] + ki * 0x8000_0000_0000) % DOUBLE
  }

  /** The whole kernel on one element. */
  function Exp(f: Fpu, table: Table, x: Word): Word {
    f.mul(Poly(f, x), Scale(table, Kd(f, x)))
  }

  // ----- what that means

  /** The reference implementation (exp.c:58-79), its sums of products fused. */
  function Reference(f: Fpu, table: Table, x: Word): Word {
    var z := f.mul(f.invLn2N, x);
    var ki := f.add(z, f.shift);
    var kd := f.sub(ki, f.shift);
    var r := f.sub(z, kd);
    var s := (table[ki % 32] + ki * 0x8000_0000_0000) % DOUBLE;
    var p := f.fma(f.c0, r, f.c1);
    var r2 := f.mul(r, r);
    var y := f.fma(f.c2, r, f.c3);
    f.mul(f.fma(p, r2, y), s)
  }

  lemma {:induction false} ExpIsReference(f: Fpu, table: Table, x: Word)
    ensures Exp(f, table, x) == Reference(f, table, x)
  {
  }

  /** A reading of words as numbers in which products, differences and fused operations are exact. */
  ghost predicate Exact(f: Fpu, val: Word -> real) {
    && (forall a: Word, b: Word :: val(f.mul(a, b)) == val(a) * val(b))
    && (forall a: Word, b: Word :: val(f.sub(a, b)) == val(a) - val(b))
    && forall a: Word, b: Word, c: Word :: val(f.fma(a, b, c)) == val(a) * val(b) + val(c)
  }

  /** `c0 * r^3 + c1 * r^2 + c2 * r + c3` */
  function Cubic(c0: real, c1: real, c2: real, c3: real, r: real): real {
    c0 * (r * r * r) + c1 * (r * r) + c2 * r + c3
  }

  lemma {:induction false} Horner(c0: real, c1: real, c2: real, c3: real, r: real)
    ensures (c0 * r + c1) * (r * r) + (c2 * r + c3) == Cubic(c0, c1, c2, c3, r)
  {
    assert (c0 * r + c1) * (r * r) == c0 * r * (r * r) + c1 * (r * r);
    assert c0 * r * (r * r) == c0 * (r * r * r);
  }

  /**
   With the remaining operations exact, the kernel multiplies the cubic polynomial
   in what the scaled input differs from its rounding by the scaled power of two.
   Only the sum that rounds it is left open.
   */
  lemma {:induction false} ExpMeans(f: Fpu, table: Table, val: Word -> real, x: Word)
    requires Exact(f, val)
    ensures var kd := f.add(f.mul(f.invLn2N, x), f.shift);
            var r := val(f.invLn2N) * val(x) - (val(kd) - val(f.shift));
            val(Exp(f, table, x))
            == Cubic(val(f.c0), val(f.c1), val(f.c2), val(f.c3), r)
               * val((table[kd % 32] + kd * 0x8000_0000_0000) % DOUBLE)
  {
    var r := Residue(f, x);
    Horner(val(f.c0), val(f.c1), val(f.c2), val(f.c3), val(r));
    hide Cubic;
  }

  /**
   The table holds, for the 32 fractions, the words of the powers of two less what
   the sum adds for the fraction; so the integer part is added to the exponent, whose
   lowest bit is bit 52.
   */
  lemma {:induction false} ScaleIsPower(table: Table, powers: Table, ki: Word)
    requires forall j | 0 <= j < 32 :: table[j] == (powers[j] - j * 0x8000_0000_0000) % DOUBLE
    ensures Scale(table, ki) == (powers[ki % 32] + ki / 32 * 0x10_0000_0000_0000) % DOUBLE
  {
    assert table[ki % 32] == (powers[ki % 32] - ki % 32 * 0x8000_0000_0000) % DOUBLE;
    assert ki == ki / 32 * 32 + ki % 32;
    SumMod(powers[ki % 32] - ki % 32 * 0x8000_0000_0000, ki * 0x8000_0000_0000);
  }

  lemma {:induction false} SumMod(x: int, y: int)
    ensures (x % DOUBLE + y) % DOUBLE == (x + y) % DOUBLE
  {
  }

  // ----- the loop bodies

  /** FP0_ASM_BODY, repeated `n` times: `ft1` gets the shifted inputs, `ft2` the polynomials. */
  method Fp0Loop(f: Fpu, n: nat, ft0: seq<Word>) returns (ft1: seq<Word>, ft2: seq<Word>)
    requires |ft0| == 4 * n
    ensures |ft1| == 4 * n && |ft2| == 4 * n
    ensures forall k | 0 <= k < 4 * n :: ft1[k] == Kd(f, ft0[k]) && ft2[k] == Poly(f, ft0[k])
  {
    ft1, ft2 := [], [];
    var p := 0;
    for i := 0 to n
      invariant p == |ft1| == |ft2| == 4 * i
      invariant forall k | 0 <= k < 4 * i :: ft1[k] == Kd(f, ft0[k]) && ft2[k] == Poly(f, ft0[k])
    {
      var out1, out2 := Fp0Body(f, ft0[p..p + 4]);
      p := p + 4;
      ft1, ft2 := ft1 + out1, ft2 + out2;
    }
  }

  method Fp0Body(f: Fpu, ft0: seq<Word>) returns (ft1: seq<Word>, ft2: seq<Word>)
    requires |ft0| == 4
    ensures ft1 == [Kd(f, ft0[0]), Kd(f, ft0[1]), Kd(f, ft0[2]), Kd(f, ft0[3])]
    ensures ft2 == [Poly(f, ft0[0]), Poly(f, ft0[1]), Poly(f, ft0[2]), Poly(f, ft0[3])]
  {
    var fa3, ft3, ft4, ft5 := f.mul(f.invLn2N, ft0[0]), f.mul(f.invLn2N, ft0[1]), f.mul(f.invLn2N, ft0[2]),
        f.mul(f.invLn2N, ft0[3]);
    var fa1, fa5, fa6, fa7 := f.add(fa3, f.shift), f.add(ft3, f.shift), f.add(ft4, f.shift), f.add(ft5, f.shift);
    ft1 := [fa1, fa5, fa6, fa7];
    var fa2, ft6, ft7, ft8 := f.sub(fa1, f.shift), f.sub(fa5, f.shift), f.sub(fa6, f.shift), f.sub(fa7, f.shift);
    fa3, ft3, ft4, ft5 := f.sub(fa3, fa2), f.sub(ft3, ft6), f.sub(ft4, ft7), f.sub(ft5, ft8);
    fa2, ft6, ft7, ft8 := f.fma(f.c0, fa3, f.c1), f.fma(f.c0, ft3, f.c1), f.fma(f.c0, ft4, f.c1),
        f.fma(f.c0, ft5, f.c1);
    var fa4, fs0, fs1, fs2 := f.fma(f.c2, fa3, f.c3), f.fma(f.c2, ft3, f.c3), f.fma(f.c2, ft4, f.c3),
        f.fma(f.c2, ft5, f.c3);
    fa1, fa5, fa6, fa7 := f.mul(fa3, fa3), f.mul(ft3, ft3), f.mul(ft4, ft4), f.mul(ft5, ft5);
    ft2 := [f.fma(fa2, fa1, fa4), f.fma(ft6, fa5, fs0), f.fma(ft7, fa6, fs1), f.fma(ft8, fa7, fs2)];
  }

  /** FP1_ASM_BODY, repeated `n` times. */
  method Fp1Loop(f: Fpu, n: nat, ft0: seq<Word>, ft1: seq<Word>) returns (ft2: seq<Word>)
    requires |ft0| == 4 * n && |ft1| == 4 * n
    ensures |ft2| == 4 * n && forall k | 0 <= k < 4 * n :: ft2[k] == f.mul(ft0[k], ft1[k])
  {
    ft2 := [];
    var p := 0;
    for i := 0 to n
      invariant p == |ft2| == 4 * i
      invariant forall k | 0 <= k < 4 * i :: ft2[k] == f.mul(ft0[k], ft1[k])
    {
      ft2 := ft2 + [f.mul(ft0[p], ft1[p]), f.mul(ft0[p + 1], ft1[p + 1]), f.mul(ft0[p + 2], ft1[p + 2]),
                    f.mul(ft0[p + 3], ft1[p + 3])];
      p := p + 4;
    }
  }

  /** Element `k` of the output stream of the fused body, in terms of its input streams. */
  function FusedAt(f: Fpu, ft0: seq<Word>, ft1: seq<Word>, g: nat, h: nat, e: nat): Word
    requires h < 3 && e < 4 && 8 * g + 8 <= |ft0| && 4 * g + 4 <= |ft1|
  {
    if h == 0 then Kd(f, ft0[8 * g + e])
    else if h == 1 then Poly(f, ft0[8 * g + e])
    else f.mul(ft1[4 * g + e], ft0[8 * g + 4 + e])
  }

  /** FP0_FP1_ASM_BODY, repeated `n` times: all three streams are consumed to the last element. */
  method FusedLoop(f: Fpu, n: nat, ft0: seq<Word>, ft1: seq<Word>) returns (ft2: seq<Word>)
    requires |ft0| == 8 * n && |ft1| == 4 * n
    ensures |ft2| == 12 * n
    ensures forall g, h, e | 0 <= g < n && 0 <= h < 3 && 0 <= e < 4 ::
              ft2[12 * g + 4 * h + e] == FusedAt(f, ft0, ft1, g, h, e)
  {
    ft2 := [];
    for i := 0 to n
      invariant |ft2| == 12 * i
      invariant forall g, h, e | 0 <= g < i && 0 <= h < 3 && 0 <= e < 4 ::
                  ft2[12 * g + 4 * h + e] == FusedAt(f, ft0, ft1, g, h, e)
    {
      var out := FusedBody(f, ft0[8 * i..8 * i + 8], ft1[4 * i..4 * i + 4]);
      ghost var was := ft2;
      ft2 := ft2 + out;
      forall g, h, e | 0 <= g < i + 1 && 0 <= h < 3 && 0 <= e < 4
        ensures ft2[12 * g + 4 * h + e] == FusedAt(f, ft0, ft1, g, h, e)
      {
        if g < i {
          assert ft2[12 * g + 4 * h + e] == was[12 * g + 4 * h + e];
        } else {
          assert ft2[12 * g + 4 * h + e] == out[4 * h + e];
          assert FusedAt(f, ft0[8 * i..8 * i + 8], ft1[4 * i..4 * i + 4], 0, h, e) == FusedAt(f, ft0, ft1, i, h, e);
        }
      }
    }
  }

  method FusedBody(f: Fpu, ft0: seq<Word>, ft1: seq<Word>) returns (ft2: seq<Word>)
    requires |ft0| == 8 && |ft1| == 4
    ensures |ft2| == 12
    ensures forall h, e | 0 <= h < 3 && 0 <= e < 4 :: ft2[4 * h + e] == FusedAt(f, ft0, ft1, 0, h, e)
  {
    var fa3, ft3, ft4, ft5 := f.mul(f.invLn2N, ft0[0]), f.mul(f.invLn2N, ft0[1]), f.mul(f.invLn2N, ft0[2]),
        f.mul(f.invLn2N, ft0[3]);
    var fa1, fa5, fa6, fa7 := f.add(fa3, f.shift), f.add(ft3, f.shift), f.add(ft4, f.shift), f.add(ft5, f.shift);
    var kd := [fa1, fa5, fa6, fa7];
    var fa2, ft6, ft7, ft8 := f.sub(fa1, f.shift), f.sub(fa5, f.shift), f.sub(fa6, f.shift), f.sub(fa7, f.shift);
    fa3, ft3, ft4, ft5 := f.sub(fa3, fa2), f.sub(ft3, ft6), f.sub(ft4, ft7), f.sub(ft5, ft8);
    fa2, ft6, ft7, ft8 := f.fma(f.c0, fa3, f.c1), f.fma(f.c0, ft3, f.c1), f.fma(f.c0, ft4, f.c1),
        f.fma(f.c0, ft5, f.c1);
    var fa4, fs0, fs1, fs2 := f.fma(f.c2, fa3, f.c3), f.fma(f.c2, ft3, f.c3), f.fma(f.c2, ft4, f.c3),
        f.fma(f.c2, ft5, f.c3);
    fa1, fa5, fa6, fa7 := f.mul(fa3, fa3), f.mul(ft3, ft3), f.mul(ft4, ft4), f.mul(ft5, ft5);
    var w := [f.fma(fa2, fa1, fa4), f.fma(ft6, fa5, fs0), f.fma(ft7, fa6, fs1), f.fma(ft8, fa7, fs2)];
    var y := [f.mul(ft1[0], ft0[4]), f.mul(ft1[1], ft0[5]), f.mul(ft1[2], ft0[6]), f.mul(ft1[3], ft0[7])];
    ft2 := kd + w + y;
  }

  /** A 32-bit register. */
  type Reg = x: int | 0 <= x < HALF witness 0

  function Low(w: Word): Reg {
    w % HALF
  }

  function High(w: Word): Reg {
    w / HALF
  }

  /** `slli r, r, 0xf` */
  function Shift15(r: Reg): Reg {
    r * 0x8000 % HALF
  }

  function Add32(x: Reg, y: Reg): Reg {
    (x + y) % HALF
  }

  /** The word whose halves two `sw` write. */
  function Halves(low: Reg, high: Reg): Word {
    low + HALF * high
  }

  /** The low half of a word's multiple of 2^47 is zero, and its high half that of the low word shifted. */
  lemma {:induction false} ShiftIs(ki: Word) returns (k: nat)
    ensures ki * 0x8000_0000_0000 == HALF * Shift15(Low(ki)) + DOUBLE * k
  {
    k := ki / HALF * 0x8000 + Low(ki) * 0x8000 / HALF;
  }

  lemma {:induction false} HalvesOf(entry: Word, high: Reg, k: nat)
    ensures Halves(Low(entry), Add32(high, High(entry))) == (entry + (HALF * high + DOUBLE * k)) % DOUBLE
  {
  }

  lemma {:induction false} LowFraction(ki: Word)
    ensures Low(ki) % 32 == ki % 32
  {
  }

  /** Adding in the high half adds the multiple of 2^47 to the whole word, modulo 2^64. */
  lemma {:induction false} ScaleLane(table: Table, ki: Word)
    ensures Low(ki) % 32 == ki % 32
    ensures var entry := table[ki % 32];
            Halves(Low(entry), Add32(Shift15(Low(ki)), High(entry))) == Scale(table, ki)
  {
    LowFraction(ki);
    hide Low, High, Shift15, Add32, Halves;
    var k := ShiftIs(ki);
    HalvesOf(table[ki % 32], Shift15(Low(ki)), k);
  }

  /** INT_ASM_BODY on four words: the two half-word stores of each result make one word. */
  method IntBody(table: Table, ki: seq<Word>) returns (t: seq<Word>)
    requires |ki| == 4
    ensures t == [Scale(table, ki[0]), Scale(table, ki[1]), Scale(table, ki[2]), Scale(table, ki[3])]
  {
    hide Low, High, Shift15, Add32, Halves, Scale;
    var a0, a3, a4, a5 := Low(ki[0]), Low(ki[1]), Low(ki[2]), Low(ki[3]);
    var e0, e1, e2, e3 := table[a0 % 32], table[a3 % 32], table[a4 % 32], table[a5 % 32];
    var a2, t1, t2, t3 := Low(e0), Low(e1), Low(e2), Low(e3);
    var a1, a6, a7, t0 := High(e0), High(e1), High(e2), High(e3);
    a0, a3, a4, a5 := Shift15(a0), Shift15(a3), Shift15(a4), Shift15(a5);
    a0, a3, a4, a5 := Add32(a0, a1), Add32(a3, a6), Add32(a4, a7), Add32(a5, t0);
    t := [Halves(a2, a0), Halves(t1, a3), Halves(t2, a4), Halves(t3, a5)];
    ScaleLane(table, ki[0]);
    ScaleLane(table, ki[1]);
    ScaleLane(table, ki[2]);
    ScaleLane(table, ki[3]);
  }

  /** The integer loop over a batch (vexpf_optimized.h:232-241). */
  method IntLoop(table: Table, ki: seq<Word>) returns (t: seq<Word>)
    requires |ki| % 4 == 0
    ensures |t| == |ki|
    ensures forall k | 0 <= k < |ki| :: t[k] == (table[ki[k] % 32] + ki[k] * 0x8000_0000_0000) % DOUBLE
  {
    t := [];
    var i := 0;
    while i < |ki|
      invariant 0 <= i <= |ki| && i % 4 == 0 && |t| == i
      invariant forall k | 0 <= k < i :: t[k] == Scale(table, ki[k])
    {
      var out := IntBody(table, ki[i..i + 4]);
      t := t + out;
      i := i + 4;
    }
  }
}
