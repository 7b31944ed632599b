/**
 Linear congruential generators and their leapfrogged streams
 (sw/kernels/misc/prng/lcg.h), on 32-bit words as natural numbers.
 */
module Lcg {
  import opened Arithmetic
  import opened Words

  datatype Generator = Generator(state: nat, a: nat, c: nat)

  /** The state one call of `lcg_next` leaves, which is also what it returns. */
  function Next(g: Generator): Generator {
    g.(state := (g.state * g.a + g.c) % WORD)
  }

  /** `k` calls. */
  function After(g: Generator, k: nat): Generator {
    if k == 0 then g else Next(After(g, k - 1))
  }

  function Pow(a: nat, k: nat): nat {
    if k == 0 then 1 else Pow(a, k - 1) * a
  }

  /** `1 + a + ... + a^(k-1)` */
  function Geo(a: nat, k: nat): nat {
    if k == 0 then 0 else Geo(a, k - 1) + Pow(a, k - 1)
  }

  lemma {:induction false} ModMulShift(y: int, i: int, a: int)
    ensures ((y + WORD * i) * a) % WORD == (y * a) % WORD
  {
    Distribute(a, y, WORD * i);
    Regroup(WORD, i, a);
    ModAddMultiple(y * a, i * a);
  }

  lemma {:induction false} ModMulOne(x: int, y: int, a: int)
    requires x % WORD == y % WORD
    ensures (x * a) % WORD == (y * a) % WORD
  {
    var i := (x - y) / WORD;
    assert x == y + WORD * i;
    ModMulShift(y, i, a);
  }

  lemma {:induction false} ModMul(x: int, y: int, a: int, b: int)
    requires x % WORD == y % WORD && a % WORD == b % WORD
    ensures (x * a) % WORD == (y * b) % WORD
  {
    ModMulOne(x, y, a);
    ModMulOne(a, b, y);
    Commute(y, a);
    Commute(y, b);
  }

  lemma {:induction false} ModAddMultiple(x: int, k: int)
    ensures (x + WORD * k) % WORD == x % WORD
  {
  }

  lemma {:induction false} ModAdd(x: int, y: int, a: int, b: int)
    requires x % WORD == y % WORD && a % WORD == b % WORD
    ensures (x + a) % WORD == (y + b) % WORD
  {
  }

  /** Without the word size: `k` steps multiply by `a^k` and add `c (1 + ... + a^(k-1))`. */
  function Exact(x: nat, a: nat, c: nat, k: nat): nat {
    if k == 0 then x else Exact(x, a, c, k - 1) * a + c
  }

  lemma {:induction false} GeoStep(a: nat, k: nat)
    ensures Geo(a, k + 1) == Geo(a, k) * a + 1
  {
    if k > 0 {
      GeoStep(a, k - 1);
      Distribute(a, Geo(a, k - 1), Pow(a, k - 1));
    }
  }

  lemma {:induction false} ExactClosed(x: nat, a: nat, c: nat, k: nat)
    ensures Exact(x, a, c, k) == x * Pow(a, k) + c * Geo(a, k)
  {
    if k > 0 {
      ExactClosed(x, a, c, k - 1);
      GeoStep(a, k - 1);
      var p, g := Pow(a, k - 1), Geo(a, k - 1);
      Distribute(a, x * p, c * g);
      Regroup(x, p, a);
      Regroup(c, g, a);
      Distribute(c, g * a, 1);
    }
  }

  lemma {:induction false} Regroup(x: int, y: int, z: int)
    ensures (x * y) * z == x * (y * z)
  {
  }

  lemma {:induction false} AfterIsExact(g: Generator, k: nat)
    requires g.state < WORD
    ensures After(g, k) == Generator(Exact(g.state, g.a, g.c, k) % WORD, g.a, g.c)
  {
    if k > 0 {
      AfterIsExact(g, k - 1);
      var e := Exact(g.state, g.a, g.c, k - 1);
      ModMul(e % WORD, e, g.a, g.a);
      ModAdd((e % WORD) * g.a, e * g.a, g.c, g.c);
    }
  }

  lemma {:induction false} AfterAfter(g: Generator, j: nat, k: nat)
    ensures After(After(g, j), k) == After(g, j + k)
  {
    if k > 0 {
      AfterAfter(g, j, k - 1);
    }
  }

  /** One step with the leapfrog constants of `n` streams is `n` steps of the base generator. */
  lemma {:induction false} Leap(base: Generator, j: nat, n: nat, ap: nat, cp: nat)
    requires base.state < WORD && ap == Pow(base.a, n) % WORD && cp == ((Geo(base.a, n) % WORD) * base.c) % WORD
    ensures Next(Generator(After(base, j).state, ap, cp)).state == After(base, j + n).state
  {
    var g := After(base, j);
    AfterIsExact(base, j);
    AfterAfter(base, j, n);
    AfterIsExact(g, n);
    ExactClosed(g.state, base.a, base.c, n);
    hide Exact, Geo, Pow, After;
    var p, q := Pow(base.a, n), Geo(base.a, n);
    ModMul(g.state, g.state, ap, p);
    Commute(base.c, q);
    ModMul(q % WORD, q, base.c, base.c);
    ModAdd(g.state * ap, g.state * p, cp, q * base.c);
  }

  /** The streams `lcg_init_n` has to set up. */
  ghost predicate Leapfrog(base: Generator, n: nat, streams: seq<Generator>) {
    && |streams| == n
    && forall i | 0 <= i < n ::
         streams[i] == Generator(After(base, i + 1).state, Pow(base.a, n) % WORD,
             ((Geo(base.a, n) % WORD) * base.c) % WORD)
  }

  /** lcg_init_n (lines 35-52) */
  method InitN(seed: nat, a: nat, c: nat, n: nat) returns (lcg: seq<Generator>)
    requires seed < WORD
    ensures Leapfrog(Generator(seed, a, c), n, lcg)
  {
    var ap, cp := 1, 0;
    for p := 0 to n
      invariant ap == Pow(a, p) % WORD && cp == Geo(a, p) % WORD
    {
      ModAdd(cp, Geo(a, p), ap, Pow(a, p));
      cp := (cp + ap) % WORD;
      ModMul(ap, Pow(a, p), a, a);
      ap := (ap * a) % WORD;
    }
    cp := (cp * c) % WORD;
    var lcg0 := Generator(seed, a, c);
    lcg := [];
    for i := 0 to n
      invariant |lcg| == i && lcg0 == After(Generator(seed, a, c), i)
      invariant forall k | 0 <= k < i :: lcg[k] == Generator(After(Generator(seed, a, c), k + 1).state, ap, cp)
    {
      lcg0 := Next(lcg0);
      lcg := lcg + [Generator(lcg0.state, ap, cp)];
    }
  }

  /** Stream `i` of `n` after `k` calls holds element `i + 1 + k n` of the base sequence. */
  lemma {:induction false} StreamHolds(base: Generator, n: nat, streams: seq<Generator>, i: nat, k: nat)
    requires base.state < WORD && Leapfrog(base, n, streams) && i < n
    ensures After(streams[i], k) == streams[i].(state := After(base, i + 1 + k * n).state)
  {
    if k > 0 {
      StreamHolds(base, n, streams, i, k - 1);
      hide Pow, Geo;
      Distribute(n, k - 1, 1);
      Leap(base, i + 1 + (k - 1) * n, n, streams[i].a, streams[i].c);
    }
  }

  /** Dealt round robin, the states of the streams are the sequential generator's states, from its first on. */
  lemma {:induction false} StreamsInterleave(base: Generator, n: nat, streams: seq<Generator>, j: nat)
    requires base.state < WORD && n > 0 && Leapfrog(base, n, streams)
    ensures After(streams[Rem(j, n)], Quot(j, n)).state == After(base, j + 1).state
  {
    hide Quot, Rem;
    QuotRem(j, n);
    StreamHolds(base, n, streams, Rem(j, n), Quot(j, n));
  }
}
