/** Division, remainder and products, one nonlinear fact at a time. */
module Arithmetic {
  function Quot(k: nat, b: nat): (q: nat)
    requires b > 0
  {
    k / b
  }

  function Rem(k: nat, b: nat): (r: nat)
    requires b > 0
    ensures r < b
  {
    k % b
  }

  lemma {:induction false} QuotRem(k: nat, b: nat)
    requires b > 0
    ensures k == Quot(k, b) * b + Rem(k, b)
  {
  }

  lemma {:induction false} MulStep(q: nat, q': nat, b: nat)
    ensures q < q' ==> q * b + b <= q' * b
    decreases q'
  {
    if q < q' {
      if q + 1 < q' {
        MulStep(q, q' - 1, b);
      }
      Distribute(b, q' - 1, 1);
    }
  }

  lemma {:induction false} Distribute(b: int, x: int, y: int)
    ensures b * (x + y) == b * x + b * y
    ensures (x + y) * b == x * b + y * b
  {
  }

  lemma {:induction false} Unique(x: nat, b: nat, q: nat, r: nat)
    requires x == q * b + r && r < b
    ensures Quot(x, b) == q && Rem(x, b) == r
  {
    hide Quot, Rem;
    QuotRem(x, b);
    MulStep(q, Quot(x, b), b);
    MulStep(Quot(x, b), q, b);
  }

  /** Counting up by one. */
  lemma {:induction false} QuotNext(k: nat, b: nat)
    requires b > 0
    ensures if Rem(k, b) + 1 < b then Rem(k + 1, b) == Rem(k, b) + 1 && Quot(k + 1, b) == Quot(k, b)
            else Rem(k + 1, b) == 0 && Quot(k + 1, b) == Quot(k, b) + 1 && Rem(k, b) == b - 1
  {
    hide Quot, Rem;
    QuotRem(k, b);
    var q, r := Quot(k, b), Rem(k, b);
    if r + 1 < b {
      Unique(k + 1, b, q, r + 1);
    } else {
      Distribute(b, q, 1);
      Unique(k + 1, b, q + 1, 0);
    }
  }

  lemma {:induction false} QuotBelow(k: nat, b: nat, p: nat)
    requires b > 0
    ensures k < b * p <==> Quot(k, b) < p
  {
    hide Quot, Rem;
    QuotRem(k, b);
    MulStep(Quot(k, b), p, b);
    if Quot(k, b) >= p {
      MulMono(p, Quot(k, b), b);
    }
  }

  lemma {:induction false} MulMono(p: nat, q: nat, b: nat)
    requires p <= q
    ensures p * b <= q * b
  {
    MulStep(p, q, b);
  }

  lemma {:induction false} MulCancel(p: nat, q: nat, b: nat)
    requires b > 0
    ensures p * b == q * b <==> p == q
  {
    MulStep(p, q, b);
    MulStep(q, p, b);
  }

  lemma {:induction false} Commute(x: int, y: int)
    ensures x * y == y * x
  {
  }
}
