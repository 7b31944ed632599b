/**
 `snrt_inter_cluster_sw_barrier` (sw/runtime/src/sync.h:208-230) over a
 communicator made by `snrt_comm_create` (sync.h:74-99): base 0, mask `size - 1`,
 one core per cluster.  All but the last arrival sleep in `wfi`; the last one
 resets the counter and wakes the others one by one in submask order.

 A step is one shared access of one cluster's core, in any interleaving; `wfi`
 blocks until the cluster's interrupt bit is set (section 3.3.3 of the RISC-V
 Privileged Architecture v1.12 also lets it return early; that is excluded here).
 `adds`, `left`, `round` and `waker` only record what happened.
 */
module ClusterBarrier {
  import opened Wrappers
  import opened Counting
  import opened Submask
  import opened Words

  datatype Pc = Outside | Reset | Wake(sub: nat) | Sleep | Clear

  datatype Cluster = Cluster(pc: Pc, irq: bool, adds: nat, left: nat)

  datatype State = State(counter: nat, clusters: seq<Cluster>, round: nat, waker: nat)

  function Init(n: nat): State {
    State(0, seq(n, _ => Cluster(Outside, false, 0, 0)), 0, 0)
  }

  /** The cluster the wake loop signals for a submask: `fixed | submask` with base 0. */
  function Target(sub: nat, mask: nat): nat {
    Or(AndNot(0, mask), sub)
  }

  function Signal(cs: seq<Cluster>, self: nat, i: nat): (r: seq<Cluster>)
    ensures |r| == |cs|
  {
    if i != self && i < |cs| then cs[i := cs[i].(irq := true)] else cs
  }

  /** A step of cluster `c`, which passes the barrier `rounds` times. */
  function ClusterStep(s: State, c: nat, rounds: nat): Option<State> {
    if c >= |s.clusters| then None
    else
      var t, n := s.clusters[c], |s.clusters|;
      match t.pc
      case Outside =>
        if t.left >= rounds then None
        else
          var cnt := (s.counter + 1) % WORD;
          Some(State(cnt, s.clusters[c := t.(pc := if cnt == n then Reset else Sleep, adds := t.adds + 1)], s.round,
              s.waker))
      case Reset => Some(State(0, s.clusters[c := t.(pc := Wake(0))], s.round + 1, c))
      case Wake(sub) =>
        var next := Step(sub, n - 1);
        var cs := Signal(s.clusters, c, Target(sub, n - 1));
        Some(State(s.counter, cs[c := t.(pc := if next == 0 then Clear else Wake(next))], s.round, s.waker))
      case Sleep => if t.irq then Some(State(s.counter, s.clusters[c := t.(pc := Clear)], s.round, s.waker)) else None
      case Clear =>
        Some(State(s.counter, s.clusters[c := t.(pc := Outside, irq := false, left := t.left + 1)], s.round, s.waker))
  }

  function Run(s: State, rounds: nat, schedule: seq<nat>): State
    decreases |schedule|
  {
    if schedule == [] then s
    else Run(match ClusterStep(s, schedule[0], rounds) case None => s case Some(t) => t, rounds, schedule[1..])
  }

  // ----- the invariant

  function Arrived(round: nat): Cluster -> bool {
    (t: Cluster) => t.adds > round
  }

  predicate Closing(t: Cluster) {
    t.pc == Reset
  }

  /** A cluster is in the current round, or on its way out of the one just closed. */
  predicate ClusterOk(t: Cluster, round: nat) {
    if t.left == round then
      match t.pc
      case Outside => t.adds == round && !t.irq
      case Sleep => t.adds == round + 1 && !t.irq
      case Reset => t.adds == round + 1 && !t.irq
      case _ => false
    else
      t.left + 1 == round && t.adds == round
      && match t.pc case Sleep => true case Clear => true case Wake(_) => !t.irq case _ => false
  }

  /** Asleep in the round just closed and not woken yet. */
  predicate Unwoken(t: Cluster, round: nat) {
    t.left + 1 == round && t.pc == Sleep && !t.irq
  }

  /** The wake loop has still to signal cluster `c`. */
  predicate ToWake(s: State, c: nat)
    requires s.waker < |s.clusters|
  {
    var p := s.clusters[s.waker].pc;
    p.Wake? && c != s.waker && (p.sub == 0 || 0 < c <= p.sub)
  }

  predicate CountsOk(s: State) {
    var arrived := Count(s.clusters, Arrived(s.round));
    && s.counter == arrived
    && Count(s.clusters, Closing) == if arrived == |s.clusters| then 1 else 0
  }

  /** At most one cluster wakes the others, and the sleepers it has not signalled yet are exactly those left over. */
  ghost predicate WakeOk(s: State) {
    && s.waker < |s.clusters|
    && (forall c | 0 <= c < |s.clusters| && s.clusters[c].pc.Wake? :: c == s.waker)
    && (s.clusters[s.waker].pc.Wake? ==> s.clusters[s.waker].pc.sub < |s.clusters|)
    && forall c | 0 <= c < |s.clusters| :: Unwoken(s.clusters[c], s.round) <==> ToWake(s, c)
  }

  ghost predicate ClustersOk(s: State) {
    forall c | 0 <= c < |s.clusters| :: ClusterOk(s.clusters[c], s.round)
  }

  ghost predicate Inv(s: State) {
    0 < |s.clusters| < WORD && ClustersOk(s) && CountsOk(s) && WakeOk(s)
  }

  lemma {:induction false} InvInit(n: nat)
    requires 0 < n < WORD
    ensures Inv(Init(n))
  {
    CountExtremes(Init(n).clusters, Arrived(0));
    CountExtremes(Init(n).clusters, Closing);
  }

  lemma {:induction false} Arrives(s: State, c: nat, rounds: nat)
    requires Inv(s) && c < |s.clusters| && s.clusters[c].pc == Outside && ClusterStep(s, c, rounds).Some?
    ensures Inv(ClusterStep(s, c, rounds).value)
  {
    var s' := ClusterStep(s, c, rounds).value;
    assert ClusterOk(s.clusters[c], s.round);
    CountExtremes(s.clusters, Arrived(s.round));
    CountUpdate(s.clusters, Arrived(s.round), c, s'.clusters[c]);
    CountUpdate(s.clusters, Closing, c, s'.clusters[c]);
    hide Count, Step, Target;
    assert !Arrived(s.round)(s.clusters[c]);
  }

  lemma {:induction false} OneCloser(cs: seq<Cluster>, i: nat, j: nat)
    requires i < j < |cs| && Closing(cs[i]) && Closing(cs[j])
    ensures Count(cs, Closing) >= 2
  {
    if i > 0 {
      OneCloser(cs[1..], i - 1, j - 1);
    } else {
      CountExtremes(cs[1..], Closing);
      assert cs[1..][j - 1] == cs[j];
    }
  }

  /** Closing a round: everybody has arrived, and everybody else sleeps unwoken. */
  lemma {:induction false} AllArrived(s: State, c: nat)
    requires Inv(s) && c < |s.clusters| && s.clusters[c].pc == Reset
    ensures forall j | 0 <= j < |s.clusters| :: s.clusters[j].adds == s.round + 1 && s.clusters[j].left == s.round
    ensures forall j | 0 <= j < |s.clusters| && j != c :: s.clusters[j].pc == Sleep && !s.clusters[j].irq
  {
    CountExtremes(s.clusters, Arrived(s.round));
    CountExtremes(s.clusters, Closing);
    hide Count;
    forall j | 0 <= j < |s.clusters|
      ensures s.clusters[j].adds == s.round + 1 && s.clusters[j].left == s.round
      ensures j != c ==> s.clusters[j].pc == Sleep && !s.clusters[j].irq
    {
      assert Arrived(s.round)(s.clusters[j]);
      if j < c && Closing(s.clusters[j]) {
        OneCloser(s.clusters, j, c);
      } else if c < j && Closing(s.clusters[j]) {
        OneCloser(s.clusters, c, j);
      }
    }
  }

  lemma {:induction false} Closes(s: State, c: nat, rounds: nat)
    requires Inv(s) && c < |s.clusters| && s.clusters[c].pc == Reset
    ensures Inv(ClusterStep(s, c, rounds).value)
  {
    var s' := ClusterStep(s, c, rounds).value;
    AllArrived(s, c);
    CountExtremes(s'.clusters, Arrived(s'.round));
    CountExtremes(s'.clusters, Closing);
    hide Count, Step, Target;
  }

  /** The wake loop on a full mask: cluster 0, then `size - 1` down to 1. */
  lemma {:induction false} FullOrder(sub: nat, mask: nat)
    requires Full(mask) && sub <= mask < WORD
    ensures Target(sub, mask) == sub
    ensures Step(sub, mask) == if sub == 0 then mask else sub - 1
  {
    if sub == 0 {
      FromZero(mask);
    } else {
      StepDown(sub, mask);
      FullIsAll(sub - 1, mask);
    }
  }

  lemma {:induction false} Wakes(s: State, c: nat, rounds: nat)
    requires Inv(s) && Full(|s.clusters| - 1) && c < |s.clusters| && s.clusters[c].pc.Wake?
    ensures Inv(ClusterStep(s, c, rounds).value)
  {
    var s' := ClusterStep(s, c, rounds).value;
    FullOrder(s.clusters[c].pc.sub, |s.clusters| - 1);
    hide Count, Step, Target, Full, IsSubmask, ClustersOk, WakeOk, Inv;
    WakesCounts(s, c, s.clusters[c].pc.sub, s');
    WakesSleepers(s, c, s.clusters[c].pc.sub, s');
    assert Inv(s') by { InvParts(s, s'); }
  }

  lemma {:induction false} InvParts(s: State, s': State)
    requires Inv(s) && |s'.clusters| == |s.clusters| && ClustersOk(s') && CountsOk(s') && WakeOk(s')
    ensures Inv(s')
  {
  }

  lemma {:induction false} WakesCounts(s: State, c: nat, sub: nat, s': State)
    requires Inv(s) && c < |s.clusters| && s.clusters[c].pc == Wake(sub)
    requires exists pc: Pc :: !pc.Reset? && s'.clusters == Signal(s.clusters, c, sub)[c := s.clusters[c].(pc := pc)]
    requires s'.counter == s.counter && s'.round == s.round
    ensures CountsOk(s')
  {
    hide ClustersOk, WakeOk;
    CountSame(s.clusters, s'.clusters, Arrived(s.round));
    CountSame(s.clusters, s'.clusters, Closing);
    hide Count;
  }

  lemma {:induction false} WakesSleepers(s: State, c: nat, sub: nat, s': State)
    requires Inv(s) && c < |s.clusters| && s.clusters[c].pc == Wake(sub)
    requires var n := |s.clusters|; var next := if sub == 0 then n - 1 else sub - 1;
             var cs := Signal(s.clusters, c, sub);
             s' == State(s.counter, cs[c := s.clusters[c].(pc := if next == 0 then Clear else Wake(next))], s.round,
                 s.waker)
    ensures ClustersOk(s') && WakeOk(s')
  {
    hide CountsOk;
    assert sub != c ==> ToWake(s, sub);
  }

  lemma {:induction false} Leaves(s: State, c: nat, rounds: nat)
    requires Inv(s) && c < |s.clusters| && s.clusters[c].pc in {Sleep, Clear} && ClusterStep(s, c, rounds).Some?
    ensures Inv(ClusterStep(s, c, rounds).value)
  {
    var s' := ClusterStep(s, c, rounds).value;
    CountUpdate(s.clusters, Arrived(s.round), c, s'.clusters[c]);
    CountUpdate(s.clusters, Closing, c, s'.clusters[c]);
    hide Count, Step, Target;
    assert ClusterOk(s.clusters[c], s.round);
  }

  lemma {:induction false} InvStep(s: State, c: nat, rounds: nat)
    requires Inv(s) && Full(|s.clusters| - 1) && ClusterStep(s, c, rounds).Some?
    ensures Inv(ClusterStep(s, c, rounds).value)
  {
    hide Inv;
    match s.clusters[c].pc {
      case Outside => Arrives(s, c, rounds);
      case Reset => Closes(s, c, rounds);
      case Wake(_) => Wakes(s, c, rounds);
      case _ => Leaves(s, c, rounds);
    }
  }

  lemma {:induction false} SameSize(s: State, c: nat, rounds: nat)
    requires ClusterStep(s, c, rounds).Some?
    ensures |ClusterStep(s, c, rounds).value.clusters| == |s.clusters|
  {
  }

  lemma {:induction false} InvRun(s: State, rounds: nat, schedule: seq<nat>)
    requires Inv(s) && Full(|s.clusters| - 1)
    ensures Inv(Run(s, rounds, schedule)) && |Run(s, rounds, schedule).clusters| == |s.clusters|
    decreases |schedule|
  {
    hide Inv, ClusterStep, Full;
    if schedule != [] {
      match ClusterStep(s, schedule[0], rounds) {
        case None => InvRun(s, rounds, schedule[1..]);
        case Some(t) =>
          InvStep(s, schedule[0], rounds);
          SameSize(s, schedule[0], rounds);
          InvRun(t, rounds, schedule[1..]);
      }
    }
  }

  // ----- what the barrier promises

  lemma {:induction false} Reached(n: nat, rounds: nat, schedule: seq<nat>)
    requires 0 < n < WORD && IsPowerOfTwo(n)
    ensures Inv(Run(Init(n), rounds, schedule)) && |Run(Init(n), rounds, schedule).clusters| == n
  {
    FullIsPower(n - 1);
    InvInit(n);
    InvRun(Init(n), rounds, schedule);
  }

  /** No cluster returns from a round before all have arrived in it, and the counter is bounded. */
  lemma {:induction false} NobodyLeavesEarly(n: nat, rounds: nat, schedule: seq<nat>, i: nat, j: nat)
    requires 0 < n < WORD && IsPowerOfTwo(n) && i < n && j < n
    ensures var s := Run(Init(n), rounds, schedule);
            && |s.clusters| == n
            && s.clusters[i].left <= s.clusters[j].adds
            && s.clusters[i].left <= s.clusters[j].left + 1
            && s.counter <= n
  {
    Reached(n, rounds, schedule);
    hide Count, Run, WakeOk;
    var s := Run(Init(n), rounds, schedule);
    assert ClusterOk(s.clusters[i], s.round) && ClusterOk(s.clusters[j], s.round);
  }

  /**
   Whoever the wake loop signals is asleep in the round just closed with its
   interrupt clear, so it is woken exactly once for it; and a cluster about to
   clear its interrupt is not signalled any more until it has left.
   */
  lemma {:induction false} WokenOnce(n: nat, rounds: nat, schedule: seq<nat>, c: nat, i: nat)
    requires 0 < n < WORD && IsPowerOfTwo(n) && c < n && i < n
    ensures var s := Run(Init(n), rounds, schedule);
            && |s.clusters| == n
            && (s.clusters[c].pc.Wake? && Target(s.clusters[c].pc.sub, n - 1) == i != c
                ==> Unwoken(s.clusters[i], s.round))
            && (s.clusters[c].pc.Wake? && s.clusters[i].pc == Clear ==> Target(s.clusters[c].pc.sub, n - 1) != i)
            && (s.clusters[i].irq ==> s.clusters[i].pc in {Sleep, Clear} && s.clusters[i].left + 1 == s.round)
  {
    FullIsPower(n - 1);
    Reached(n, rounds, schedule);
    var s := Run(Init(n), rounds, schedule);
    hide Count, Run, CountsOk, Or, AndNot, Target;
    assert ClusterOk(s.clusters[i], s.round);
    if s.clusters[c].pc.Wake? {
      FullOrder(s.clusters[c].pc.sub, n - 1);
      assert Unwoken(s.clusters[i], s.round) <==> ToWake(s, i);
    }
  }

  ghost predicate Bounded(s: State, rounds: nat) {
    forall i | 0 <= i < |s.clusters| ::
      s.clusters[i].left <= rounds && (s.clusters[i].pc != Outside ==> s.clusters[i].left < rounds)
  }

  lemma {:induction false} BoundedStep(s: State, c: nat, rounds: nat)
    requires Bounded(s, rounds) && ClusterStep(s, c, rounds).Some?
    ensures Bounded(ClusterStep(s, c, rounds).value, rounds)
  {
    hide Step, Target;
  }

  lemma {:induction false} BoundedRun(s: State, rounds: nat, schedule: seq<nat>)
    requires Bounded(s, rounds)
    ensures Bounded(Run(s, rounds, schedule), rounds)
    decreases |schedule|
  {
    hide ClusterStep, Bounded;
    if schedule != [] {
      match ClusterStep(s, schedule[0], rounds) {
        case None => BoundedRun(s, rounds, schedule[1..]);
        case Some(t) =>
          BoundedStep(s, schedule[0], rounds);
          BoundedRun(t, rounds, schedule[1..]);
      }
    }
  }

  ghost predicate Stuck(s: State, rounds: nat) {
    forall c: nat | c < |s.clusters| :: ClusterStep(s, c, rounds).None?
  }

  ghost predicate AllPassed(s: State, rounds: nat) {
    forall i | 0 <= i < |s.clusters| :: s.clusters[i].left == rounds && s.clusters[i].pc == Outside
  }

  lemma {:induction false} StuckCluster(s: State, c: nat, rounds: nat)
    requires Inv(s) && Bounded(s, rounds) && Stuck(s, rounds) && c < |s.clusters|
    ensures s.clusters[c].left == s.round
    ensures if s.clusters[c].pc == Outside then s.round >= rounds
            else s.clusters[c].pc == Sleep && s.clusters[c].adds == s.round + 1 && s.round < rounds
  {
    hide Count, CountsOk, Step, Target;
    assert ClusterStep(s, c, rounds).None? && ClusterStep(s, s.waker, rounds).None?;
    assert ClusterOk(s.clusters[c], s.round);
    assert Unwoken(s.clusters[c], s.round) <==> ToWake(s, c);
  }

  lemma {:induction false} StuckIsDone(s: State, rounds: nat)
    requires Inv(s) && Bounded(s, rounds) && Stuck(s, rounds)
    ensures AllPassed(s, rounds)
  {
    CountExtremes(s.clusters, Arrived(s.round));
    CountExtremes(s.clusters, Closing);
    hide Count, ClusterOk, Stuck, WakeOk;
    forall i: nat | i < |s.clusters| ensures s.clusters[i].pc in {Outside, Sleep} && s.clusters[i].left == s.round {
      StuckCluster(s, i, rounds);
    }
    StuckCluster(s, 0, rounds);
    if s.clusters[0].pc != Outside {
      forall i: nat | i < |s.clusters| ensures Arrived(s.round)(s.clusters[i]) {
        StuckCluster(s, i, rounds);
      }
      assert false;
    }
    forall i: nat | i < |s.clusters| ensures s.clusters[i].pc == Outside {
      StuckCluster(s, i, rounds);
    }
  }

  // ----- every run ends, whatever the size

  ghost predicate SubsOk(s: State) {
    && 0 < |s.clusters| < WORD
    && forall c | 0 <= c < |s.clusters| && s.clusters[c].pc.Wake? ::
         var sub := s.clusters[c].pc.sub; sub <= |s.clusters| - 1 && IsSubmask(sub, |s.clusters| - 1)
  }

  lemma {:induction false} SubmaskStep(sub: nat, mask: nat)
    requires sub <= mask < WORD && IsSubmask(sub, mask)
    ensures Target(sub, mask) == sub && Step(sub, mask) <= mask && IsSubmask(Step(sub, mask), mask)
    ensures Step(sub, mask) < sub || sub == 0
  {
    if sub == 0 {
      FromZero(mask);
      MaskIsSubmask(mask);
    } else {
      StepDown(sub, mask);
      Predecessor(sub, mask, 0);
    }
  }

  lemma {:induction false} SubsOkStep(s: State, c: nat, rounds: nat)
    requires SubsOk(s) && ClusterStep(s, c, rounds).Some?
    ensures SubsOk(ClusterStep(s, c, rounds).value)
  {
    ZeroIsSubmask(|s.clusters| - 1);
    if s.clusters[c].pc.Wake? {
      SubmaskStep(s.clusters[c].pc.sub, |s.clusters| - 1);
    }
    hide IsSubmask, Step, Target;
  }

  /** How far a cluster is into the barrier, out of `n + 5` steps. */
  function Progress(pc: Pc, n: nat): nat
    requires pc.Wake? ==> pc.sub < n
  {
    match pc
    case Outside => 0
    case Sleep => 1
    case Reset => 1
    case Wake(sub) => if sub == 0 then 2 else 3 + (n - 1 - sub)
    case Clear => n + 4
  }

  function Times(m: nat, k: nat): nat {
    if k == 0 then 0 else m + Times(m, k - 1)
  }

  /** Steps left in `k` rounds, `p` of the first one made. */
  function Steps(n: nat, k: nat, p: nat): nat {
    if k == 0 || p >= n + 5 then 0 else Times(n + 5, k - 1) + (n + 5 - p)
  }

  function Rank(n: nat, rounds: nat): Cluster -> nat {
    (t: Cluster) =>
      if t.left >= rounds || (t.pc.Wake? && t.pc.sub >= n) then 0
      else Steps(n, rounds - t.left, Progress(t.pc, n))
  }

  lemma {:induction false} RankDrops(n: nat, rounds: nat, t: Cluster, u: Cluster)
    requires t.left < rounds && (t.pc.Wake? ==> t.pc.sub < n) && (u.pc.Wake? ==> u.pc.sub < n)
    requires || (u.left == t.left && Progress(t.pc, n) < Progress(u.pc, n))
             || (u.left == t.left + 1 && u.pc == Outside)
    ensures Rank(n, rounds)(u) < Rank(n, rounds)(t)
  {
    ProgressBound(t.pc, n);
    ProgressBound(u.pc, n);
  }

  lemma {:induction false} ProgressBound(pc: Pc, n: nat)
    requires pc.Wake? ==> pc.sub < n
    ensures Progress(pc, n) <= n + 4
  {
  }

  lemma {:induction false} SignalKeepsRank(cs: seq<Cluster>, self: nat, i: nat, n: nat, rounds: nat)
    ensures Sum(Signal(cs, self, i), Rank(n, rounds)) == Sum(cs, Rank(n, rounds))
  {
    if i != self && i < |cs| {
      SumUpdate(cs, Rank(n, rounds), i, cs[i].(irq := true));
    }
  }

  ghost function Fuel(s: State, rounds: nat): nat {
    Sum(s.clusters, Rank(|s.clusters|, rounds))
  }

  /** The clusters as the stepping one finds them, after its signal if it sends one. */
  function Signalled(s: State, c: nat): (cs: seq<Cluster>)
    requires c < |s.clusters|
    ensures |cs| == |s.clusters| && cs[c] == s.clusters[c]
  {
    var t := s.clusters[c];
    if t.pc.Wake? then Signal(s.clusters, c, Target(t.pc.sub, |s.clusters| - 1)) else s.clusters
  }

  lemma {:induction false} StepAdvances(s: State, c: nat, rounds: nat)
    requires SubsOk(s) && Bounded(s, rounds) && ClusterStep(s, c, rounds).Some?
    ensures var n, t, s' := |s.clusters|, s.clusters[c], ClusterStep(s, c, rounds).value;
            && |s'.clusters| == n && s'.clusters == Signalled(s, c)[c := s'.clusters[c]]
            && t.left < rounds && (t.pc.Wake? ==> t.pc.sub < n)
               && (s'.clusters[c].pc.Wake? ==> s'.clusters[c].pc.sub < n)
            && (|| (s'.clusters[c].left == t.left && Progress(t.pc, n) < Progress(s'.clusters[c].pc, n))
                || (s'.clusters[c].left == t.left + 1 && s'.clusters[c].pc == Outside))
  {
    if s.clusters[c].pc.Wake? {
      SubmaskStep(s.clusters[c].pc.sub, |s.clusters| - 1);
    }
    hide IsSubmask, Step, Target;
  }

  lemma {:induction false} FuelDrops(s: State, c: nat, rounds: nat)
    requires c < |s.clusters| && SubsOk(s) && Bounded(s, rounds) && ClusterStep(s, c, rounds).Some?
    ensures Fuel(ClusterStep(s, c, rounds).value, rounds) < Fuel(s, rounds)
  {
    hide Sum, Rank, ClusterStep, Bounded, SubsOk, Progress, Signal, Target;
    var n, t, s' := |s.clusters|, s.clusters[c], ClusterStep(s, c, rounds).value;
    StepAdvances(s, c, rounds);
    if t.pc.Wake? {
      SignalKeepsRank(s.clusters, c, Target(t.pc.sub, n - 1), n, rounds);
    }
    RankDrops(n, rounds, t, s'.clusters[c]);
    SumUpdate(Signalled(s, c), Rank(n, rounds), c, s'.clusters[c]);
  }

  lemma {:induction false} RunsOut(s: State, rounds: nat) returns (schedule: seq<nat>)
    requires SubsOk(s) && Bounded(s, rounds)
    ensures Stuck(Run(s, rounds, schedule), rounds)
    decreases Fuel(s, rounds)
  {
    hide SubsOk, Bounded, ClusterStep, Fuel;
    if Stuck(s, rounds) {
      schedule := [];
    } else {
      var c: nat :| c < |s.clusters| && ClusterStep(s, c, rounds).Some?;
      SubsOkStep(s, c, rounds);
      BoundedStep(s, c, rounds);
      FuelDrops(s, c, rounds);
      var rest := RunsOut(ClusterStep(s, c, rounds).value, rounds);
      schedule := [c] + rest;
      assert schedule[1..] == rest;
    }
  }

  // ----- communicators whose size is not a power of two

  /** Cluster `i` sleeps for ever: no submask ever reaches it. */
  ghost predicate Trapped(s: State, i: nat) {
    && SubsOk(s) && i < |s.clusters| && s.clusters[i] == Cluster(Sleep, false, 1, 0)
    && !IsSubmask(i, |s.clusters| - 1)
  }

  lemma {:induction false} StaysTrapped(s: State, i: nat, rounds: nat, c: nat)
    requires Trapped(s, i) && ClusterStep(s, c, rounds).Some?
    ensures Trapped(ClusterStep(s, c, rounds).value, i)
  {
    SubsOkStep(s, c, rounds);
    if s.clusters[c].pc.Wake? {
      SubmaskStep(s.clusters[c].pc.sub, |s.clusters| - 1);
    }
    hide IsSubmask, Step, Target;
  }

  lemma {:induction false} TrappedForever(s: State, i: nat, rounds: nat, schedule: seq<nat>)
    requires Trapped(s, i)
    ensures Trapped(Run(s, rounds, schedule), i)
    decreases |schedule|
  {
    hide Trapped, ClusterStep;
    if schedule != [] {
      match ClusterStep(s, schedule[0], rounds) {
        case None => TrappedForever(s, i, rounds, schedule[1..]);
        case Some(t) =>
          StaysTrapped(s, i, rounds, schedule[0]);
          TrappedForever(t, i, rounds, schedule[1..]);
      }
    }
  }

  /** A cluster that is no submask of `n - 1` and arrives first never leaves, whatever happens next. */
  lemma {:induction false} FirstArrivalTrapped(n: nat, i: nat, rounds: nat, rest: seq<nat>)
    requires 1 < n < WORD && i < n && !IsSubmask(i, n - 1) && rounds > 0
    ensures Trapped(Run(Init(n), rounds, [i] + rest), i)
  {
    hide IsSubmask, Step, Target;
    assert ([i] + rest)[1..] == rest;
    TrappedForever(ClusterStep(Init(n), i, rounds).value, i, rounds, rest);
  }

  /** Whatever the schedule, when no cluster can step all have passed the barrier `rounds` times. */
  ghost predicate NeverTraps(n: nat, rounds: nat) {
    forall schedule: seq<nat> ::
      Stuck(Run(Init(n), rounds, schedule), rounds) ==> AllPassed(Run(Init(n), rounds, schedule), rounds)
  }

  /** The barrier is free of deadlock exactly for communicators whose size is a power of two. */
  lemma {:induction false} NeverTrapsExactly(n: nat, rounds: nat)
    requires 0 < n < WORD && rounds > 0
    ensures NeverTraps(n, rounds) <==> IsPowerOfTwo(n)
  {
    if IsPowerOfTwo(n) {
      forall schedule: seq<nat> | Stuck(Run(Init(n), rounds, schedule), rounds)
        ensures AllPassed(Run(Init(n), rounds, schedule), rounds)
      {
        PowerOfTwoPasses(n, rounds, schedule);
      }
    } else {
      var i := NotFullOf(n);
      var trap := TrapsIn(n, i, rounds);
    }
  }

  lemma {:induction false} NotFullOf(n: nat) returns (i: nat)
    requires n > 0 && !IsPowerOfTwo(n)
    ensures 1 < n && i < n && !IsSubmask(i, n - 1)
  {
    FullIsPower(n - 1);
    i := NotFull(n - 1);
  }

  lemma {:induction false} TrapsIn(n: nat, i: nat, rounds: nat) returns (schedule: seq<nat>)
    requires 1 < n < WORD && i < n && !IsSubmask(i, n - 1) && rounds > 0
    ensures Stuck(Run(Init(n), rounds, schedule), rounds) && !AllPassed(Run(Init(n), rounds, schedule), rounds)
  {
    hide IsSubmask, Step, Target, Stuck;
    var s1 := ClusterStep(Init(n), i, rounds).value;
    FirstArrivalTrapped(n, i, rounds, []);
    assert [i] + [] == [i] && Run(Init(n), rounds, [i]) == s1;
    BoundedStep(Init(n), i, rounds);
    var rest := RunsOut(s1, rounds);
    schedule := [i] + rest;
    assert schedule[1..] == rest;
    FirstArrivalTrapped(n, i, rounds, rest);
  }

  /** No waiter is trapped and every cluster passes all rounds when the size is a power of two. */
  lemma {:induction false} PowerOfTwoPasses(n: nat, rounds: nat, schedule: seq<nat>)
    requires 0 < n < WORD && IsPowerOfTwo(n) && Stuck(Run(Init(n), rounds, schedule), rounds)
    ensures AllPassed(Run(Init(n), rounds, schedule), rounds)
  {
    Reached(n, rounds, schedule);
    BoundedRun(Init(n), rounds, schedule);
    StuckIsDone(Run(Init(n), rounds, schedule), rounds);
  }
}
