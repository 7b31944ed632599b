/**
 `snrt_partial_barrier` (sw/runtime/src/sync.h:310-324): a counting barrier whose
 last arrival resets the counter and bumps a 32-bit iteration number on which the
 others spin.

 A step is one shared access of one thread, in any interleaving; a spin is a
 guard.  `adds` and `left` count a thread's arrivals and departures, `round` the
 rounds closed; no step depends on them.
 */
module PartialBarrier {
  import opened Wrappers
  import opened Counting
  import opened Words

  datatype Pc = Outside | Add | Reset | Bump | Spin

  datatype Thread = Thread(pc: Pc, prevIt: nat, adds: nat, left: nat)

  datatype State = State(iteration: nat, cnt: nat, threads: seq<Thread>, round: nat)

  /** `n` threads in front of a barrier whose iteration number is `it`. */
  function Init(n: nat, it: nat): State {
    State(it, 0, seq(n, _ => Thread(Outside, 0, 0, 0)), 0)
  }

  /** A step of thread `i`, which passes the barrier `rounds` times. */
  function ThreadStep(s: State, i: nat, rounds: nat): Option<State> {
    if i >= |s.threads| then None
    else
      var t, n := s.threads[i], |s.threads|;
      match t.pc
      case Outside =>
        if t.left >= rounds then None
        else Some(s.(threads := s.threads[i := t.(pc := Add, prevIt := s.iteration)]))
      case Add =>
        var cnt := (s.cnt + 1) % WORD;
        Some(s.(cnt := cnt, threads := s.threads[i := t.(pc := if cnt == n then Reset else Spin, adds := t.adds + 1)]))
      case Reset => Some(s.(cnt := 0, threads := s.threads[i := t.(pc := Bump)]))
      case Bump =>
        Some(State((s.iteration + 1) % WORD, s.cnt, s.threads[i := t.(pc := Outside, left := t.left + 1)], s.round + 1))
      case Spin =>
        if t.prevIt == s.iteration then None
        else Some(s.(threads := s.threads[i := t.(pc := Outside, left := t.left + 1)]))
  }

  function Run(s: State, rounds: nat, schedule: seq<nat>): State
    decreases |schedule|
  {
    if schedule == [] then s
    else Run(match ThreadStep(s, schedule[0], rounds) case None => s case Some(t) => t, rounds, schedule[1..])
  }

  // ----- the invariant

  /** The iteration number of a round. */
  function It(it: nat, round: nat): nat {
    (it + round) % WORD
  }

  function Arrived(round: nat): Thread -> bool {
    (t: Thread) => t.adds > round
  }

  predicate Closing(t: Thread) {
    t.pc == Reset || t.pc == Bump
  }

  predicate AtBump(t: Thread) {
    t.pc == Bump
  }

  /** A thread is in the current round, or still spinning in the one just closed. */
  predicate ThreadOk(t: Thread, it: nat, round: nat) {
    if t.left == round then
      match t.pc
      case Outside => t.adds == round
      case Add => t.adds == round && t.prevIt == It(it, round)
      case Spin => t.adds == round + 1 && t.prevIt == It(it, round)
      case _ => t.adds == round + 1
    else
      t.left + 1 == round && t.pc == Spin && t.adds == round && t.prevIt == It(it, t.left)
  }

  ghost predicate Inv(s: State, it: nat) {
    && 0 < |s.threads| < WORD
    && s.iteration == It(it, s.round)
    && (forall i | 0 <= i < |s.threads| :: ThreadOk(s.threads[i], it, s.round))
    && CountsOk(s)
  }

  /** The last arrival, and only it, closes the round. */
  predicate CountsOk(s: State) {
    var arrived, closing := Count(s.threads, Arrived(s.round)), Count(s.threads, Closing);
    && closing == (if arrived == |s.threads| then 1 else 0)
    && s.cnt == if Count(s.threads, AtBump) > 0 then 0 else arrived
  }

  lemma {:induction false} InvInit(n: nat, it: nat)
    requires 0 < n < WORD && it < WORD
    ensures Inv(Init(n, it), it)
  {
    var s := Init(n, it);
    CountExtremes(s.threads, Arrived(0));
    CountExtremes(s.threads, Closing);
  }

  /** A step that stays in the round. */
  lemma {:induction false} WithinRound(s: State, s': State, it: nat, i: nat, t: Thread)
    requires Inv(s, it) && i < |s.threads| && s'.threads == s.threads[i := t]
    requires s'.iteration == s.iteration && s'.round == s.round && ThreadOk(t, it, s.round)
    requires var u := s.threads[i];
             var arrived := Count(s.threads, Arrived(s.round));
             || (t.adds == u.adds && Closing(t) == Closing(u) && AtBump(t) == AtBump(u) && s'.cnt == s.cnt)
             || (u.pc == Add && t.adds == s.round + 1 && s'.cnt == s.cnt + 1
                && t.pc == if s'.cnt == |s.threads| then Reset else Spin)
             || (u.pc == Reset && t.pc == Bump && t.adds == u.adds && s'.cnt == 0)
    ensures Inv(s', it)
  {
    CountUpdate(s.threads, Arrived(s.round), i, t);
    CountUpdate(s.threads, Closing, i, t);
    CountUpdate(s.threads, AtBump, i, t);
    BumpIsClosing(s.threads);
    CountExtremes(s.threads, Arrived(s.round));
    hide Count;
  }

  lemma {:induction false} BumpIsClosing(ts: seq<Thread>)
    ensures Count(ts, AtBump) <= Count(ts, Closing)
  {
    if ts != [] {
      BumpIsClosing(ts[1..]);
    }
  }

  /** While a thread has yet to arrive nobody closes the round, and the counter is exact. */
  lemma {:induction false} BeforeArrival(s: State, it: nat, i: nat)
    requires Inv(s, it) && i < |s.threads| && s.threads[i].pc == Add
    ensures s.cnt == Count(s.threads, Arrived(s.round)) < |s.threads|
  {
    CountExtremes(s.threads, Arrived(s.round));
    BumpIsClosing(s.threads);
    hide Count;
    assert !Arrived(s.round)(s.threads[i]);
  }

  /** Only one thread closes a round. */
  lemma {:induction false} OneCloser(ts: seq<Thread>, i: nat, j: nat)
    requires i < j < |ts| && Closing(ts[i]) && Closing(ts[j])
    ensures Count(ts, Closing) >= 2
  {
    if i > 0 {
      OneCloser(ts[1..], i - 1, j - 1);
    } else {
      CountExtremes(ts[1..], Closing);
      assert ts[1..][j - 1] == ts[j];
    }
  }

  /** Closing a round: everybody has arrived, and everybody else spins on the old iteration. */
  lemma {:induction false} AllArrived(s: State, it: nat, i: nat)
    requires Inv(s, it) && i < |s.threads| && Closing(s.threads[i])
    ensures forall j | 0 <= j < |s.threads| :: s.threads[j].adds == s.round + 1 && s.threads[j].left == s.round
    ensures forall j | 0 <= j < |s.threads| && j != i ::
              s.threads[j].pc == Spin && s.threads[j].prevIt == It(it, s.round)
  {
    CountExtremes(s.threads, Arrived(s.round));
    CountExtremes(s.threads, Closing);
    hide Count;
    forall j | 0 <= j < |s.threads|
      ensures s.threads[j].adds == s.round + 1 && s.threads[j].left == s.round
      ensures j != i ==> s.threads[j].pc == Spin && s.threads[j].prevIt == It(it, s.round)
    {
      assert Arrived(s.round)(s.threads[j]);
      if j < i && Closing(s.threads[j]) {
        OneCloser(s.threads, j, i);
      } else if i < j && Closing(s.threads[j]) {
        OneCloser(s.threads, i, j);
      }
    }
  }

  lemma {:induction false} NextIt(it: nat, round: nat)
    ensures (It(it, round) + 1) % WORD == It(it, round + 1)
  {
  }

  lemma {:induction false} RoundCloses(s: State, s': State, it: nat, i: nat)
    requires Inv(s, it) && i < |s.threads| && s.threads[i].pc == Bump
    requires s' == State((s.iteration + 1) % WORD, s.cnt,
                         s.threads[i := s.threads[i].(pc := Outside, left := s.threads[i].left + 1)], s.round + 1)
    ensures Inv(s', it)
  {
    AllArrived(s, it, i);
    CountExtremes(s.threads, AtBump);
    CountExtremes(s'.threads, Arrived(s'.round));
    CountExtremes(s'.threads, Closing);
    BumpIsClosing(s'.threads);
    NextIt(it, s.round);
    hide Count, It;
  }

  lemma {:induction false} Consecutive(it: nat, k: nat)
    ensures It(it, k) != It(it, k + 1)
  {
  }

  lemma {:induction false} InvStep(s: State, it: nat, i: nat, rounds: nat)
    requires Inv(s, it) && ThreadStep(s, i, rounds).Some?
    ensures Inv(ThreadStep(s, i, rounds).value, it)
  {
    hide Count, It, CountsOk;
    var s', t := ThreadStep(s, i, rounds).value, s.threads[i];
    assert ThreadOk(t, it, s.round);
    if t.pc == Bump {
      RoundCloses(s, s', it, i);
    } else {
      if t.pc == Add {
        BeforeArrival(s, it, i);
      }
      WithinRound(s, s', it, i, s'.threads[i]);
    }
  }

  lemma {:induction false} InvRun(s: State, it: nat, rounds: nat, schedule: seq<nat>)
    requires Inv(s, it)
    ensures Inv(Run(s, rounds, schedule), it) && |Run(s, rounds, schedule).threads| == |s.threads|
    decreases |schedule|
  {
    hide Inv, Count;
    if schedule != [] {
      match ThreadStep(s, schedule[0], rounds) {
        case None => InvRun(s, it, rounds, schedule[1..]);
        case Some(t) =>
          InvStep(s, it, schedule[0], rounds);
          InvRun(t, it, rounds, schedule[1..]);
      }
    }
  }

  // ----- what the barrier promises

  /**
   No thread leaves a round before all `n` have arrived in it: whoever has left
   `k` times finds every thread to have arrived `k` times.  The counter never
   exceeds `n`, and threads are at most one round apart.
   */
  lemma {:induction false} NobodyLeavesEarly(n: nat, it: nat, rounds: nat, schedule: seq<nat>, i: nat, j: nat)
    requires 0 < n < WORD && it < WORD && i < n && j < n
    ensures var s := Run(Init(n, it), rounds, schedule);
            && |s.threads| == n
            && s.threads[i].left <= s.threads[j].adds
            && s.threads[i].left <= s.threads[j].left + 1
            && s.cnt <= n
  {
    InvInit(n, it);
    InvRun(Init(n, it), it, rounds, schedule);
    hide Count, Run, It;
    var s := Run(Init(n, it), rounds, schedule);
    assert ThreadOk(s.threads[i], it, s.round) && ThreadOk(s.threads[j], it, s.round);
  }

  /** A thread inside the barrier has not passed it `rounds` times yet. */
  ghost predicate Bounded(s: State, rounds: nat) {
    forall i | 0 <= i < |s.threads| ::
      s.threads[i].left <= rounds && (s.threads[i].pc != Outside ==> s.threads[i].left < rounds)
  }

  lemma {:induction false} BoundedRun(s: State, rounds: nat, schedule: seq<nat>)
    requires Bounded(s, rounds)
    ensures Bounded(Run(s, rounds, schedule), rounds)
    decreases |schedule|
  {
    if schedule != [] {
      match ThreadStep(s, schedule[0], rounds) {
        case None => BoundedRun(s, rounds, schedule[1..]);
        case Some(t) => BoundedRun(t, rounds, schedule[1..]);
      }
    }
  }

  ghost predicate Stuck(s: State, rounds: nat) {
    forall i: nat | i < |s.threads| :: ThreadStep(s, i, rounds).None?
  }

  /**
   No waiter is trapped, whatever the iteration number wraps to: when no thread
   can step, every thread has passed the barrier all `rounds` times.
   */
  lemma {:induction false} NobodyIsTrapped(n: nat, it: nat, rounds: nat, schedule: seq<nat>)
    requires 0 < n < WORD && it < WORD && Stuck(Run(Init(n, it), rounds, schedule), rounds)
    ensures var s := Run(Init(n, it), rounds, schedule);
            |s.threads| == n && forall i | 0 <= i < n :: s.threads[i].left == rounds && s.threads[i].pc == Outside
  {
    InvInit(n, it);
    InvRun(Init(n, it), it, rounds, schedule);
    BoundedRun(Init(n, it), rounds, schedule);
    var s := Run(Init(n, it), rounds, schedule);
    hide Run;
    StuckIsDone(s, it, rounds);
  }

  lemma {:induction false} SpinningIsCurrent(s: State, it: nat, rounds: nat, i: nat)
    requires Inv(s, it) && Bounded(s, rounds) && i < |s.threads| && ThreadStep(s, i, rounds).None?
    ensures s.threads[i].left == s.round
    ensures if s.threads[i].pc == Outside then s.round >= rounds
            else s.threads[i].pc == Spin && s.threads[i].adds == s.round + 1 && s.round < rounds
  {
    hide Count, It, CountsOk;
    assert ThreadOk(s.threads[i], it, s.round);
    if s.round > 0 {
      Consecutive(it, s.round - 1);
    }
  }

  lemma {:induction false} StuckIsDone(s: State, it: nat, rounds: nat)
    requires Inv(s, it) && Bounded(s, rounds) && Stuck(s, rounds)
    ensures forall i | 0 <= i < |s.threads| :: s.threads[i].left == rounds && s.threads[i].pc == Outside
  {
    CountExtremes(s.threads, Arrived(s.round));
    CountExtremes(s.threads, Closing);
    hide Count, It, ThreadOk;
    forall i: nat | i < |s.threads| ensures s.threads[i].pc in {Outside, Spin} && s.threads[i].left == s.round {
      SpinningIsCurrent(s, it, rounds, i);
    }
    SpinningIsCurrent(s, it, rounds, 0);
    if s.threads[0].pc != Outside {
      forall i: nat | i < |s.threads| ensures Arrived(s.round)(s.threads[i]) {
        SpinningIsCurrent(s, it, rounds, i);
      }
      assert false;
    }
    forall i: nat | i < |s.threads| ensures s.threads[i].pc == Outside {
      SpinningIsCurrent(s, it, rounds, i);
    }
  }

  // ----- every run ends

  function Progress(pc: Pc): nat {
    match pc case Outside => 0 case Add => 1 case Reset => 2 case Bump => 3 case Spin => 3
  }

  function Rank(rounds: nat): Thread -> nat {
    (t: Thread) => if t.left >= rounds then 0 else 4 * (rounds - t.left) - Progress(t.pc)
  }

  /** Every step uses up fuel, so no run goes on forever and some schedule lets everybody through. */
  lemma {:induction false} FuelDrops(s: State, i: nat, rounds: nat)
    requires Bounded(s, rounds) && ThreadStep(s, i, rounds).Some?
    ensures Sum(ThreadStep(s, i, rounds).value.threads, Rank(rounds)) < Sum(s.threads, Rank(rounds))
  {
    hide Sum;
    SumUpdate(s.threads, Rank(rounds), i, ThreadStep(s, i, rounds).value.threads[i]);
  }

  lemma {:induction false} EverybodyPasses(s: State, it: nat, rounds: nat) returns (schedule: seq<nat>)
    requires Inv(s, it) && Bounded(s, rounds)
    ensures var t := Run(s, rounds, schedule);
            |t.threads| == |s.threads| && forall i | 0 <= i < |t.threads| :: t.threads[i].left == rounds
    decreases Sum(s.threads, Rank(rounds))
  {
    hide Inv, ThreadStep, Sum, Rank;
    if Stuck(s, rounds) {
      schedule := [];
      StuckIsDone(s, it, rounds);
    } else {
      var i: nat :| i < |s.threads| && ThreadStep(s, i, rounds).Some?;
      var s1 := ThreadStep(s, i, rounds).value;
      InvStep(s, it, i, rounds);
      BoundedStep(s, i, rounds);
      FuelDrops(s, i, rounds);
      var rest := EverybodyPasses(s1, it, rounds);
      schedule := [i] + rest;
      assert schedule[1..] == rest;
    }
  }

  lemma {:induction false} BoundedStep(s: State, i: nat, rounds: nat)
    requires Bounded(s, rounds) && ThreadStep(s, i, rounds).Some?
    ensures Bounded(ThreadStep(s, i, rounds).value, rounds)
    ensures |ThreadStep(s, i, rounds).value.threads| == |s.threads|
  {
  }
}
