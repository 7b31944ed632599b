/**
 From every reachable state of a client with short bursts some schedule completes
 all calls: let the data mover run until it sleeps, then give the client a turn.
 */
module DataMoverProgress {
  import opened DataMover
  import opened DataMoverRuns
  import opened DataMoverBlocking

  /** Only the client can move. */
  predicate Dozing(s: State) {
    s.mover.pc == Wfi && !s.sh.irq && s.outstanding == []
  }

  lemma {:induction false} DozingStops(s: State, cap: nat, actor: nat)
    requires Dozing(s) && actor > 0
    ensures ActorStep(s, cap, actor).None?
  {
  }

  /** The engine completes what is outstanding. */
  lemma {:induction false} Drains(s: State, cap: nat) returns (schedule: seq<nat>)
    requires Inv(s)
    ensures var t := Run(s, cap, schedule);
            Inv(t) && SameClient(s, t) && t.mover == s.mover && t.sh == s.sh && t.outstanding == []
    decreases |s.outstanding|
  {
    hide Inv, ActorStep;
    if s.outstanding == [] {
      schedule := [];
    } else {
      ActorIs(s, cap);
      var t := ActorStep(s, cap, 2).value;
      InvStep(s, cap, 2);
      var more := Drains(t, cap);
      schedule := [2] + more;
      RunOne(s, cap, 2);
      RunAppend(s, cap, [2], more);
    }
  }

  function NapRank(pc: MoverPc): nat {
    match pc case SleepFill => 4 case SleepStat => 3 case IncWfi => 2 case _ => 1
  }

  /** Where it is not tidy the data mover is on its way to sleep, or about to look around once more. */
  lemma {:induction false} UntidyStep(s: State, cap: nat)
    requires !Tidy(s) && s.mover.pc != Wfi
    ensures MoverStep(s, cap).Some?
    ensures var t := MoverStep(s, cap).value;
            SameClient(s, t) && (Tidy(t) || NapRank(t.mover.pc) < NapRank(s.mover.pc))
  {
  }

  lemma {:induction false} TidiesUp(s: State, cap: nat) returns (schedule: seq<nat>)
    requires Inv(s)
    ensures var t := Run(s, cap, schedule);
            Inv(t) && SameClient(s, t) && (Tidy(t) || (t.mover.pc == Wfi && !t.sh.irq))
    decreases NapRank(s.mover.pc)
  {
    hide Inv, ActorStep, MoverStep, NapRank;
    if Tidy(s) || s.mover.pc == Wfi {
      schedule := [];
    } else {
      hide Tidy;
      UntidyStep(s, cap);
      ActorIs(s, cap);
      var t := MoverStep(s, cap).value;
      InvStep(s, cap, 1);
      RunOne(s, cap, 1);
      if Tidy(t) {
        schedule := [1];
      } else {
        var more := TidiesUp(t, cap);
        schedule := [1] + more;
        RunAppend(s, cap, [1], more);
      }
    }
  }

  /** The data mover and the engine alone come to rest from everywhere. */
  lemma {:induction false} Dozes(s: State, cap: nat) returns (schedule: seq<nat>)
    requires Inv(s) && cap > 0
    ensures var t := Run(s, cap, schedule); Inv(t) && SameClient(s, t) && Dozing(t)
  {
    hide Inv, Tidy, Run;
    var a := TidiesUp(s, cap);
    var t := Run(s, cap, a);
    var b: seq<nat>;
    if Tidy(t) {
      b := Settles(t, cap);
    } else {
      b := Drains(t, cap);
    }
    RunAppend(s, cap, a, b);
    schedule := a + b;
  }

  /** Turns of the client until its calls are made. */
  function ClientRank(c: Client): nat {
    31 * |c.ops| + match c.pc
                   case Idle => 30
                   case PollFill => 29
                   case Lock => 28
                   case Write(k) => if k < 8 then 27 - k else 19
                   case BumpFill => 18
                   case BumpFront => 17
                   case Unlock => 16
                   case WakeSpin(r) => if r == FromRequest then 10 else 29
                   case WakeSet(r) => if r == FromRequest then 9 else 28
                   case SpinFill => 15
                   case SpinStat => 14
                   case LockStat => 13
                   case ClearValid => 12
                   case Request => 11
                   case SpinValid => 8
                   case UnlockStat => 7
  }

  lemma {:induction false} ClientRankDrops(s: State)
    requires ClientStep(s).Some?
    ensures ClientRank(ClientStep(s).value.client) < ClientRank(s.client)
  {
    hide TransferOf;
    WritesAtMost(s.client.ops);
    hide Writes;
  }

  lemma {:induction false} WritesAtMost(ops: seq<Op>)
    ensures ops != [] ==> |Writes(ops[0])| <= 8
  {
  }

  lemma {:induction false} RunAgain(ops: seq<Op>, cap: nat, first: seq<nat>, more: seq<nat>, rest: seq<nat>)
    ensures Run(Init(ops), cap, first + (more + rest)) == Run(Init(ops), cap, (first + more) + rest)
  {
    hide Run, Init;
    assert first + (more + rest) == (first + more) + rest;
  }

  lemma {:induction false} StuckThere(s: State, cap: nat)
    requires Dozing(s) && ClientStep(s).None?
    ensures Stuck(s, cap)
  {
    hide Dozing;
    forall actor: nat ensures ActorStep(s, cap, actor).None? {
      if actor > 0 {
        DozingStops(s, cap, actor);
      }
    }
  }

  /** However a run has begun, some schedule completes all calls of a client with short bursts. */
  lemma {:induction false} Completes(ops: seq<Op>, cap: nat, first: seq<nat>) returns (rest: seq<nat>)
    requires cap > 0 && ShortBursts(ops, 0)
    ensures Run(Init(ops), cap, first + rest).hist.done == ops
    decreases ClientRank(Run(Init(ops), cap, first).client)
  {
    hide Run, Init, Inv, Dozing, Stuck, ShortBursts, ClientStep, ClientRank;
    Reached(ops, cap, first);
    var s := Run(Init(ops), cap, first);
    var a := Dozes(s, cap);
    RunAppend(Init(ops), cap, first, a);
    var t := Run(Init(ops), cap, first + a);
    if ClientStep(t).None? {
      StuckThere(t, cap);
      ShortBurstsNeverBlock(ops, cap, first + a);
      rest := a;
    } else {
      ClientGoes(t, cap);
      ClientRankDrops(t);
      RunAppend(Init(ops), cap, first + a, [0]);
      assert first + a + [0] == first + (a + [0]);
      var more := Completes(ops, cap, first + (a + [0]));
      rest := (a + [0]) + more;
      RunAgain(ops, cap, first, a + [0], more);
    }
  }
}
