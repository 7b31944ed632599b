/**
 What the trace tool gets from the emulator, for any program of single
 instructions and nests and any interleaving of offloads, decodings and issues:
 exactly when a run does not raise, what it issues, when it drains, and exactly
 for which programs it shows their meaning.
 */
module SequencerTheorems {
  import opened Wrappers
  import opened SequencerModel
  import opened SequencerNest
  import opened SequencerTrace
  import opened SequencerUnrolling
  import opened SequencerProgram
  import opened SequencerRun
  import opened SequencerLabels
  import opened SequencerTiming

  lemma {:induction false} FewerQueued(w: Where, i: nat, j: nat)
    requires InnerQueued(w, i) && j <= i
    ensures InnerQueued(w, j)
  {
  }

  lemma {:induction false} TailOf<T>(s: seq<T>, m: nat)
    requires m < |s|
    ensures s[m..] != [] && s[m..][0] == s[m] && s[m..][1..] == s[m + 1..]
  {
  }

  /** Events after part of a program whose labels are positions. */
  lemma {:induction false} RunsFrom(s: State, w: Where, g: seq<LoopCfg>, stream: seq<Insn>, issues: seq<Issue>,
                                    places: seq<nat>,
                                    evs: seq<Event>, i: seq<Insn>, f: seq<Frep>, pend: bool, m: nat)
    requires Sim(s, w, g, Offloads(evs) + i, Configured(evs) + f, pend) && Disciplined(evs, pend)
    requires Positioned(stream) && Within(w, stream) && InnerQueued(w, |Offloads(evs) + i|)
    requires |Offloads(evs) + i| <= |stream| && |Configured(evs) + f| <= FrepCount(stream)
    requires m <= |issues| == |places| && Left(w) == issues[m..]
    requires forall k | 0 <= k < |issues| :: places[k] == issues[k].sec
    ensures Run(s, evs).Some?
            <==> Timely(places, stream, evs, m, |stream| - |Offloads(evs) + i|,
                FrepCount(stream) - |Configured(evs) + f|)
    decreases |evs|
  {
    hide Sim, Left, Emulate, Within, InnerQueued, Onward, FrepCount, Positioned, WhereOk;
    if evs != [] {
      var rest := evs[1..];
      Assoc(if evs[0].Offload? then [evs[0].insn] else [], Offloads(rest), i);
      Assoc(if evs[0].Configure? then [evs[0].frep] else [], Configured(rest), f);
      Empties(Offloads(rest) + i);
      Empties(Configured(rest) + f);
      match evs[0] {
        case Offload(insn) =>
          var g1 := SimOffload(s, w, g, insn, Offloads(rest) + i, Configured(rest) + f, pend);
          FewerQueued(w, |Offloads(evs) + i|, |Offloads(rest) + i|);
          RunsFrom(Push(s, insn), w, g1, stream, issues, places, rest, i, f, pend || insn.isFrep, m);
        case Configure(frep) =>
          SimConfigure(s, w, g, Offloads(rest) + i, frep, Configured(rest) + f);
          RunsFrom(Decode(s, frep).value, w, g, stream, issues, places, rest, i, f, false, m);
        case Issued =>
          StepsFromReady(s, w, g, stream, Offloads(rest) + i, Configured(rest) + f, pend);
          if m < |issues| {
            TailOf(issues, m);
          }
          if Emulate(s).Some? {
            var g1 := SimIssue(s, w, g, Offloads(rest) + i, Configured(rest) + f, pend);
            RunsFrom(Emulate(s).value.0, Onward(w), g1, stream, issues, places, rest, i, f, pend, m + 1);
          }
      }
    }
  }

  lemma {:induction false} StripCount(s: seq<Insn>, t: seq<Insn>)
    requires |s| == |t| && forall k | 0 <= k < |s| :: s[k].isFrep == t[k].isFrep
    ensures FrepCount(s) == FrepCount(t)
  {
    if s != [] {
      StripCount(s[1..], t[1..]);
    }
  }

  /** The condition does not depend on labels. */
  lemma {:induction false} TimelyTagged(places: seq<nat>, stream: seq<Insn>, evs: seq<Event>, at: nat, m: nat,
                                        o: nat, c: nat)
    ensures Timely(places, TagSeq(stream, 0), TagEvents(evs, at), m, o, c) == Timely(places, stream, evs, m, o, c)
    decreases |evs|
  {
    if evs != [] {
      TagEventsFront(evs, at);
      hide TagSeq, FrepCount;
      match evs[0] {
        case Offload(_) =>
          TimelyTagged(places, stream, evs[1..], at + 1, m, o + 1, c);
        case Configure(_) =>
          TimelyTagged(places, stream, evs[1..], at, m, o, c + 1);
        case Issued =>
          if m < |places| && places[m] < |stream| {
            TagPrefix(stream, places[m]);
          }
          TimelyTagged(places, stream, evs[1..], at, m + 1, o, c);
      }
    }
  }

  lemma {:induction false} TagPrefix(stream: seq<Insn>, k: nat)
    requires k <= |stream|
    ensures FrepCount(TagSeq(stream, 0)[..k]) == FrepCount(stream[..k])
  {
    StripCount(TagSeq(stream, 0)[..k], stream[..k]);
  }

  lemma {:induction false} RunLabels(evs: seq<Event>)
    ensures Run(INIT, TagEvents(evs, 0)).Some? == Run(INIT, evs).Some?
  {
    assert StripCfgs([]) == [] && StripInsns([]) == [];
    assert Strip(INIT) == INIT;
    TagEventsSame(evs, 0, false);
    StripRun(INIT, evs);
    StripRun(INIT, TagEvents(evs, 0));
  }

  lemma {:induction false} TagPart(a: seq<Insn>, s: seq<Insn>)
    requires a <= s
    ensures TagSeq(a, 0) <= TagSeq(s, 0)
  {
  }

  lemma {:induction false} SplitAt<T>(a: seq<T>, s: seq<T>)
    requires a <= s
    ensures a + s[|a|..] == s && s[0..] == s
  {
  }

  /**
   Whatever the program and the interleaving, the run raises no exception exactly
   when every issue is timely: the instruction at its place in the stream has been
   offloaded and the FREPs in front of that place have been decoded.
   */
  lemma {:induction false} RunsExactly(prog: Program, evs: seq<Event>)
    requires ValidProgram(prog) && Disciplined(evs, false)
    requires Offloads(evs) <= Stream(prog) && Configured(evs) <= Freps(prog)
    ensures Run(INIT, evs).Some? <==> Timely(Places(prog), Stream(prog), evs, 0, 0, 0)
  {
    var tp, te := Tag(prog, 0), TagEvents(evs, 0);
    RunLabels(evs);
    TagEventsSame(evs, 0, false);
    TagValid(prog, 0);
    TagStream(prog, 0);
    TimelyTagged(Places(prog), Stream(prog), evs, 0, 0, 0, 0);
    TagPart(Offloads(evs), Stream(prog));
    hide Run, Timely, Stream, Freps, Issues, Tag, TagEvents, Disciplined, TagSeq, ValidProgram;
    RunsPositioned(tp, te, Places(prog));
  }

  lemma {:induction false} AtStart(tp: Program, i: nat)
    requires ValidProgram(tp)
    ensures var w := Where(None, tp);
            && Sim(INIT, w, [], Stream(tp), Freps(tp), false) && Left(w) == Trace(tp)[0..]
            && Within(w, Stream(tp)) && InnerQueued(w, i) && FrepCount(Stream(tp)) == |Freps(tp)|
  {
    StreamFreps(tp);
    SimInit(tp);
    SplitAt([], Trace(tp));
    hide Sim, Left, Stream, Freps, Trace, FrepCount;
    assert Behind(Where(None, tp)) == Stream(tp);
  }

  lemma {:induction false} RunsPositioned(tp: Program, evs: seq<Event>, places: seq<nat>)
    requires ValidProgram(tp) && Positioned(Stream(tp)) && Disciplined(evs, false)
    requires Offloads(evs) <= Stream(tp) && Configured(evs) <= Freps(tp)
    requires |places| == |Issues(tp)| && forall k | 0 <= k < |places| :: places[k] == Issues(tp)[k].sec
    ensures Run(INIT, evs).Some? <==> Timely(places, Stream(tp), evs, 0, 0, 0)
  {
    hide *;
    NamesTrace(tp);
    AtStart(tp, |Stream(tp)|);
    var i, f := Stream(tp)[|Offloads(evs)|..], Freps(tp)[|Configured(evs)|..];
    SplitAt(Offloads(evs), Stream(tp));
    SplitAt(Configured(evs), Freps(tp));
    RunsFrom(INIT, Where(None, tp), [], Stream(tp), Trace(tp), places, evs, i, f, false, 0);
  }

  // ----- what a timely run does

  /** What is shown so far, loop status included, is the beginning of what the program's trace shows. */
  lemma {:induction false} RunIssuesInOrder(prog: Program, evs: seq<Event>)
    requires ValidProgram(prog) && Disciplined(evs, false)
    requires Offloads(evs) <= Stream(prog) && Configured(evs) <= Freps(prog)
    requires Timely(Places(prog), Stream(prog), evs, 0, 0, 0)
    ensures Run(INIT, evs).Some? && Run(INIT, evs).value.1 <= Trace(prog)
  {
    RunsExactly(prog, evs);
    hide *;
    var i, f := Stream(prog)[|Offloads(evs)|..], Freps(prog)[|Configured(evs)|..];
    SplitAt(Offloads(evs), Stream(prog));
    SplitAt(Configured(evs), Freps(prog));
    IssuesInOrder(prog, evs, i, f);
  }

  /**
   Once the whole program is offloaded and decoded: the emulator can go on until
   every instruction is issued, it is then back in its initial state, and
   `terminate` warns exactly when something was not issued.
   */
  lemma {:induction false} RunDrains(prog: Program, evs: seq<Event>)
    requires ValidProgram(prog) && Disciplined(evs, false)
    requires Offloads(evs) == Stream(prog) && Configured(evs) == Freps(prog)
    requires Timely(Places(prog), Stream(prog), evs, 0, 0, 0)
    ensures Run(INIT, evs).Some?
    ensures var (s, out) := Run(INIT, evs).value;
            && out <= Trace(prog)
            && (Emulate(s).Some? <==> |out| < |Trace(prog)|)
            && (Terminate(s) <==> |out| < |Trace(prog)|)
            && (s == INIT <==> |out| == |Trace(prog)|)
  {
    RunsExactly(prog, evs);
    hide *;
    Drains(prog, evs);
  }

  /**
   A run that issues everything shows the program's meaning, every nest unrolled,
   exactly when the program is faithful: every loop that iterates has an
   instruction in front of its inner loop, unless no loop inside it iterates.
   */
  lemma {:induction false} ShowsMeaningExactly(prog: Program, evs: seq<Event>)
    requires ValidProgram(prog) && Disciplined(evs, false)
    requires Offloads(evs) == Stream(prog) && Configured(evs) == Freps(prog)
    requires Timely(Places(prog), Stream(prog), evs, 0, 0, 0)
    ensures Run(INIT, evs).Some?
    ensures var (s, out) := Run(INIT, evs).value;
            !Terminate(s) ==> (Names(out) == Named(Meaning(prog)) <==> FaithfulProgram(prog))
  {
    hide *;
    RunDrains(prog, evs);
    var (s, out) := Run(INIT, evs).value;
    NamesTrace(prog);
    IssuesShorter(prog);
    if !Terminate(s) {
      WholePrefix(out, Trace(prog));
      assert |Names(out)| == |out| && |Named(Meaning(prog))| == |Meaning(prog)|;
      if FaithfulProgram(prog) {
        IssuesMeaning(prog);
      }
    }
  }

  lemma {:induction false} WholePrefix<T>(a: seq<T>, s: seq<T>)
    requires a <= s
    ensures |a| < |s| || a == s
  {
  }

  /**
   It shows every instruction with the FREP of the innermost loop around it, that
   loop's iteration and the instruction's offset in the loop's body, exactly when
   every loop that iterates and has an inner loop has an instruction in front of it.
   */
  lemma {:induction false} ShowsStatusExactly(prog: Program, evs: seq<Event>)
    requires ValidProgram(prog) && Disciplined(evs, false)
    requires Offloads(evs) == Stream(prog) && Configured(evs) == Freps(prog)
    requires Timely(Places(prog), Stream(prog), evs, 0, 0, 0)
    ensures Run(INIT, evs).Some?
    ensures var (s, out) := Run(INIT, evs).value;
            !Terminate(s) ==> (out == Annotated(prog) <==> SeparateProgram(prog))
  {
    hide *;
    RunDrains(prog, evs);
    var (s, out) := Run(INIT, evs).value;
    WholePrefix(out, Trace(prog));
    TraceIsAnnotated(prog);
  }

  /**
   The smallest program whose trace is wrong: a loop of two iterations that is nothing but a loop of
   two iterations.
   */
  function Immediate(f: Insn, x: Insn): Nest {
    [Level(f, 1, [], []), Level(f, 1, [x], [])]
  }

  /** The trace tool's events for it: both FREPs, the instruction, and all the issues there are. */
  function ImmediateEvents(f: Insn, x: Insn): seq<Event> {
    [Offload(f), Configure(Frep(1, 0)), Offload(f), Configure(Frep(1, 0)), Offload(x), Issued, Issued, Issued]
  }

  function ImmediateCfg(f: Insn, iter: nat): LoopCfg {
    LoopCfg(f.pc, iter, 0, 0, Some(Frep(1, 0)))
  }

  /** The emulator between the issues. */
  function ImmediateState(f: Insn, x: Insn, a: Idx, outer: nat, inner: nat): State {
    State(a, [ImmediateCfg(f, outer), ImmediateCfg(f, inner)], 2, [x], 0)
  }

  ghost predicate Called(i: Issue, x: Insn) {
    i.pc == x.pc && i.sec == x.sec
  }

  lemma {:induction false} ImmediateEnters(f: Insn, x: Insn)
    requires f.isFrep && !x.isFrep
    ensures EnterLoops(State(-1, [ImmediateCfg(f, 0), ImmediateCfg(f, 0)], 0, [f, f, x], 0))
            == Some(ImmediateState(f, x, 1, 0, 0))
  {
    var c := ImmediateCfg(f, 0);
    var s := State(-1, [c, c], 0, [f, f, x], 0);
    var s1 := State(0, [c, c], 1, [f, x], 0);
    assert Remove([f, f, x], 0) == [f, x] && Remove([f, x], 0) == [x];
    assert [c, c][0 := c] == [c, c] && [c, c][1 := c] == [c, c];
    assert EnterLoops(s1) == EnterLoops(ImmediateState(f, x, 1, 0, 0));
    assert EnterLoops(s) == EnterLoops(s1);
  }

  lemma {:induction false} ImmediateSecond(f: Insn, x: Insn)
    requires !x.isFrep
    ensures var e := Emulate(ImmediateState(f, x, 1, 0, 1));
            e.Some? && e.value.0 == ImmediateState(f, x, 0, 1, 0) && Called(e.value.1, x)
  {
    var c := ImmediateCfg(f, 0);
    assert [c, ImmediateCfg(f, 1)][1 := ResetCfg(ImmediateCfg(f, 1))] == [c, c];
    assert Unwind([c, c], 0) == Some(([c, c], 0));
    assert [c, c][0 := BumpIter(c)] == [ImmediateCfg(f, 1), c];
  }

  lemma {:induction false} ImmediateThird(f: Insn, x: Insn)
    requires !x.isFrep
    ensures var e := Emulate(ImmediateState(f, x, 0, 1, 0));
            e.Some? && e.value.0 == INIT && Called(e.value.1, x)
  {
    var c := ImmediateCfg(f, 0);
    var s := ImmediateState(f, x, 0, 1, 0);
    assert s.cfgs[0 := ResetCfg(s.cfgs[0])] == [c, c];
    assert Unwind([c, c], -1) == Some(([c, c], -1));
    assert Drop([c, c], 2) == [] && Drop([x], 1) == [];
  }

  lemma {:induction false} ImmediateIssues(f: Insn, x: Insn)
    requires f.isFrep && !x.isFrep
    ensures var s := State(-1, [ImmediateCfg(f, 0), ImmediateCfg(f, 0)], 0, [f, f, x], 0);
            && Emulate(s).Some? && Emulate(s).value.0 == ImmediateState(f, x, 1, 0, 1)
            && Called(Emulate(s).value.1, x)
  {
    ImmediateEnters(f, x);
    hide EnterLoops;
    assert NextIteration(ImmediateState(f, x, 1, 0, 0)).cfgs == [ImmediateCfg(f, 0), ImmediateCfg(f, 1)];
  }

  lemma {:induction false} RunIssued(s: State, evs: seq<Event>)
    requires Emulate(s).Some? && Run(Emulate(s).value.0, evs).Some?
    ensures var (t, out) := Run(Emulate(s).value.0, evs).value;
            Run(s, [Issued] + evs) == Some((t, [Emulate(s).value.1] + out))
  {
    assert ([Issued] + evs)[1..] == evs;
  }

  lemma {:induction false} RunOffload(s: State, x: Insn, evs: seq<Event>)
    ensures Run(s, [Offload(x)] + evs) == Run(Push(s, x), evs)
  {
    assert ([Offload(x)] + evs)[1..] == evs;
  }

  lemma {:induction false} RunConfigure(s: State, f: Frep, evs: seq<Event>)
    requires s.cfgs != []
    ensures Run(s, [Configure(f)] + evs) == Run(Decode(s, f).value, evs)
  {
    assert ([Configure(f)] + evs)[1..] == evs;
  }

  /** A FREP is offloaded and decoded in front of everything. */
  lemma {:induction false} LoadFrep(c: seq<LoopCfg>, q: seq<Insn>, f: Insn, evs: seq<Event>)
    requires f.isFrep
    ensures Run(State(-1, c, 0, q, 0), [Offload(f)] + ([Configure(Frep(1, 0))] + evs))
            == Run(State(-1, c + [ImmediateCfg(f, 0)], 0, q + [f], 0), evs)
  {
    hide Run;
    var s := State(-1, c + [FreshCfg(f.pc)], 0, q + [f], 0);
    RunOffload(State(-1, c, 0, q, 0), f, [Configure(Frep(1, 0))] + evs);
    RunConfigure(s, Frep(1, 0), evs);
    assert (c + [FreshCfg(f.pc)])[|c| := ImmediateCfg(f, 0)] == c + [ImmediateCfg(f, 0)];
  }

  lemma {:induction false} ImmediateLoads(f: Insn, x: Insn, evs: seq<Event>)
    requires f.isFrep && !x.isFrep
    ensures var c := ImmediateCfg(f, 0);
            Run(INIT, [Offload(f)]
                + ([Configure(Frep(1, 0))] + ([Offload(f)] + ([Configure(Frep(1, 0))] + ([Offload(x)] + evs)))))
            == Run(State(-1, [c, c], 0, [f, f, x], 0), evs)
  {
    hide Run;
    var c, e5 := ImmediateCfg(f, 0), [Offload(x)] + evs;
    LoadFrep([], [], f, [Offload(f)] + ([Configure(Frep(1, 0))] + e5));
    assert [] + [c] == [c] && [] + [f] == [f];
    LoadFrep([c], [f], f, e5);
    assert [c] + [c] == [c, c] && [f] + [f] == [f, f] && [f, f] + [x] == [f, f, x];
    RunOffload(State(-1, [c, c], 0, [f, f], 0), x, evs);
  }

  lemma {:induction false} ImmediateQueue(f: Insn, x: Insn)
    ensures Queue(Immediate(f, x), 0) == [f, f, x] && NestFreps(Immediate(f, x)) == [Frep(1, 0), Frep(1, 0)]
  {
    var n := Immediate(f, x);
    var m := [Level(f, 1, [x], [])];
    assert n[1..] == m && m[1..] == [];
    assert Queue(m, 0) == [f, x];
    assert Body(m) == [x] && Body(n) == [x];
    assert NestFreps(m) == [Frep(1, 0)];
  }

  lemma {:induction false} OneNest(n: Nest)
    ensures Stream([Loops(n)]) == Queue(n, 0) && Freps([Loops(n)]) == NestFreps(n) && Meaning([Loops(n)]) == Unroll(n)
  {
    var prog := [Loops(n)];
    assert prog[1..] == [];
    assert Queue(n, 0) + [] == Queue(n, 0) && NestFreps(n) + [] == NestFreps(n) && Unroll(n) + [] == Unroll(n);
  }

  lemma {:induction false} ImmediateProgram(f: Insn, x: Insn)
    requires f.isFrep && !x.isFrep
    ensures var prog := [Loops(Immediate(f, x))];
            && ValidProgram(prog) && Stream(prog) == [f, f, x] && Freps(prog) == [Frep(1, 0), Frep(1, 0)]
            && Meaning(prog) == [x, x, x, x]
  {
    ImmediateInnerLoopFails(f, x);
    ImmediateQueue(f, x);
    OneNest(Immediate(f, x));
    hide Stream, Freps, Meaning, Queue, NestFreps, Unroll, ValidNest;
  }

  lemma {:induction false} FrontEvent(e: Event, evs: seq<Event>)
    ensures Offloads([e] + evs) == (if e.Offload? then [e.insn] else []) + Offloads(evs)
    ensures Configured([e] + evs) == (if e.Configure? then [e.frep] else []) + Configured(evs)
  {
    assert ([e] + evs)[1..] == evs;
  }

  lemma {:induction false} NoEvents()
    ensures Offloads([]) == [] && Configured([]) == []
    ensures Offloads([Issued, Issued, Issued]) == [] && Configured([Issued, Issued, Issued]) == []
  {
    assert Offloads([]) == [] && Configured([]) == [];
    hide Offloads, Configured;
    assert [Issued] + [] == [Issued] && [Issued] + [Issued] == [Issued, Issued];
    assert [Issued] + [Issued, Issued] == [Issued, Issued, Issued];
    FrontEvent(Issued, []);
    FrontEvent(Issued, [Issued]);
    FrontEvent(Issued, [Issued, Issued]);
  }

  lemma {:induction false} ImmediateEventsAre(f: Insn, x: Insn)
    ensures Offloads(ImmediateEvents(f, x)) == [f, f, x]
    ensures Configured(ImmediateEvents(f, x)) == [Frep(1, 0), Frep(1, 0)]
  {
    hide Offloads, Configured;
    NoEvents();
    var e6 := [Issued, Issued, Issued];
    EventsSplit(f, x, e6);
    hide ImmediateEvents;
    var e5 := [Offload(x)] + e6;
    var e4 := [Configure(Frep(1, 0))] + e5;
    var e3 := [Offload(f)] + e4;
    var e2 := [Configure(Frep(1, 0))] + e3;
    FrontEvent(Offload(x), e6);
    FrontEvent(Configure(Frep(1, 0)), e5);
    FrontEvent(Offload(f), e4);
    FrontEvent(Configure(Frep(1, 0)), e3);
    FrontEvent(Offload(f), e2);
  }

  lemma {:induction false} ThreeIssues(f: Insn, x: Insn)
    requires f.isFrep && !x.isFrep
    ensures var c := ImmediateCfg(f, 0);
            var r := Run(State(-1, [c, c], 0, [f, f, x], 0), [Issued, Issued, Issued]);
            r.Some? && r.value.0 == INIT && Names(r.value.1) == Named([x, x, x])
  {
    ImmediateIssues(f, x);
    ImmediateSecond(f, x);
    ImmediateThird(f, x);
    var c := ImmediateCfg(f, 0);
    assert Run(INIT, []) == Some((INIT, []));
    hide Run, Emulate;
    assert [Issued] + [] == [Issued] && [Issued] + [Issued] == [Issued, Issued];
    assert [Issued] + [Issued, Issued] == [Issued, Issued, Issued];
    RunIssued(ImmediateState(f, x, 0, 1, 0), []);
    RunIssued(ImmediateState(f, x, 1, 0, 1), [Issued]);
    RunIssued(State(-1, [c, c], 0, [f, f, x], 0), [Issued, Issued]);
  }

  /** It drains after three issues, while the loops execute the instruction four times. */
  lemma {:induction false} ImmediateRunFails(f: Insn, x: Insn)
    requires f.isFrep && !x.isFrep
    ensures var prog, evs := [Loops(Immediate(f, x))], ImmediateEvents(f, x);
            && ValidProgram(prog) && Offloads(evs) == Stream(prog) && Configured(evs) == Freps(prog)
            && Meaning(prog) == [x, x, x, x]
            && Run(INIT, evs).Some? && Run(INIT, evs).value.0 == INIT
            && Names(Run(INIT, evs).value.1) == Named([x, x, x])
  {
    ImmediateProgram(f, x);
    ImmediateEventsAre(f, x);
    ThreeIssues(f, x);
    hide *;
    var tail := [Issued, Issued, Issued];
    ImmediateLoads(f, x, tail);
    EventsSplit(f, x, tail);
  }

  lemma {:induction false} EventsSplit(f: Insn, x: Insn, tail: seq<Event>)
    requires tail == [Issued, Issued, Issued]
    ensures [Offload(f)]
            + ([Configure(Frep(1, 0))] + ([Offload(f)] + ([Configure(Frep(1, 0))] + ([Offload(x)] + tail))))
            == ImmediateEvents(f, x)
  {
  }

  // ----- the loop status of small programs

  /** Instruction `x` in iteration `iter` of the loop of `f`, at offset `inst` of its body. */
  function InLoop(x: Insn, f: Insn, iter: nat, inst: nat): Issue {
    Issue(x.pc, x.sec, Some(Status(f.pc, iterIdx := iter, instIdx := inst)))
  }

  lemma {:induction false} OneTrace(n: Nest)
    ensures Trace([Loops(n)]) == Traced(n) && Annotated([Loops(n)]) == Unrolled(n)
  {
    var prog := [Loops(n)];
    assert prog[1..] == [];
    assert Traced(n) + [] == Traced(n) && Unrolled(n) + [] == Unrolled(n);
  }

  /** Two iterations of a loop of two instructions. */
  lemma {:induction false} TwoByTwo(f: Insn, x: Insn, y: Insn)
    requires f.isFrep && !x.isFrep && !y.isFrep
    ensures var prog := [Loops([Level(f, 1, [x, y], [])])];
            && ValidProgram(prog) && SeparateProgram(prog)
            && Trace(prog) == [InLoop(x, f, 0, 0), InLoop(y, f, 0, 1), InLoop(x, f, 1, 0), InLoop(y, f, 1, 1)]
  {
    var n := [Level(f, 1, [x, y], [])];
    OneTrace(n);
    assert n[1..] == [];
    assert Around(n[0], 0, 0, []) == [InLoop(x, f, 0, 0), InLoop(y, f, 0, 1)];
    assert Around(n[0], 0, 1, []) == [InLoop(x, f, 1, 0), InLoop(y, f, 1, 1)];
    assert Laps(n, 1) == Lap(n, 1) + Laps(n, 2) && Laps(n, 2) == [];
  }

  /**
   A loop of two iterations that is nothing but a loop of one: the instruction is
   issued as often as it should be, but the second time as one of the outer loop.
   */
  lemma {:induction false} InnerLoopHidden(f: Insn, g: Insn, x: Insn)
    requires f.isFrep && g.isFrep && !x.isFrep
    ensures var prog := [Loops([Level(f, 1, [], []), Level(g, 0, [x], [])])];
            && ValidProgram(prog) && FaithfulProgram(prog) && !SeparateProgram(prog)
            && Annotated(prog) == [InLoop(x, g, 0, 0), InLoop(x, g, 0, 0)]
            && Trace(prog) == [InLoop(x, g, 0, 0), InLoop(x, f, 1, 0)]
  {
    var n, m := [Level(f, 1, [], []), Level(g, 0, [x], [])], [Level(g, 0, [x], [])];
    OneTrace(n);
    assert n[1..] == m && m[1..] == [] && n[2..] == [];
    assert Body(m) == [x] && Body(n) == [x];
    HiddenInner(g, x);
    assert Around(n[0], 1, 0, Traced(m)) == Around(n[0], 1, 1, Unrolled(m)) == [InLoop(x, g, 0, 0)];
    assert Around(n[0], 1, 0, Unrolled(m)) == [InLoop(x, g, 0, 0)];
    assert Laps(n, 1) == Lap(n, 1) + Laps(n, 2) && Laps(n, 2) == [];
    assert Lap(n, 1) == [InLoop(x, f, 1, 0)];
    assert Rounds(n, 0) == Around(n[0], 1, 0, Unrolled(m)) + Rounds(n, 1);
    assert Rounds(n, 1) == Around(n[0], 1, 1, Unrolled(m)) + Rounds(n, 2) && Rounds(n, 2) == [];
    assert FaithfulProgram([Loops(n)]);
    assert !Separate(n) by {
      assert n[0].pre == [] && n[0].maxIter == 1;
    }
    assert [Loops(n)][0].nest == n;
  }

  lemma {:induction false} HiddenInner(g: Insn, x: Insn)
    ensures var m := [Level(g, 0, [x], [])]; Traced(m) == Unrolled(m) == [InLoop(x, g, 0, 0)]
  {
    var m := [Level(g, 0, [x], [])];
    FirstRound(m);
    assert m[1..] == [] && Laps(m, 1) == [] && Rounds(m, 1) == [];
    assert Around(m[0], 0, 0, []) == [InLoop(x, g, 0, 0)];
    assert Traced([]) == [] && Unrolled([]) == [] && Body([]) == [];
  }
}
