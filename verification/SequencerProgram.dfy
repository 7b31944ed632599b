/**
 The offloaded stream: a program of plain instructions and chain-shaped FREP
 nests, what the emulator issues for it, and its state once all of it is queued.
 */
module SequencerProgram {
  import opened Wrappers
  import opened SequencerModel
  import opened SequencerNest
  import opened SequencerGeometry
  import opened SequencerReplay
  import opened SequencerTrace
  import opened SequencerUnrolling
  import opened SequencerStep

  datatype Item = Single(insn: Insn) | Loops(nest: Nest)

  type Program = seq<Item>

  ghost predicate ValidProgram(prog: Program) {
    forall i | 0 <= i < |prog| ::
      match prog[i]
      case Single(insn) => !insn.isFrep
      case Loops(nest) => ValidNest(nest)
  }

  /** The instructions the core offloads, FREPs included. */
  function Stream(prog: Program): seq<Insn> {
    if prog == [] then []
    else (match prog[0] case Single(insn) => [insn] case Loops(nest) => Queue(nest, 0)) + Stream(prog[1..])
  }

  /** The configurations the hardware decodes, one for each FREP of a nest. */
  function NestFreps(n: Nest): seq<Frep> {
    if n == [] then []
    else [Frep(n[0].maxIter, if |Body(n)| > 0 then |Body(n)| - 1 else 0)] + NestFreps(n[1..])
  }

  function Freps(prog: Program): seq<Frep> {
    if prog == [] then []
    else (match prog[0] case Single(_) => [] case Loops(nest) => NestFreps(nest)) + Freps(prog[1..])
  }

  /** What the emulator issues for a program. */
  function Issues(prog: Program): seq<Insn> {
    if prog == [] then []
    else (match prog[0] case Single(insn) => [insn] case Loops(nest) => Replay(nest)) + Issues(prog[1..])
  }

  /** What a program means: every nest unrolled. */
  function Meaning(prog: Program): seq<Insn> {
    if prog == [] then []
    else (match prog[0] case Single(insn) => [insn] case Loops(nest) => Unroll(nest)) + Meaning(prog[1..])
  }

  /** What the emulator shows for a program: loop status included, none for single instructions. */
  function Trace(prog: Program): seq<Issue> {
    if prog == [] then []
    else (match prog[0] case Single(x) => [Issue(x.pc, x.sec, None)] case Loops(n) => Traced(n)) + Trace(prog[1..])
  }

  /** What a program means, every instruction with the loop, iteration and offset it belongs to. */
  function Annotated(prog: Program): seq<Issue> {
    if prog == [] then []
    else
      (match prog[0] case Single(x) => [Issue(x.pc, x.sec, None)] case Loops(n) => Unrolled(n)) + Annotated(prog[1..])
  }

  ghost predicate SeparateProgram(prog: Program) {
    forall i | 0 <= i < |prog| :: prog[i].Loops? ==> Separate(prog[i].nest)
  }

  lemma {:induction false} NamesTrace(prog: Program)
    ensures Names(Trace(prog)) == Named(Issues(prog))
    ensures |Trace(prog)| == |Issues(prog)|
    ensures forall k | 0 <= k < |Trace(prog)| ::
              Trace(prog)[k].pc == Issues(prog)[k].pc && Trace(prog)[k].sec == Issues(prog)[k].sec
  {
    if prog != [] {
      NamesTrace(prog[1..]);
      match prog[0] {
        case Single(x) =>
          assert Names([Issue(x.pc, x.sec, None)]) == Named([x]);
          NamesBoth([Issue(x.pc, x.sec, None)], Trace(prog[1..]), [x], Issues(prog[1..]));
        case Loops(n) =>
          NamesTraced(n);
          NamesBoth(Traced(n), Trace(prog[1..]), Replay(n), Issues(prog[1..]));
      }
    }
    hide Trace, Issues;
    SameNames(Trace(prog), Issues(prog));
  }

  lemma {:induction false} SameNames(x: seq<Issue>, s: seq<Insn>)
    requires Names(x) == Named(s)
    ensures |x| == |s| && forall k | 0 <= k < |x| :: x[k].pc == s[k].pc && x[k].sec == s[k].sec
  {
    assert |x| == |Names(x)| == |Named(s)| == |s|;
    forall k | 0 <= k < |x| ensures x[k].pc == s[k].pc && x[k].sec == s[k].sec {
      assert Names(x)[k] == Named(s)[k];
    }
  }

  ghost predicate FaithfulProgram(prog: Program) {
    forall i | 0 <= i < |prog| :: prog[i].Loops? ==> Faithful(prog[i].nest)
  }

  lemma {:induction false} IssuesMeaning(prog: Program)
    requires FaithfulProgram(prog)
    ensures Issues(prog) == Meaning(prog)
  {
    if prog != [] {
      if prog[0].Loops? {
        FaithfulReplays(prog[0].nest);
      }
      IssuesMeaning(prog[1..]);
    }
  }

  lemma {:induction false} FaithfulFront(prog: Program)
    requires prog != [] && FaithfulProgram(prog[1..]) && (prog[0].Loops? ==> Faithful(prog[0].nest))
    ensures FaithfulProgram(prog)
  {
    hide Faithful;
    forall i | 0 <= i < |prog| && prog[i].Loops? ensures Faithful(prog[i].nest) {
      if i > 0 {
        assert prog[1..][i - 1] == prog[i];
      }
    }
  }

  lemma {:induction false} IssuesShorter(prog: Program)
    requires ValidProgram(prog)
    ensures |Issues(prog)| <= |Meaning(prog)|
    ensures |Issues(prog)| == |Meaning(prog)| ==> FaithfulProgram(prog)
  {
    if prog != [] {
      IssuesShorter(prog[1..]);
      if prog[0].Loops? {
        ReplayLength(prog[0].nest);
      }
      hide FaithfulProgram, Replay, Unroll, Faithful, ValidNest;
      if |Issues(prog)| == |Meaning(prog)| {
        FaithfulFront(prog);
      }
    }
  }

  lemma {:induction false} NamesAnnotated(prog: Program)
    ensures |Annotated(prog)| == |Meaning(prog)|
  {
    if prog != [] {
      NamesAnnotated(prog[1..]);
      if prog[0].Loops? {
        var n := prog[0].nest;
        NamesUnrolled(n);
        assert |Names(Unrolled(n))| == |Named(Unroll(n))|;
      }
    }
  }

  lemma {:induction false} SeparateFrontItem(prog: Program)
    requires prog != [] && SeparateProgram(prog[1..]) && (prog[0].Loops? ==> Separate(prog[0].nest))
    ensures SeparateProgram(prog)
  {
    hide Separate;
    forall i | 0 <= i < |prog| && prog[i].Loops? ensures Separate(prog[i].nest) {
      if i > 0 {
        assert prog[1..][i - 1] == prog[i];
      }
    }
  }

  lemma {:induction false} FaithfulLength(n: Nest)
    requires Faithful(n)
    ensures |Traced(n)| == |Unrolled(n)|
  {
    FaithfulReplays(n);
    NamesTraced(n);
    NamesUnrolled(n);
    assert |Names(Traced(n))| == |Names(Unrolled(n))|;
  }

  lemma {:induction false} ShownSeparately(prog: Program)
    requires ValidProgram(prog) && FaithfulProgram(prog) && Trace(prog) == Annotated(prog)
    ensures SeparateProgram(prog)
  {
    if prog != [] {
      hide Separate, Faithful, ValidNest, Traced, Unrolled;
      match prog[0] {
        case Single(x) =>
          SameParts([Issue(x.pc, x.sec, None)], Trace(prog[1..]), [Issue(x.pc, x.sec, None)], Annotated(prog[1..]));
        case Loops(n) =>
          FaithfulLength(n);
          SameParts(Traced(n), Trace(prog[1..]), Unrolled(n), Annotated(prog[1..]));
          TracedIsUnrolled(n);
      }
      ShownSeparately(prog[1..]);
      SeparateFrontItem(prog);
    }
  }

  lemma {:induction false} SeparatelyShown(prog: Program)
    requires ValidProgram(prog) && SeparateProgram(prog)
    ensures Trace(prog) == Annotated(prog)
  {
    if prog != [] {
      if prog[0].Loops? {
        TracedIsUnrolled(prog[0].nest);
      }
      SeparatelyShown(prog[1..]);
    }
  }

  /** The emulator shows a program as its annotated meaning exactly when all its nests are separate. */
  lemma {:induction false} TraceIsAnnotated(prog: Program)
    requires ValidProgram(prog)
    ensures Trace(prog) == Annotated(prog) <==> SeparateProgram(prog)
  {
    hide *;
    if SeparateProgram(prog) {
      SeparatelyShown(prog);
    }
    if Trace(prog) == Annotated(prog) {
      NamesTrace(prog);
      NamesAnnotated(prog);
      IssuesShorter(prog);
      ShownSeparately(prog);
    }
  }

  function FrepCount(q: seq<Insn>): nat {
    if q == [] then 0 else (if q[0].isFrep then 1 else 0) + FrepCount(q[1..])
  }

  /** The decoded configurations of the FREPs in a stream, none of them entered yet. */
  function Untouched(q: seq<Insn>, f: seq<Frep>): (t: seq<LoopCfg>)
    requires FrepCount(q) == |f|
    ensures |t| == |f|
    ensures forall i | 0 <= i < |t| :: t[i].basePtr == 0 && t[i].frep == Some(f[i])
  {
    if q == [] then []
    else if q[0].isFrep then [LoopCfg(q[0].pc, 0, 0, 0, Some(f[0]))] + Untouched(q[1..], f[1..])
    else Untouched(q[1..], f)
  }

  lemma {:induction false} FrepCountConcat(a: seq<Insn>, b: seq<Insn>)
    ensures FrepCount(a + b) == FrepCount(a) + FrepCount(b)
  {
    if a == [] {
      assert a + b == b;
    } else {
      assert (a + b)[1..] == a[1..] + b;
      FrepCountConcat(a[1..], b);
    }
  }

  lemma {:induction false} UntouchedConcat(a: seq<Insn>, b: seq<Insn>, f: seq<Frep>, g: seq<Frep>)
    requires FrepCount(a) == |f| && FrepCount(b) == |g|
    ensures FrepCount(a + b) == |f + g| && Untouched(a + b, f + g) == Untouched(a, f) + Untouched(b, g)
  {
    FrepCountConcat(a, b);
    if a == [] {
      assert a + b == b && f + g == g;
    } else {
      assert (a + b)[1..] == a[1..] + b;
      if a[0].isFrep {
        assert (f + g)[1..] == f[1..] + g;
        UntouchedConcat(a[1..], b, f[1..], g);
      } else {
        UntouchedConcat(a[1..], b, f, g);
      }
    }
  }

  lemma {:induction false} UntouchedPlain(q: seq<Insn>)
    requires Plain(q)
    ensures FrepCount(q) == 0 && Untouched(q, []) == []
  {
    if q != [] {
      UntouchedPlain(q[1..]);
    }
  }

  ghost predicate ValidLevels(n: Nest) {
    forall i | 0 <= i < |n| :: n[i].frep.isFrep && Plain(n[i].pre) && Plain(n[i].post)
  }

  lemma {:induction false} QueueRest(n: Nest)
    requires n != []
    ensures Queue(n, 0) == [n[0].frep] + (n[0].pre + Queue(n[1..], 0) + n[0].post)
    ensures Queue(n, 0)[1..] == n[0].pre + Queue(n[1..], 0) + n[0].post
  {
    Prepend([n[0].frep], n[0].pre, Queue(n[1..], 0), n[0].post);
    assert [] + [n[0].frep] == [n[0].frep];
  }

  function FirstFrep(n: Nest, i: nat): Frep
    requires i < |n|
  {
    Frep(n[i].maxIter, if Size(n, i) > 0 then Size(n, i) - 1 else 0)
  }

  lemma {:induction false} UntouchedSandwich(pre: seq<Insn>, q: seq<Insn>, post: seq<Insn>, f: seq<Frep>)
    requires Plain(pre) && Plain(post) && FrepCount(q) == |f|
    ensures FrepCount(pre + q + post) == |f| && Untouched(pre + q + post, f) == Untouched(q, f)
  {
    hide Untouched, Plain;
    UntouchedPlain(pre);
    UntouchedPlain(post);
    UntouchedConcat(pre, q, [], f);
    assert [] + f == f && [] + Untouched(q, f) == Untouched(q, f);
    UntouchedConcat(pre + q, post, f, []);
    assert f + [] == f && Untouched(q, f) + [] == Untouched(q, f);
  }

  lemma {:induction false} UntouchedHead(frep: Insn, q: seq<Insn>, x: Frep, f: seq<Frep>)
    requires frep.isFrep && FrepCount(q) == |f|
    ensures FrepCount([frep] + q) == |f| + 1
    ensures Untouched([frep] + q, [x] + f) == [LoopCfg(frep.pc, 0, 0, 0, Some(x))] + Untouched(q, f)
  {
    assert ([frep] + q)[1..] == q && ([x] + f)[1..] == f;
  }

  lemma {:induction false} UntouchedFront(n: Nest)
    requires n != [] && ValidLevels(n) && FrepCount(Queue(n[1..], 0)) == |NestFreps(n[1..])|
    ensures FrepCount(Queue(n, 0)) == |NestFreps(n)| == 1 + |NestFreps(n[1..])|
    ensures Untouched(Queue(n, 0), NestFreps(n))
            == [LoopCfg(n[0].frep.pc, 0, 0, 0, Some(FirstFrep(n, 0)))] + Untouched(Queue(n[1..], 0), NestFreps(n[1..]))
  {
    QueueRest(n);
    assert n[0..] == n;
    assert NestFreps(n) == [FirstFrep(n, 0)] + NestFreps(n[1..]);
    hide Queue, Untouched, Body, Size, FrepCount, NestFreps;
    var q, f := Queue(n[1..], 0), NestFreps(n[1..]);
    UntouchedSandwich(n[0].pre, q, n[0].post, f);
    UntouchedHead(n[0].frep, n[0].pre + q + n[0].post, FirstFrep(n, 0), f);
  }

  /** The untouched configurations of a nest are its levels, outermost first. */
  lemma {:induction false} UntouchedNest(n: Nest)
    requires ValidLevels(n)
    ensures FrepCount(Queue(n, 0)) == |NestFreps(n)| == |n|
    ensures forall j | 0 <= j < |n| ::
              Untouched(Queue(n, 0), NestFreps(n))[j] == LoopCfg(n[j].frep.pc, 0, 0, 0, Some(FirstFrep(n, j)))
  {
    if n != [] {
      var m := n[1..];
      UntouchedNest(m);
      UntouchedFront(n);
      hide Queue, Untouched, Body, FrepCount, NestFreps;
      forall j | 0 < j < |n| ensures FirstFrep(n, j) == FirstFrep(m, j - 1) {
        assert n[j..] == m[j - 1..];
      }
    }
  }

  lemma {:induction false} StreamFreps(prog: Program)
    requires ValidProgram(prog)
    ensures FrepCount(Stream(prog)) == |Freps(prog)|
  {
    if prog != [] {
      StreamFreps(prog[1..]);
      match prog[0] {
        case Single(insn) =>
          FrepCountConcat([insn], Stream(prog[1..]));
          UntouchedPlain([insn]);
        case Loops(nest) =>
          FrepCountConcat(Queue(nest, 0), Stream(prog[1..]));
          UntouchedNest(nest);
      }
    }
  }

  // ----- points of a run over a program

  /** Inside the nest `cur.value.0` at point `cur.value.1`, or between two items; `rest` is still to come. */
  datatype Where = Where(cur: Option<(Nest, Pos)>, rest: Program)

  ghost predicate WhereOk(w: Where) {
    ValidProgram(w.rest) && (w.cur.Some? ==> PosOk(w.cur.value.0, w.cur.value.1))
  }

  ghost function FullState(w: Where): State
    requires WhereOk(w)
  {
    StreamFreps(w.rest);
    var lc, lq := Untouched(Stream(w.rest), Freps(w.rest)), Stream(w.rest);
    match w.cur
    case None => State(-1, lc, 0, lq, 0)
    case Some(np) => AtPos(np.0, np.1, lc, lq)
  }

  ghost function Left(w: Where): seq<Issue>
    requires WhereOk(w)
  {
    (match w.cur case None => [] case Some(np) => Rest(np.0, np.1)) + Trace(w.rest)
  }

  function Start(n: Nest): Pos {
    Pos(-1, seq(|n|, _ => 0), 0, 0)
  }

  lemma {:induction false} StartOk(n: Nest)
    requires ValidNest(n)
    ensures PosOk(n, Start(n)) && Rest(n, Start(n)) == Traced(n)
  {
  }

  lemma {:induction false} StartCfgAt(n: Nest, j: nat)
    requires ValidNest(n) && j < |n| && Framed(n, -1, Start(n).iters, 0)
    ensures CfgAt(n, -1, Start(n).iters, 0, 0, j) == LoopCfg(n[j].frep.pc, 0, 0, 0, Some(FirstFrep(n, j)))
  {
    hide Body, Framed, Size, ValidNest, Offset, Base;
  }

  lemma {:induction false} ValidNestLevels(n: Nest)
    requires ValidNest(n)
    ensures ValidLevels(n)
  {
  }

  lemma {:induction false} StartCfgs(n: Nest)
    requires ValidNest(n)
    ensures Framed(n, -1, Start(n).iters, 0)
    ensures FrepCount(Queue(n, 0)) == |NestFreps(n)|
    ensures Cfgs(n, -1, Start(n).iters, 0, 0) == Untouched(Queue(n, 0), NestFreps(n))
  {
    ValidNestLevels(n);
    UntouchedNest(n);
    assert Framed(n, -1, Start(n).iters, 0);
    hide *;
    forall j | 0 <= j < |n| {
      StartCfgAt(n, j);
    }
  }

  lemma {:induction false} StreamFront(prog: Program)
    requires ValidProgram(prog) && prog != [] && prog[0].Loops?
    ensures ValidProgram(prog[1..])
    ensures Stream(prog) == Queue(prog[0].nest, 0) + Stream(prog[1..])
    ensures Freps(prog) == NestFreps(prog[0].nest) + Freps(prog[1..])
    ensures Trace(prog) == Traced(prog[0].nest) + Trace(prog[1..])
  {
  }

  /** In front of a nest the idle state is the nest's starting point. */
  lemma {:induction false} IdleIsStart(prog: Program)
    requires ValidProgram(prog) && prog != [] && prog[0].Loops?
    ensures ValidProgram(prog[1..]) && PosOk(prog[0].nest, Start(prog[0].nest))
    ensures FullState(Where(None, prog)) == FullState(Where(Some((prog[0].nest, Start(prog[0].nest))), prog[1..]))
    ensures Left(Where(None, prog)) == Left(Where(Some((prog[0].nest, Start(prog[0].nest))), prog[1..]))
  {
    var n, rest := prog[0].nest, prog[1..];
    StreamFront(prog);
    StartOk(n);
    StreamFreps(prog);
    StreamFreps(rest);
    StartCfgs(n);
    hide Queue, Untouched, NestFreps, Rest, Body, FrepCount, Stream, Freps, Trace, ValidNest, Framed, Traced, PosOk,
        Cfgs;
    UntouchedConcat(Queue(n, 0), Stream(rest), NestFreps(n), Freps(rest));
    assert [] + Trace(prog) == Trace(prog);
  }

  /** In front of a nest, the emulator stands at the nest's start. */
  ghost function Facing(w: Where): Where {
    if w.cur.None? && w.rest != [] && w.rest[0].Loops? then
      Where(Some((w.rest[0].nest, Start(w.rest[0].nest))), w.rest[1..])
    else w
  }

  lemma {:induction false} FacingSame(w: Where)
    requires WhereOk(w)
    ensures WhereOk(Facing(w)) && FullState(Facing(w)) == FullState(w) && Left(Facing(w)) == Left(w)
  {
    if w.cur.None? && w.rest != [] && w.rest[0].Loops? {
      hide FullState, Left, PosOk;
      IdleIsStart(w.rest);
    }
  }

  /** Where the emulator stands after one more issue. */
  ghost function Onward(w: Where): Where
    requires WhereOk(w)
  {
    FacingSame(w);
    var v := Facing(w);
    match v.cur
    case None => if v.rest == [] then v else Where(None, v.rest[1..])
    case Some(np) =>
      EnterClosed(np.0, np.1, [], []);
      match Next(np.0, Entered(np.0, np.1))
      case None => Where(None, v.rest)
      case Some(q) => Where(Some((np.0, q)), v.rest)
  }

  /** One call on the loaded state issues the head of what is left and leaves the tail. */
  lemma {:induction false} StepLoaded(w: Where) returns (x: Issue)
    requires WhereOk(w) && Left(w) != []
    ensures WhereOk(Onward(w)) && Emulate(FullState(w)) == Some((FullState(Onward(w)), x))
    ensures x == Left(w)[0] && Left(Onward(w)) == Left(w)[1..]
  {
    FacingSame(w);
    var v := Facing(w);
    assert v.cur.None? ==> v.rest != [] && v.rest[0].Single?;
    hide FullState, Left, Emulate, PosOk, ValidProgram, Next, Entered;
    match v.cur {
      case None =>
        x := StepSingle(v);
      case Some(np) =>
        x := StepNest(v);
    }
  }

  lemma {:induction false} StepSingle(w: Where) returns (x: Issue)
    requires WhereOk(w) && w.cur.None? && w.rest != [] && w.rest[0].Single?
    ensures Left(w) != [] && Onward(w) == Where(None, w.rest[1..])
    ensures WhereOk(Onward(w)) && Emulate(FullState(w)) == Some((FullState(Onward(w)), x))
    ensures x == Left(w)[0] && Left(Onward(w)) == Left(w)[1..]
  {
    var insn, rest := w.rest[0].insn, w.rest[1..];
    x := Issue(insn.pc, insn.sec, None);
    StreamSingle(w.rest);
    StreamFreps(w.rest);
    StreamFreps(rest);
    hide Stream, Freps, Trace, Untouched, FrepCount, Rest, AtPos, ValidNest;
    UntouchedPlainHead(insn, Stream(rest), Freps(rest));
    IssuePlain(Untouched(Stream(rest), Freps(rest)), insn, Stream(rest));
    assert [] + Trace(w.rest) == Trace(w.rest) && [] + Trace(rest) == Trace(rest);
  }

  lemma {:induction false} StreamSingle(prog: Program)
    requires ValidProgram(prog) && prog != [] && prog[0].Single?
    ensures !prog[0].insn.isFrep && ValidProgram(prog[1..])
    ensures Stream(prog) == [prog[0].insn] + Stream(prog[1..])
    ensures Freps(prog) == Freps(prog[1..])
    ensures Trace(prog) == [Issue(prog[0].insn.pc, prog[0].insn.sec, None)] + Trace(prog[1..])
  {
    assert [] + Freps(prog[1..]) == Freps(prog[1..]);
  }

  lemma {:induction false} UntouchedPlainHead(insn: Insn, q: seq<Insn>, f: seq<Frep>)
    requires !insn.isFrep && FrepCount(q) == |f|
    ensures FrepCount([insn] + q) == |f| && Untouched([insn] + q, f) == Untouched(q, f)
  {
    assert ([insn] + q)[1..] == q;
  }

  lemma {:induction false} IssuePlain(c: seq<LoopCfg>, insn: Insn, q: seq<Insn>)
    requires !insn.isFrep
    ensures Emulate(State(-1, c, 0, [insn] + q, 0)) == Some((State(-1, c, 0, q, 0), Issue(insn.pc, insn.sec, None)))
  {
    assert Remove([insn] + q, 0) == q;
  }

  lemma {:induction false} StepNest(w: Where) returns (x: Issue)
    requires WhereOk(w) && w.cur.Some?
    ensures Left(w) != [] && WhereOk(Onward(w)) && Emulate(FullState(w)) == Some((FullState(Onward(w)), x))
    ensures x == Left(w)[0] && Left(Onward(w)) == Left(w)[1..]
  {
    hide Rest, Emulate, Untouched, Stream, Freps, Trace, Body, AtPos, Next, Pending, Base, ValidNest, FrepCount;
    var (n, p) := w.cur.value;
    StreamFreps(w.rest);
    EmulateInNest(n, p, Untouched(Stream(w.rest), Freps(w.rest)), Stream(w.rest));
    var e := Entered(n, p);
    x := IssueAt(n, e);
  }
}
