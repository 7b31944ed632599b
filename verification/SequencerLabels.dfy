/**
 The emulator never looks at program counters and sections, so sections can be
 replaced by positions: `Tag` labels every instruction of a program with its
 position in the stream, and what the tagged program issues says where in the
 stream each issue of the original program sits.
 */
module SequencerLabels {
  import opened Wrappers
  import opened SequencerModel
  import opened SequencerNest
  import opened SequencerQueue
  import opened SequencerProgram
  import opened SequencerRun

  // ----- positions

  function TagSeq(s: seq<Insn>, at: nat): (t: seq<Insn>)
    ensures |t| == |s|
  {
    seq(|s|, i requires 0 <= i < |s| => s[i].(sec := at + i))
  }

  function TagNest(n: Nest, at: nat): (t: Nest)
    ensures |t| == |n|
  {
    if n == [] then []
    else
      var inner := at + 1 + |n[0].pre|;
      [Level(n[0].frep.(sec := at), n[0].maxIter, TagSeq(n[0].pre, at + 1),
             TagSeq(n[0].post, inner + |Queue(n[1..], 0)|))]
      + TagNest(n[1..], inner)
  }

  function Tag(prog: Program, at: nat): Program {
    if prog == [] then []
    else match prog[0]
      case Single(insn) => [Single(insn.(sec := at))] + Tag(prog[1..], at + 1)
      case Loops(nest) => [Loops(TagNest(nest, at))] + Tag(prog[1..], at + |Queue(nest, 0)|)
  }

  lemma {:induction false} TagNestFront(n: Nest, at: nat)
    requires n != []
    ensures var t := TagNest(n, at);
            var inner := at + 1 + |n[0].pre|;
            && t[0].frep == n[0].frep.(sec := at) && t[0].maxIter == n[0].maxIter
            && t[0].pre == TagSeq(n[0].pre, at + 1)
            && t[0].post == TagSeq(n[0].post, inner + |Queue(n[1..], 0)|)
            && t[1..] == TagNest(n[1..], inner)
  {
  }

  lemma {:induction false} TagFour(x: Insn, a: seq<Insn>, b: seq<Insn>, c: seq<Insn>, at: nat)
    ensures TagSeq([x] + (a + b + c), at)
            == [x.(sec := at)]
               + (TagSeq(a, at + 1) + TagSeq(b, at + 1 + |a|) + TagSeq(c, at + 1 + |a| + |b|))
  {
  }

  lemma {:induction false} TagConcat(a: seq<Insn>, b: seq<Insn>, at: nat)
    ensures TagSeq(a + b, at) == TagSeq(a, at) + TagSeq(b, at + |a|)
  {
  }

  lemma {:induction false} TagQueue(n: Nest, at: nat)
    ensures Queue(TagNest(n, at), 0) == TagSeq(Queue(n, 0), at)
  {
    if n != [] {
      hide TagSeq, TagNest, Queue;
      TagNestFront(n, at);
      TagQueue(n[1..], at + 1 + |n[0].pre|);
      QueueRest(n);
      QueueRest(TagNest(n, at));
      TagFour(n[0].frep, n[0].pre, Queue(n[1..], 0), n[0].post, at);
    } else {
      assert Queue(n, 0) == [];
    }
  }

  lemma {:induction false} TagStream(prog: Program, at: nat)
    ensures Stream(Tag(prog, at)) == TagSeq(Stream(prog), at)
  {
    if prog != [] {
      var t := Tag(prog, at);
      match prog[0] {
        case Single(insn) =>
          assert t[1..] == Tag(prog[1..], at + 1);
          TagStream(prog[1..], at + 1);
          TagConcat([insn], Stream(prog[1..]), at);
          assert TagSeq([insn], at) == [insn.(sec := at)];
        case Loops(nest) =>
          assert t[1..] == Tag(prog[1..], at + |Queue(nest, 0)|);
          TagStream(prog[1..], at + |Queue(nest, 0)|);
          TagQueue(nest, at);
          TagConcat(Queue(nest, 0), Stream(prog[1..]), at);
      }
    }
  }

  lemma {:induction false} TagPlain(s: seq<Insn>, at: nat)
    requires Plain(s)
    ensures Plain(TagSeq(s, at))
  {
  }

  lemma {:induction false} TagSizes(n: Nest, at: nat)
    ensures |Body(TagNest(n, at))| == |Body(n)| && NestFreps(TagNest(n, at)) == NestFreps(n)
  {
    if n != [] {
      TagNestFront(n, at);
      TagSizes(n[1..], at + 1 + |n[0].pre|);
      hide TagNest, TagSeq;
    }
  }

  lemma {:induction false} TagLevels(n: Nest, at: nat)
    requires ValidLevels(n)
    ensures ValidLevels(TagNest(n, at))
  {
    if n != [] {
      var t, inner := TagNest(n, at), at + 1 + |n[0].pre|;
      TagNestFront(n, at);
      assert ValidLevels(n[1..]);
      TagLevels(n[1..], inner);
      hide TagNest, TagSeq, Queue, Plain;
      TagPlain(n[0].pre, at + 1);
      TagPlain(n[0].post, inner + |Queue(n[1..], 0)|);
      forall i | 0 <= i < |t| ensures t[i].frep.isFrep && Plain(t[i].pre) && Plain(t[i].post) {
        if i > 0 {
          assert t[i] == t[1..][i - 1];
        }
      }
    }
  }

  lemma {:induction false} TagInnermost(n: Nest, at: nat)
    requires n != []
    ensures |TagNest(n, at)[|n| - 1].pre| == |n[|n| - 1].pre| && |TagNest(n, at)[|n| - 1].post| == |n[|n| - 1].post|
  {
    TagNestFront(n, at);
    if |n| > 1 {
      var inner := at + 1 + |n[0].pre|;
      TagInnermost(n[1..], inner);
      assert TagNest(n, at)[|n| - 1] == TagNest(n[1..], inner)[|n| - 2];
    }
  }

  lemma {:induction false} TagNestValid(n: Nest, at: nat)
    requires ValidNest(n)
    ensures ValidNest(TagNest(n, at))
  {
    TagLevels(n, at);
    TagInnermost(n, at);
  }

  lemma {:induction false} TagFront(prog: Program, at: nat)
    requires prog != []
    ensures var t := Tag(prog, at);
            match prog[0]
            case Single(x) => t == [Single(x.(sec := at))] + Tag(prog[1..], at + 1)
            case Loops(n) => t == [Loops(TagNest(n, at))] + Tag(prog[1..], at + |Queue(n, 0)|)
  {
  }

  ghost predicate ValidItem(item: Item) {
    match item case Single(x) => !x.isFrep case Loops(n) => ValidNest(n)
  }

  lemma {:induction false} ValidFront(item: Item, rest: Program)
    ensures ValidProgram([item] + rest) <==> ValidItem(item) && ValidProgram(rest)
  {
    var prog := [item] + rest;
    if ValidProgram(prog) {
      assert prog[0] == item;
      forall i | 0 <= i < |rest| ensures rest[i] == prog[i + 1] {
      }
    }
  }

  lemma {:induction false} TagValid(prog: Program, at: nat)
    requires ValidProgram(prog)
    ensures ValidProgram(Tag(prog, at)) && Freps(Tag(prog, at)) == Freps(prog)
  {
    if prog != [] {
      var item, rest := prog[0], prog[1..];
      assert prog == [item] + rest;
      ValidFront(item, rest);
      TagFront(prog, at);
      hide ValidProgram, Tag, TagNest, ValidNest, Queue;
      match item {
        case Single(x) =>
          TagValid(rest, at + 1);
          ValidFront(Single(x.(sec := at)), Tag(rest, at + 1));
        case Loops(n) =>
          TagValid(rest, at + |Queue(n, 0)|);
          TagSizes(n, at);
          TagNestValid(n, at);
          ValidFront(Loops(TagNest(n, at)), Tag(rest, at + |Queue(n, 0)|));
      }
    }
  }

  // ----- where an issue sits in the stream

  /** `places[m]` is the position in the stream of the program's `m`-th issue. */
  function Places(prog: Program): (places: seq<nat>)
    ensures |places| == |Issues(Tag(prog, 0))|
  {
    var issues := Issues(Tag(prog, 0));
    seq(|issues|, m requires 0 <= m < |issues| => issues[m].sec)
  }

  /** The label of `y` is a position of the stream `s`, which starts at `at`, and `x` is the instruction there. */
  predicate Sits(x: Insn, y: Insn, s: seq<Insn>, at: nat) {
    at <= y.sec < at + |s| && s[y.sec - at] == x
  }

  ghost predicate Located(xs: seq<Insn>, ys: seq<Insn>, s: seq<Insn>, at: nat) {
    |xs| == |ys| && forall m | 0 <= m < |xs| :: Sits(xs[m], ys[m], s, at)
  }

  lemma {:induction false} LocatedBoth(a: seq<Insn>, b: seq<Insn>, c: seq<Insn>, d: seq<Insn>, s: seq<Insn>, at: nat)
    requires Located(a, b, s, at) && Located(c, d, s, at)
    ensures Located(a + c, b + d, s, at)
  {
    hide Sits;
  }

  lemma {:induction false} LocatedWithin(xs: seq<Insn>, ys: seq<Insn>, p: seq<Insn>, s: seq<Insn>, q: seq<Insn>,
                                         at: nat)
    requires Located(xs, ys, s, at + |p|)
    ensures Located(xs, ys, p + s + q, at)
  {
    forall m | 0 <= m < |xs| ensures Sits(xs[m], ys[m], p + s + q, at) {
      assert Sits(xs[m], ys[m], s, at + |p|);
      assert (p + s + q)[ys[m].sec - at] == s[ys[m].sec - (at + |p|)];
    }
  }

  lemma {:induction false} TagSits(s: seq<Insn>, m: nat, at: nat)
    requires m < |s|
    ensures Sits(s[m], s[m].(sec := at + m), s, at)
  {
  }

  lemma {:induction false} LocatedTag(s: seq<Insn>, at: nat)
    ensures Located(s, TagSeq(s, at), s, at)
  {
    hide Sits;
    forall m | 0 <= m < |s| ensures Sits(s[m], TagSeq(s, at)[m], s, at) {
      TagSits(s, m, at);
      assert TagSeq(s, at)[m] == s[m].(sec := at + m);
    }
  }

  lemma {:induction false} LocatedRepeat(k: nat, xs: seq<Insn>, ys: seq<Insn>, s: seq<Insn>, at: nat)
    requires Located(xs, ys, s, at)
    ensures Located(Repeat(k, xs), Repeat(k, ys), s, at)
  {
    if k > 0 {
      LocatedRepeat(k - 1, xs, ys, s, at);
      LocatedBoth(xs, ys, Repeat(k - 1, xs), Repeat(k - 1, ys), s, at);
    }
  }

  lemma {:induction false} Shift(xs: seq<Insn>, ys: seq<Insn>, p: seq<Insn>, s: seq<Insn>, q: seq<Insn>,
                                 t: seq<Insn>, at: nat, from: nat)
    requires from == at + |p| && Located(xs, ys, s, from) && t == p + s + q
    ensures Located(xs, ys, t, at)
  {
    hide Located;
    LocatedWithin(xs, ys, p, s, q, at);
  }

  lemma {:induction false} FourParts(f: Insn, p: seq<Insn>, q: seq<Insn>, o: seq<Insn>)
    ensures [f] + (p + q + o) == [f] + p + (q + o)
    ensures [f] + (p + q + o) == ([f] + p) + q + o
    ensures [f] + (p + q + o) == ([f] + p + q) + o + []
    ensures |[f] + p| == 1 + |p| && |[f] + p + q| == 1 + |p| + |q|
  {
  }

  lemma {:induction false} LocatedPre(n: Nest, at: nat)
    requires n != []
    ensures Located(n[0].pre, TagSeq(n[0].pre, at + 1), Queue(n, 0), at)
  {
    QueueRest(n);
    var f, p, q, o := n[0].frep, n[0].pre, Queue(n[1..], 0), n[0].post;
    hide *;
    FourParts(f, p, q, o);
    LocatedTag(p, at + 1);
    Shift(p, TagSeq(p, at + 1), [f], p, q + o, Queue(n, 0), at, at + 1);
  }

  lemma {:induction false} LocatedPost(n: Nest, at: nat)
    requires n != []
    ensures Located(n[0].post, TagSeq(n[0].post, at + 1 + |n[0].pre| + |Queue(n[1..], 0)|), Queue(n, 0), at)
  {
    QueueRest(n);
    var f, p, q, o := n[0].frep, n[0].pre, Queue(n[1..], 0), n[0].post;
    hide *;
    FourParts(f, p, q, o);
    var from := at + 1 + |p| + |q|;
    LocatedTag(o, from);
    Shift(o, TagSeq(o, from), [f] + p + q, o, [], Queue(n, 0), at, from);
  }

  lemma {:induction false} LocatedInner(n: Nest, at: nat, xs: seq<Insn>, ys: seq<Insn>)
    requires n != [] && Located(xs, ys, Queue(n[1..], 0), at + 1 + |n[0].pre|)
    ensures Located(xs, ys, Queue(n, 0), at)
  {
    QueueRest(n);
    var f, p, q, o := n[0].frep, n[0].pre, Queue(n[1..], 0), n[0].post;
    hide *;
    FourParts(f, p, q, o);
    Shift(xs, ys, [f] + p, q, o, Queue(n, 0), at, at + 1 + |p|);
  }

  lemma {:induction false} LocatedBody(n: Nest, at: nat)
    ensures Located(Body(n), Body(TagNest(n, at)), Queue(n, 0), at)
  {
    if n != [] {
      var t, inner := TagNest(n, at), at + 1 + |n[0].pre|;
      TagNestFront(n, at);
      LocatedBody(n[1..], inner);
      hide Queue, TagNest, TagSeq, Located;
      var q := Queue(n, 0);
      LocatedPre(n, at);
      LocatedPost(n, at);
      LocatedInner(n, at, Body(n[1..]), Body(t[1..]));
      LocatedBoth(n[0].pre, t[0].pre, Body(n[1..]), Body(t[1..]), q, at);
      LocatedBoth(n[0].pre + Body(n[1..]), t[0].pre + Body(t[1..]), n[0].post, t[0].post, q, at);
    }
  }

  lemma {:induction false} LocatedReplay(n: Nest, at: nat)
    ensures Located(Replay(n), Replay(TagNest(n, at)), Queue(n, 0), at)
    ensures n != [] ==> Located(Again(n), Again(TagNest(n, at)), Queue(n, 0), at)
  {
    if n != [] {
      var t, inner := TagNest(n, at), at + 1 + |n[0].pre|;
      TagNestFront(n, at);
      LocatedBody(n, at);
      LocatedReplay(n[1..], inner);
      hide Queue, TagNest, TagSeq, Located;
      var q := Queue(n, 0);
      var x, y := Replay(n[1..]), Replay(t[1..]);
      LocatedPre(n, at);
      LocatedPost(n, at);
      LocatedInner(n, at, x, y);
      LocatedBoth(n[0].pre, t[0].pre, x, y, q, at);
      LocatedBoth(n[0].pre + x, t[0].pre + y, n[0].post, t[0].post, q, at);
      assert |t[0].pre| == |n[0].pre| by {
        TagNestFront(n, at);
      }
      LocatedRepeat(n[0].maxIter, Again(n), Again(t), q, at);
      LocatedBoth(n[0].pre + x + n[0].post, t[0].pre + y + t[0].post,
                  Repeat(n[0].maxIter, Again(n)), Repeat(n[0].maxIter, Again(t)), q, at);
    }
  }

  lemma {:induction false} Units(head: seq<Insn>, rest: seq<Insn>)
    ensures head + rest == head + rest + [] && head + rest == [] + head + rest
  {
  }

  lemma {:induction false} LocatedFront(xs: seq<Insn>, ys: seq<Insn>, us: seq<Insn>, vs: seq<Insn>,
                                        head: seq<Insn>, rest: seq<Insn>, at: nat)
    requires Located(xs, ys, head, at) && Located(us, vs, rest, at + |head|)
    ensures Located(xs + us, ys + vs, head + rest, at)
  {
    hide Located;
    Units(head, rest);
    LocatedWithin(xs, ys, [], head, rest, at);
    LocatedWithin(us, vs, head, rest, [], at);
    LocatedBoth(xs, ys, us, vs, head + rest, at);
  }

  lemma {:induction false} IssuesFront(prog: Program)
    requires prog != []
    ensures Stream(prog) == (match prog[0] case Single(x) => [x] case Loops(n) => Queue(n, 0)) + Stream(prog[1..])
    ensures Issues(prog) == (match prog[0] case Single(x) => [x] case Loops(n) => Replay(n)) + Issues(prog[1..])
  {
  }

  lemma {:induction false} TagIssuesFront(prog: Program, at: nat)
    requires prog != []
    ensures Issues(Tag(prog, at))
            == match prog[0]
               case Single(x) => [x.(sec := at)] + Issues(Tag(prog[1..], at + 1))
               case Loops(n) => Replay(TagNest(n, at)) + Issues(Tag(prog[1..], at + |Queue(n, 0)|))
  {
    TagFront(prog, at);
    IssuesFront(Tag(prog, at));
    hide Tag, Issues, Replay, Queue, TagNest;
  }

  lemma {:induction false} LocatedSingle(prog: Program, at: nat)
    requires prog != [] && prog[0].Single?
    requires Located(Issues(prog[1..]), Issues(Tag(prog[1..], at + 1)), Stream(prog[1..]), at + 1)
    ensures Located(Issues(prog), Issues(Tag(prog, at)), Stream(prog), at)
  {
    var x, rest := prog[0].insn, prog[1..];
    IssuesFront(prog);
    TagIssuesFront(prog, at);
    assert TagSeq([x], at) == [x.(sec := at)];
    hide *;
    LocatedTag([x], at);
    LocatedFront([x], [x.(sec := at)], Issues(rest), Issues(Tag(rest, at + 1)), [x], Stream(rest), at);
  }

  lemma {:induction false} LoopsFront(prog: Program, at: nat, next: nat)
    requires prog != [] && prog[0].Loops? && next == at + |Queue(prog[0].nest, 0)|
    ensures Stream(prog) == Queue(prog[0].nest, 0) + Stream(prog[1..])
    ensures Issues(prog) == Replay(prog[0].nest) + Issues(prog[1..])
    ensures Issues(Tag(prog, at)) == Replay(TagNest(prog[0].nest, at)) + Issues(Tag(prog[1..], next))
  {
    hide *;
    IssuesFront(prog);
    TagIssuesFront(prog, at);
  }

  ghost predicate Joined(whole: seq<Insn>, front: seq<Insn>, rest: seq<Insn>) {
    whole == front + rest
  }

  lemma {:induction false} LoopsJoined(prog: Program, at: nat, next: nat)
    requires prog != [] && prog[0].Loops? && next == at + |Queue(prog[0].nest, 0)|
    ensures Joined(Stream(prog), Queue(prog[0].nest, 0), Stream(prog[1..]))
    ensures Joined(Issues(prog), Replay(prog[0].nest), Issues(prog[1..]))
    ensures Joined(Issues(Tag(prog, at)), Replay(TagNest(prog[0].nest, at)), Issues(Tag(prog[1..], next)))
  {
    hide Stream, Queue, Issues, Replay, Tag, TagNest;
    LoopsFront(prog, at, next);
  }

  lemma {:induction false} LocatedWhole(xs: seq<Insn>, ys: seq<Insn>, us: seq<Insn>, vs: seq<Insn>, head: seq<Insn>,
                                        rest: seq<Insn>, at: nat, x: seq<Insn>, y: seq<Insn>, s: seq<Insn>)
    requires Located(xs, ys, head, at) && Located(us, vs, rest, at + |head|)
    requires Joined(x, xs, us) && Joined(y, ys, vs) && Joined(s, head, rest)
    ensures Located(x, y, s, at)
  {
    hide Located;
    LocatedFront(xs, ys, us, vs, head, rest, at);
  }

  lemma {:induction false} LocatedNest(n: Nest, at: nat, us: seq<Insn>, vs: seq<Insn>, rest: seq<Insn>, x: seq<Insn>,
                                       y: seq<Insn>, s: seq<Insn>)
    requires Located(us, vs, rest, at + |Queue(n, 0)|) && Joined(x, Replay(n), us)
    requires Joined(y, Replay(TagNest(n, at)), vs) && Joined(s, Queue(n, 0), rest)
    ensures Located(x, y, s, at)
  {
    hide *;
    LocatedReplay(n, at);
    LocatedWhole(Replay(n), Replay(TagNest(n, at)), us, vs, Queue(n, 0), rest, at, x, y, s);
  }

  lemma {:induction false} LocatedLoops(prog: Program, at: nat, next: nat)
    requires prog != [] && prog[0].Loops? && next == at + |Queue(prog[0].nest, 0)|
    requires Located(Issues(prog[1..]), Issues(Tag(prog[1..], next)), Stream(prog[1..]), next)
    ensures Located(Issues(prog), Issues(Tag(prog, at)), Stream(prog), at)
  {
    var n, rest := prog[0].nest, prog[1..];
    hide *;
    LoopsJoined(prog, at, next);
    LocatedNest(n, at, Issues(rest), Issues(Tag(rest, next)), Stream(rest), Issues(prog), Issues(Tag(prog, at)),
        Stream(prog));
  }

  lemma {:induction false} LocatedIssues(prog: Program, at: nat)
    ensures Located(Issues(prog), Issues(Tag(prog, at)), Stream(prog), at)
  {
    if prog == [] {
      assert Issues(prog) == [];
    } else if prog[0].Single? {
      LocatedIssues(prog[1..], at + 1);
      LocatedSingle(prog, at);
    } else {
      var next := at + |Queue(prog[0].nest, 0)|;
      LocatedIssues(prog[1..], next);
      LocatedLoops(prog, at, next);
    }
  }

  /** The `m`-th issue is the instruction of the stream at its place. */
  lemma {:induction false} PlaceOf(prog: Program, m: nat)
    ensures |Places(prog)| == |Issues(prog)|
    ensures m < |Issues(prog)| ==> Places(prog)[m] < |Stream(prog)| && Stream(prog)[Places(prog)[m]] == Issues(prog)[m]
  {
    LocatedIssues(prog, 0);
    if m < |Issues(prog)| {
      assert Sits(Issues(prog)[m], Issues(Tag(prog, 0))[m], Stream(prog), 0);
    }
  }

  // ----- labels do not matter

  function StripInsn(x: Insn): Insn {
    Insn("", 0, x.isFrep)
  }

  function StripInsns(s: seq<Insn>): (t: seq<Insn>)
    ensures |t| == |s| && forall i | 0 <= i < |s| :: t[i] == StripInsn(s[i])
  {
    seq(|s|, i requires 0 <= i < |s| => StripInsn(s[i]))
  }

  function StripCfgs(c: seq<LoopCfg>): (t: seq<LoopCfg>)
    ensures |t| == |c| && forall i | 0 <= i < |c| :: t[i] == c[i].(pc := "")
  {
    seq(|c|, i requires 0 <= i < |c| => c[i].(pc := ""))
  }

  function Strip(s: State): State {
    State(s.loopIdx, StripCfgs(s.cfgs), s.nestDepth, StripInsns(s.insns), s.rdPtr)
  }

  lemma {:induction false} StripUpdate(c: seq<LoopCfg>, i: nat, x: LoopCfg)
    requires i < |c|
    ensures StripCfgs(c[i := x]) == StripCfgs(c)[i := x.(pc := "")]
  {
  }

  lemma {:induction false} StripPropagate(c: seq<LoopCfg>, i: nat)
    requires i < |c|
    ensures Propagate(StripCfgs(c), i) == match Propagate(c, i) case None => None case Some(r) => Some(StripCfgs(r))
    decreases i
  {
    hide StripCfgs;
    if i > 0 && Decoded(c, i) && LastIter(c, i) {
      var x := c[i - 1].(instIdx := c[i - 1].instIdx + 1);
      StripUpdate(c, i - 1, x);
      StripPropagate(c[i - 1 := x], i - 1);
    }
  }

  lemma {:induction false} StripReenter(c: seq<LoopCfg>, a: Idx, r: nat)
    requires a < |c|
    ensures Reenter(StripCfgs(c), a, r) == Reenter(c, a, r)
    decreases |c| - a
  {
    if |c| > a + 1 && c[a + 1].basePtr == r {
      StripReenter(c, a + 1, r);
    }
  }

  lemma {:induction false} StripUnwind(c: seq<LoopCfg>, a: Idx)
    requires a < |c|
    ensures Unwind(StripCfgs(c), a) == match Unwind(c, a) case None => None case Some(r) => Some((StripCfgs(r.0), r.1))
    decreases a + 1
  {
    hide StripCfgs;
    if a >= 0 && Decoded(c, a) && LastIter(c, a) && LastInst(c, a) {
      StripUpdate(c, a, ResetCfg(c[a]));
      StripUnwind(c[a := ResetCfg(c[a])], a - 1);
    }
  }

  lemma {:induction false} StripAdvance(s: State)
    requires 0 <= s.loopIdx < |s.cfgs|
    ensures Advance(Strip(s)) == match Advance(s) case None => None case Some(r) => Some(Strip(r))
  {
    hide StripCfgs, Propagate;
    var a := s.loopIdx;
    var x := s.cfgs[a].(instIdx := s.cfgs[a].instIdx + 1);
    StripUpdate(s.cfgs, a, x);
    StripPropagate(s.cfgs[a := x], a);
  }

  lemma {:induction false} StripNextIteration(s: State)
    requires 0 <= s.loopIdx < |s.cfgs|
    ensures NextIteration(Strip(s)) == Strip(NextIteration(s))
  {
    hide StripCfgs;
    StripUpdate(s.cfgs, s.loopIdx, BumpIter(s.cfgs[s.loopIdx]));
  }

  lemma {:induction false} StripDrop(s: State, k: nat, d: nat)
    ensures StripInsns(Drop(s.insns, k)) == Drop(StripInsns(s.insns), k)
    ensures StripCfgs(Drop(s.cfgs, d)) == Drop(StripCfgs(s.cfgs), d)
  {
  }

  lemma {:induction false} StripLeave(s: State)
    requires Decoded(s.cfgs, s.loopIdx)
    ensures Leave(Strip(s)) == match Leave(s) case None => None case Some(r) => Some(Strip(r))
  {
    hide StripCfgs, Unwind, Advance, NextIteration, StripInsns, Drop;
    var a := s.loopIdx;
    var c := s.cfgs[a := ResetCfg(s.cfgs[a])];
    StripUpdate(s.cfgs, a, ResetCfg(s.cfgs[a]));
    StripUnwind(c, a - 1);
    var u := Unwind(c, a - 1);
    if u.Some? {
      var (cfgs, b) := u.value;
      if b == -1 {
        if Decoded(cfgs, 0) {
          StripDrop(State(-1, cfgs, 0, s.insns, 0), cfgs[0].frep.value.maxInst + 1, s.nestDepth);
        }
      } else {
        var s1 := State(b, cfgs, s.nestDepth, s.insns, s.rdPtr);
        StripAdvance(s1);
        StripNextIteration(s1);
      }
    }
  }

  lemma {:induction false} StripRemove(s: seq<Insn>, i: nat)
    requires i < |s|
    ensures StripInsns(Remove(s, i)) == Remove(StripInsns(s), i)
  {
  }

  lemma {:induction false} StripIssueOne(s: State)
    ensures IssueOne(Strip(s)).Some? == IssueOne(s).Some?
    ensures IssueOne(s).Some? ==> IssueOne(Strip(s)).value.0 == Strip(IssueOne(s).value.0)
  {
    hide StripCfgs, StripInsns, Leave, Advance, NextIteration, Remove, Reenter;
    if s.rdPtr < |s.insns| {
      var a := s.loopIdx;
      if a == -1 {
        StripRemove(s.insns, s.rdPtr);
      } else if Decoded(s.cfgs, a) {
        if !LastInst(s.cfgs, a) {
          StripAdvance(s);
          if Advance(s).Some? {
            AdvanceSteps(s);
            StripReenter(Advance(s).value.cfgs, a, Advance(s).value.rdPtr);
          }
        } else if !LastIter(s.cfgs, a) {
          StripNextIteration(s);
        } else {
          StripLeave(s);
        }
      }
    }
  }

  lemma {:induction false} StripEnter(s: State)
    ensures EnterLoops(Strip(s)) == match EnterLoops(s) case None => None case Some(r) => Some(Strip(r))
    decreases |s.insns|
  {
    hide StripCfgs, StripInsns, Remove;
    if s.insns == [] || s.rdPtr >= |s.insns| {
      assert StripInsns([]) == [];
    } else {
      assert StripInsns(s.insns)[s.rdPtr] == StripInsn(s.insns[s.rdPtr]);
      if s.insns[s.rdPtr].isFrep && s.loopIdx + 1 < |s.cfgs| {
        var a := s.loopIdx + 1;
        var x := s.cfgs[a].(basePtr := s.rdPtr);
        StripUpdate(s.cfgs, a, x);
        StripRemove(s.insns, s.rdPtr);
        RemoveShorter(s.insns, s.rdPtr);
        RemoveShorter(StripInsns(s.insns), s.rdPtr);
        StripEnter(State(a, s.cfgs[a := x], s.nestDepth + 1, Remove(s.insns, s.rdPtr), s.rdPtr));
      }
    }
  }

  lemma {:induction false} RemoveShorter<T>(s: seq<T>, i: nat)
    requires i < |s|
    ensures |Remove(s, i)| == |s| - 1
  {
  }

  lemma {:induction false} StripEmulate(s: State)
    ensures Emulate(Strip(s)).Some? == Emulate(s).Some?
    ensures Emulate(s).Some? ==> Emulate(Strip(s)).value.0 == Strip(Emulate(s).value.0)
  {
    hide Strip, IssueOne, EnterLoops;
    StripEnter(s);
    if EnterLoops(s).Some? {
      StripIssueOne(EnterLoops(s).value);
    }
  }

  function StripEvents(evs: seq<Event>): seq<Event> {
    if evs == [] then []
    else [match evs[0] case Offload(x) => Offload(StripInsn(x)) case e => e] + StripEvents(evs[1..])
  }

  /** Whether a run raises does not depend on labels. */
  lemma {:induction false} StripRun(s: State, evs: seq<Event>)
    ensures Run(Strip(s), StripEvents(evs)).Some? == Run(s, evs).Some?
    decreases |evs|
  {
    if evs != [] {
      var rest := evs[1..];
      assert StripEvents(evs)[1..] == StripEvents(rest);
      match evs[0] {
        case Offload(x) =>
          StripPush(s, x);
          StripRun(Push(s, x), rest);
        case Configure(f) =>
          StripDecode(s, f);
          if Decode(s, f).Some? {
            StripRun(Decode(s, f).value, rest);
          }
        case Issued =>
          hide Emulate, Strip;
          StripEmulate(s);
          if Emulate(s).Some? {
            StripRun(Emulate(s).value.0, rest);
          }
      }
    }
  }

  lemma {:induction false} StripPush(s: State, x: Insn)
    ensures Push(Strip(s), StripInsn(x)) == Strip(Push(s, x))
  {
    assert StripInsns(s.insns + [x]) == StripInsns(s.insns) + [StripInsn(x)];
    assert StripCfgs(s.cfgs + [FreshCfg(x.pc)]) == StripCfgs(s.cfgs) + [FreshCfg("")];
  }

  lemma {:induction false} StripDecode(s: State, f: Frep)
    ensures Decode(Strip(s), f) == match Decode(s, f) case None => None case Some(r) => Some(Strip(r))
  {
    if s.cfgs != [] {
      var last := |s.cfgs| - 1;
      StripUpdate(s.cfgs, last, s.cfgs[last].(frep := Some(f)));
    }
  }

  /** The same events with every offloaded instruction labelled with its position. */
  function TagEvents(evs: seq<Event>, at: nat): (t: seq<Event>)
    ensures |t| == |evs|
  {
    if evs == [] then []
    else match evs[0]
      case Offload(x) => [Offload(x.(sec := at))] + TagEvents(evs[1..], at + 1)
      case e => [e] + TagEvents(evs[1..], at)
  }

  lemma {:induction false} TagEventsFront(evs: seq<Event>, at: nat)
    requires evs != []
    ensures var t := TagEvents(evs, at);
            match evs[0]
            case Offload(x) => t[0] == Offload(x.(sec := at)) && t[1..] == TagEvents(evs[1..], at + 1)
            case e => t[0] == e && t[1..] == TagEvents(evs[1..], at)
  {
  }

  lemma {:induction false} TagEventsSame(evs: seq<Event>, at: nat, pend: bool)
    ensures var t := TagEvents(evs, at);
            && Offloads(t) == TagSeq(Offloads(evs), at) && Configured(t) == Configured(evs)
            && Disciplined(t, pend) == Disciplined(evs, pend) && StripEvents(t) == StripEvents(evs)
    decreases |evs|
  {
    if evs != [] {
      TagEventsFront(evs, at);
      match evs[0] {
        case Offload(x) =>
          TagEventsSame(evs[1..], at + 1, pend || x.isFrep);
          TagConcat([x], Offloads(evs[1..]), at);
        case Configure(_) =>
          TagEventsSame(evs[1..], at, false);
        case Issued =>
          TagEventsSame(evs[1..], at, pend);
      }
    }
  }
}
