/**
 What the trace shows of a nest, loop status included: every instruction carries
 the FREP of the innermost loop around it, that loop's iteration, and the
 instruction's offset in the loop's static body.  `Unrolled` is what the nest
 means; `Traced` is what the emulator shows, which differs where a loop starts
 with its inner loop: there it issues the static body as its own.
 */
module SequencerTrace {
  import opened Wrappers
  import opened SequencerModel
  import opened SequencerNest

  /** Instructions of iteration `iter` of the loop of `frep`, the first of them at offset `off` of its static body. */
  function Marked(s: seq<Insn>, frep: Insn, iter: nat, off: nat): (r: seq<Issue>)
    ensures |r| == |s|
    ensures forall k | 0 <= k < |s| ::
              r[k] == Issue(s[k].pc, s[k].sec, Some(Status(frep.pc, iterIdx := iter, instIdx := off + k)))
  {
    seq(|s|, k requires 0 <= k < |s| =>
      Issue(s[k].pc, s[k].sec, Some(Status(frep.pc, iterIdx := iter, instIdx := off + k))))
  }

  /** Iteration `iter` of loop `l` around `inner`, which takes up `size` of its static body. */
  function Around(l: Level, size: nat, iter: nat, inner: seq<Issue>): seq<Issue> {
    Marked(l.pre, l.frep, iter, 0) + inner + Marked(l.post, l.frep, iter, |l.pre| + size)
  }

  /** The recursive unrolling of a nest. */
  function Unrolled(n: Nest): seq<Issue>
    decreases |n|, 0
  {
    if n == [] then [] else Rounds(n, 0)
  }

  /** The iterations from `i` on. */
  function Rounds(n: Nest, i: nat): seq<Issue>
    requires n != []
    decreases |n| - 1, 1, n[0].maxIter + 1 - i
  {
    if i > n[0].maxIter then [] else Around(n[0], |Body(n[1..])|, i, Unrolled(n[1..])) + Rounds(n, i + 1)
  }

  /** A second or later iteration of the outermost loop, as the emulator shows it. */
  function Lap(n: Nest, i: nat): seq<Issue>
    requires n != []
    decreases |n|, 0
  {
    if n[0].pre == [] then Marked(Body(n), n[0].frep, i, 0) else Around(n[0], |Body(n[1..])|, i, Traced(n[1..]))
  }

  function Laps(n: Nest, i: nat): seq<Issue>
    requires n != []
    decreases |n|, 1, n[0].maxIter + 1 - i
  {
    if i > n[0].maxIter then [] else Lap(n, i) + Laps(n, i + 1)
  }

  /** What the emulator shows for a nest. */
  function Traced(n: Nest): seq<Issue>
    decreases |n|, 2
  {
    if n == [] then [] else Around(n[0], |Body(n[1..])|, 0, Traced(n[1..])) + Laps(n, 1)
  }

  /** The instructions of loop `a` in front of and behind its inner loop, in iteration `i`. */
  function Pre(n: Nest, a: nat, i: nat): (s: seq<Issue>)
    requires a < |n|
    ensures |s| == |n[a].pre|
  {
    Marked(n[a].pre, n[a].frep, i, 0)
  }

  function Post(n: Nest, a: nat, i: nat): (s: seq<Issue>)
    requires a < |n|
    ensures |s| == |n[a].post|
  {
    Marked(n[a].post, n[a].frep, i, |n[a].pre| + |Body(n[a + 1..])|)
  }

  /** The static body of loop `a`, shown as its own. */
  function Whole(n: Nest, a: nat, i: nat): (s: seq<Issue>)
    requires a < |n|
    ensures |s| == |Body(n[a..])|
  {
    Marked(Body(n[a..]), n[a].frep, i, 0)
  }

  lemma {:induction false} TracedTail(n: Nest, a: nat)
    requires a < |n|
    ensures Traced(n[a..]) == Pre(n, a, 0) + Traced(n[a + 1..]) + Post(n, a, 0) + Laps(n[a..], 1)
  {
    assert n[a..][0] == n[a] && n[a..][1..] == n[a + 1..];
  }

  lemma {:induction false} LapTail(n: Nest, a: nat, i: nat)
    requires a < |n|
    ensures n[a].pre != [] ==> Lap(n[a..], i) == Pre(n, a, i) + Traced(n[a + 1..]) + Post(n, a, i)
    ensures n[a].pre == [] ==> Lap(n[a..], i) == Whole(n, a, i)
    ensures Laps(n[a..], i) == if i > n[a].maxIter then [] else Lap(n[a..], i) + Laps(n[a..], i + 1)
  {
    assert n[a..][0] == n[a] && n[a..][1..] == n[a + 1..];
  }

  // ----- names

  /** The program counters and sections the trace shows. */
  function Names(s: seq<Issue>): (r: seq<(string, nat)>)
    ensures |r| == |s| && forall k | 0 <= k < |s| :: r[k] == (s[k].pc, s[k].sec)
  {
    seq(|s|, k requires 0 <= k < |s| => (s[k].pc, s[k].sec))
  }

  function Named(s: seq<Insn>): (r: seq<(string, nat)>)
    ensures |r| == |s| && forall k | 0 <= k < |s| :: r[k] == (s[k].pc, s[k].sec)
  {
    seq(|s|, k requires 0 <= k < |s| => (s[k].pc, s[k].sec))
  }

  lemma {:induction false} NamesBoth(x: seq<Issue>, y: seq<Issue>, s: seq<Insn>, t: seq<Insn>)
    requires Names(x) == Named(s) && Names(y) == Named(t)
    ensures Names(x + y) == Named(s + t)
  {
    assert |x| == |s| && |y| == |t|;
    forall k | 0 <= k < |x| + |y| ensures Names(x + y)[k] == Named(s + t)[k] {
      if k < |x| {
        assert Names(x)[k] == Named(s)[k];
      } else {
        assert Names(y)[k - |x|] == Named(t)[k - |x|];
      }
    }
  }

  lemma {:induction false} NamesMarked(s: seq<Insn>, frep: Insn, iter: nat, off: nat)
    ensures Names(Marked(s, frep, iter, off)) == Named(s)
  {
  }

  lemma {:induction false} NamesAround(l: Level, size: nat, iter: nat, inner: seq<Issue>, s: seq<Insn>)
    requires Names(inner) == Named(s)
    ensures Names(Around(l, size, iter, inner)) == Named(l.pre + s + l.post)
  {
    hide Marked, Names, Named;
    NamesMarked(l.pre, l.frep, iter, 0);
    NamesMarked(l.post, l.frep, iter, |l.pre| + size);
    NamesBoth(Marked(l.pre, l.frep, iter, 0), inner, l.pre, s);
    NamesBoth(Marked(l.pre, l.frep, iter, 0) + inner, Marked(l.post, l.frep, iter, |l.pre| + size), l.pre + s, l.post);
  }

  lemma {:induction false} NamesLaps(n: Nest, i: nat)
    requires n != [] && Names(Traced(n[1..])) == Named(Replay(n[1..])) && i <= n[0].maxIter + 1
    ensures Names(Laps(n, i)) == Named(Repeat(n[0].maxIter + 1 - i, Again(n)))
    decreases n[0].maxIter + 1 - i
  {
    if i <= n[0].maxIter {
      NamesLaps(n, i + 1);
      NamesLap(n, i);
      hide Lap, Again, Names, Named;
      NamesBoth(Lap(n, i), Laps(n, i + 1), Again(n), Repeat(n[0].maxIter - i, Again(n)));
    }
  }

  lemma {:induction false} NamesLap(n: Nest, i: nat)
    requires n != [] && Names(Traced(n[1..])) == Named(Replay(n[1..]))
    ensures Names(Lap(n, i)) == Named(Again(n))
  {
    NamesMarked(Body(n), n[0].frep, i, 0);
    NamesAround(n[0], |Body(n[1..])|, i, Traced(n[1..]), Replay(n[1..]));
    hide Around, Body, Traced, Replay, Names, Named;
  }

  /** Without the status the emulator shows what it issues. */
  lemma {:induction false} NamesTraced(n: Nest)
    ensures Names(Traced(n)) == Named(Replay(n))
  {
    if n != [] {
      NamesTraced(n[1..]);
      NamesLaps(n, 1);
      NamesAround(n[0], |Body(n[1..])|, 0, Traced(n[1..]), Replay(n[1..]));
      hide Around, Body, Laps, Repeat, Again, Names, Named;
      NamesBoth(Around(n[0], |Body(n[1..])|, 0, Traced(n[1..])), Laps(n, 1), n[0].pre + Replay(n[1..]) + n[0].post,
                Repeat(n[0].maxIter, Again(n)));
    }
  }

  lemma {:induction false} NamesRounds(n: Nest, i: nat)
    requires n != [] && Names(Unrolled(n[1..])) == Named(Unroll(n[1..])) && i <= n[0].maxIter + 1
    ensures Names(Rounds(n, i)) == Named(Repeat(n[0].maxIter + 1 - i, n[0].pre + Unroll(n[1..]) + n[0].post))
    decreases n[0].maxIter + 1 - i
  {
    if i <= n[0].maxIter {
      NamesRounds(n, i + 1);
      NamesAround(n[0], |Body(n[1..])|, i, Unrolled(n[1..]), Unroll(n[1..]));
      hide Around, Body, Unrolled, Unroll, Names, Named;
      var s := n[0].pre + Unroll(n[1..]) + n[0].post;
      NamesBoth(Around(n[0], |Body(n[1..])|, i, Unrolled(n[1..])), Rounds(n, i + 1), s, Repeat(n[0].maxIter - i, s));
    }
  }

  /** Without the status the annotated unrolling is the unrolling. */
  lemma {:induction false} NamesUnrolled(n: Nest)
    ensures Names(Unrolled(n)) == Named(Unroll(n))
  {
    if n != [] {
      NamesUnrolled(n[1..]);
      NamesRounds(n, 0);
    }
  }

  // ----- when the emulator shows the meaning

  /** Every loop that iterates and has an inner loop has an instruction in front of it. */
  ghost predicate Separate(n: Nest) {
    forall i | 0 <= i < |n| - 1 :: n[i].pre != [] || n[i].maxIter == 0
  }

  lemma {:induction false} SeparateRounds(n: Nest, i: nat)
    requires n != [] && Traced(n[1..]) == Unrolled(n[1..]) && (n[0].pre != [] || |n| == 1) && i <= n[0].maxIter + 1
    ensures Laps(n, i) == Rounds(n, i)
    decreases n[0].maxIter + 1 - i
  {
    if i <= n[0].maxIter {
      SeparateRounds(n, i + 1);
      if n[0].pre == [] {
        assert n[1..] == [];
        assert Body(n) == n[0].post;
        assert Marked([], n[0].frep, i, 0) == [];
        assert Lap(n, i) == Around(n[0], 0, i, []);
      }
    }
  }

  lemma {:induction false} SeparateTraces(n: Nest)
    requires Separate(n)
    ensures Traced(n) == Unrolled(n)
  {
    if n != [] {
      assert Separate(n[1..]) by {
        forall i | 0 <= i < |n[1..]| - 1 ensures n[1..][i].pre != [] || n[1..][i].maxIter == 0 {
          assert n[1..][i] == n[i + 1];
        }
      }
      SeparateTraces(n[1..]);
      assert Rounds(n, 0) == Around(n[0], |Body(n[1..])|, 0, Unrolled(n[1..])) + Rounds(n, 1);
      if n[0].pre != [] || |n| == 1 {
        SeparateRounds(n, 1);
      } else {
        assert n[0].maxIter == 0;
        assert Laps(n, 1) == Rounds(n, 1) == [];
      }
    }
  }

  lemma {:induction false} SameParts<T>(a: seq<T>, b: seq<T>, c: seq<T>, d: seq<T>)
    requires a + b == c + d && |a| == |c|
    ensures a == c && b == d
  {
    assert a == (a + b)[..|a|] && c == (c + d)[..|c|];
    assert b == (a + b)[|a|..] && d == (c + d)[|c|..];
  }

  /** A nest starts with the first iteration of one of its loops. */
  lemma {:induction false} StartsAtZero(n: Nest)
    requires ValidNest(n)
    ensures Unrolled(n) != [] && Unrolled(n)[0].status.Some? && Unrolled(n)[0].status.value.iterIdx == 0
  {
    assert Unrolled(n) == Around(n[0], |Body(n[1..])|, 0, Unrolled(n[1..])) + Rounds(n, 1);
    if n[0].pre == [] {
      if |n| > 1 {
        ValidTail(n);
        StartsAtZero(n[1..]);
      } else {
        assert n[1..] == [];
      }
    }
  }

  lemma {:induction false} SameLength(n: Nest)
    requires ValidNest(n) && Traced(n) == Unrolled(n)
    ensures Faithful(n) && |Traced(n[1..])| == |Unrolled(n[1..])|
  {
    NamesTraced(n);
    NamesUnrolled(n);
    NamesTraced(n[1..]);
    NamesUnrolled(n[1..]);
    assert |Replay(n)| == |Named(Replay(n))| && |Unroll(n)| == |Named(Unroll(n))|;
    ReplayLength(n);
    hide Traced, Unrolled, Replay, Unroll;
    FaithfulTail(n);
    FaithfulReplays(n[1..]);
    assert |Replay(n[1..])| == |Named(Replay(n[1..]))|;
  }

  lemma {:induction false} FaithfulTail(n: Nest)
    requires n != [] && Faithful(n)
    ensures Faithful(n[1..])
  {
    var m := n[1..];
    forall i | 0 <= i < |m| ensures m[i].pre != [] || m[i].maxIter == 0 || Flat(m[i + 1..]) {
      assert m[i] == n[i + 1] && m[i + 1..] == n[i + 2..];
    }
  }

  /** The second iteration of a loop that starts with its inner loop is shown as the loop's own. */
  lemma {:induction false} SecondIteration(n: Nest)
    requires ValidNest(n) && |n| > 1 && n[0].pre == [] && n[0].maxIter > 0
    ensures Laps(n, 1) != Rounds(n, 1)
  {
    ValidTail(n);
    StartsAtZero(n[1..]);
    NamesUnrolled(n[1..]);
    var size := |Body(n[1..])|;
    assert Rounds(n, 1) == Around(n[0], size, 1, Unrolled(n[1..])) + Rounds(n, 2);
    assert Rounds(n, 1)[0] == Unrolled(n[1..])[0];
    assert Laps(n, 1) == Marked(Body(n), n[0].frep, 1, 0) + Laps(n, 2);
    if Body(n) != [] {
      assert Laps(n, 1)[0].status.value.iterIdx == 1;
    } else {
      BodyNotEmpty(n);
    }
  }

  lemma {:induction false} FirstRound(n: Nest)
    requires n != []
    ensures Traced(n) == Around(n[0], |Body(n[1..])|, 0, Traced(n[1..])) + Laps(n, 1)
    ensures Unrolled(n) == Around(n[0], |Body(n[1..])|, 0, Unrolled(n[1..])) + Rounds(n, 1)
  {
  }

  lemma {:induction false} AroundInner(l: Level, size: nat, x: seq<Issue>, y: seq<Issue>)
    requires |x| == |y| && Around(l, size, 0, x) == Around(l, size, 0, y)
    ensures x == y
  {
    var p, q := Marked(l.pre, l.frep, 0, 0), Marked(l.post, l.frep, 0, |l.pre| + size);
    SameParts(p + x, q, p + y, q);
    SameParts(p, x, p, y);
  }

  lemma {:induction false} SeparateFront(n: Nest)
    requires n != [] && Separate(n[1..]) && (|n| == 1 || n[0].pre != [] || n[0].maxIter == 0)
    ensures Separate(n)
  {
    forall i | 0 <= i < |n| - 1 ensures n[i].pre != [] || n[i].maxIter == 0 {
      if i > 0 {
        assert n[1..][i - 1] == n[i];
      }
    }
  }

  lemma {:induction false} TracesSeparate(n: Nest)
    requires ValidNest(n) && Traced(n) == Unrolled(n)
    ensures Separate(n)
  {
    SameLength(n);
    FirstRound(n);
    hide Traced, Unrolled, Laps, Rounds, Body, ValidNest, Faithful;
    var size, t, u := |Body(n[1..])|, Traced(n[1..]), Unrolled(n[1..]);
    AroundLength(n[0], size, t, u);
    SameParts(Around(n[0], size, 0, t), Laps(n, 1), Around(n[0], size, 0, u), Rounds(n, 1));
    hide Around;
    AroundInner(n[0], size, t, u);
    if |n| > 1 {
      ValidTail(n);
      TracesSeparate(n[1..]);
      if n[0].pre == [] && n[0].maxIter > 0 {
        SecondIteration(n);
      }
    }
    SeparateFront(n);
  }

  lemma {:induction false} AroundLength(l: Level, size: nat, x: seq<Issue>, y: seq<Issue>)
    requires |x| == |y|
    ensures |Around(l, size, 0, x)| == |Around(l, size, 0, y)|
  {
  }

  /** The emulator shows a nest as its annotated unrolling exactly when the nest is separate. */
  lemma {:induction false} TracedIsUnrolled(n: Nest)
    requires ValidNest(n)
    ensures Traced(n) == Unrolled(n) <==> Separate(n)
  {
    hide Traced, Unrolled, Separate;
    if Separate(n) {
      SeparateTraces(n);
    }
    if Traced(n) == Unrolled(n) {
      TracesSeparate(n);
    }
  }
}
