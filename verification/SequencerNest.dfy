/**
 Chain-shaped FREP nests and what replaying them means.

 `Unroll` is the meaning of a nest: every iteration of a loop runs the
 instructions before the inner loop, the inner loop, and the instructions after
 it.  `Replay` is what the emulator issues: the scan that re-enters inner loops
 runs only when the read pointer advances, so a loop that starts directly with
 its inner loop replays that inner loop's body only once from its second
 iteration on.  The two agree exactly when the nest is `Faithful`.
 */
module SequencerNest {
  import opened SequencerModel

  /** One loop: its FREP, its last iteration index, and its own instructions before and after the inner loop. */
  datatype Level = Level(frep: Insn, maxIter: nat, pre: seq<Insn>, post: seq<Insn>)

  /** A chain of loops, outermost first; each directly contains the next. */
  type Nest = seq<Level>

  ghost predicate Plain(s: seq<Insn>) {
    forall i | 0 <= i < |s| :: !s[i].isFrep
  }

  function Repeat<T>(k: nat, s: seq<T>): seq<T> {
    if k == 0 then [] else s + Repeat(k - 1, s)
  }

  /** The static, non-FREP instructions of a nest in program order. */
  function Body(n: Nest): seq<Insn> {
    if n == [] then [] else n[0].pre + Body(n[1..]) + n[0].post
  }

  /** The instruction queue of a nest whose `d` outermost FREPs have been popped. */
  function Queue(n: Nest, d: nat): seq<Insn> {
    if n == [] then []
    else (if d == 0 then [n[0].frep] else []) + n[0].pre + Queue(n[1..], if d == 0 then 0 else d - 1) + n[0].post
  }

  /** A nest the core can offload: FREPs and bodies are what they claim to be and the innermost body is not empty. */
  ghost predicate ValidNest(n: Nest) {
    && n != []
    && (forall i | 0 <= i < |n| :: n[i].frep.isFrep && Plain(n[i].pre) && Plain(n[i].post))
    && n[|n| - 1].pre + n[|n| - 1].post != []
  }

  /** The recursive unrolling of a nest. */
  function Unroll(n: Nest): seq<Insn> {
    if n == [] then [] else Repeat(n[0].maxIter + 1, n[0].pre + Unroll(n[1..]) + n[0].post)
  }

  /** A second or later iteration of the outermost loop, as the emulator issues it. */
  function Again(n: Nest): seq<Insn>
    requires n != []
    decreases |n|, 0
  {
    if n[0].pre == [] then Body(n) else n[0].pre + Replay(n[1..]) + n[0].post
  }

  /** What the emulator issues for a nest. */
  function Replay(n: Nest): seq<Insn>
    decreases |n|, 1
  {
    if n == [] then [] else n[0].pre + Replay(n[1..]) + n[0].post + Repeat(n[0].maxIter, Again(n))
  }

  ghost predicate Flat(n: Nest) {
    forall i | 0 <= i < |n| :: n[i].maxIter == 0
  }

  /** Every loop that iterates has an instruction before its inner loop, unless no loop inside it iterates. */
  ghost predicate Faithful(n: Nest) {
    forall i | 0 <= i < |n| :: n[i].pre != [] || n[i].maxIter == 0 || Flat(n[i + 1..])
  }

  lemma {:induction false} RepeatLength<T>(k: nat, s: seq<T>, t: seq<T>)
    requires |s| <= |t|
    ensures |Repeat(k, s)| <= |Repeat(k, t)|
    ensures k > 0 && |s| < |t| ==> |Repeat(k, s)| < |Repeat(k, t)|
  {
    if k > 0 {
      RepeatLength(k - 1, s, t);
    }
  }

  lemma {:induction false} ValidTail(n: Nest)
    requires ValidNest(n) && |n| > 1
    ensures ValidNest(n[1..])
  {
    assert n[1..][|n| - 2] == n[|n| - 1];
  }

  lemma {:induction false} BodyNotEmpty(n: Nest)
    requires ValidNest(n)
    ensures Body(n) != []
  {
    if |n| == 1 {
      assert Body(n[1..]) == [];
    } else {
      ValidTail(n);
      BodyNotEmpty(n[1..]);
    }
  }

  lemma {:induction false} FlatUnrolls(n: Nest)
    requires Flat(n)
    ensures Unroll(n) == Body(n)
  {
    if n != [] {
      FlatUnrolls(n[1..]);
      var s := n[0].pre + Unroll(n[1..]) + n[0].post;
      assert Repeat(1, s) == s + Repeat(0, s) == s;
    }
  }

  /** Unrolling never shortens a body, and lengthens it as soon as one loop iterates. */
  lemma {:induction false} UnrollLength(n: Nest)
    requires n == [] || ValidNest(n)
    ensures |Unroll(n)| >= |Body(n)|
    ensures |Unroll(n)| == |Body(n)| ==> Flat(n)
  {
    if n != [] {
      if |n| > 1 {
        ValidTail(n);
      }
      UnrollLength(n[1..]);
      BodyNotEmpty(n);
      var s := n[0].pre + Unroll(n[1..]) + n[0].post;
      assert Unroll(n) == s + Repeat(n[0].maxIter, s);
      if n[0].maxIter > 0 {
        assert |Repeat(n[0].maxIter, s)| >= |s| > 0;
      } else if |Unroll(n)| == |Body(n)| {
        forall i | 0 <= i < |n| ensures n[i].maxIter == 0 {
          if i > 0 {
            assert n[1..][i - 1] == n[i];
          }
        }
      }
    }
  }

  /** The emulator never issues more than the unrolling; when the lengths agree the nest is faithful. */
  lemma {:induction false} ReplayLength(n: Nest)
    requires n == [] || ValidNest(n)
    ensures |Replay(n)| <= |Unroll(n)|
    ensures |Replay(n)| == |Unroll(n)| ==> Faithful(n)
  {
    if n != [] {
      if |n| > 1 {
        ValidTail(n);
      }
      var m := n[1..];
      ReplayLength(m);
      UnrollLength(m);
      var s := n[0].pre + Unroll(m) + n[0].post;
      assert Unroll(n) == s + Repeat(n[0].maxIter, s);
      RepeatLength(n[0].maxIter, Again(n), s);
      if |Replay(n)| == |Unroll(n)| {
        forall i | 0 <= i < |n| ensures n[i].pre != [] || n[i].maxIter == 0 || Flat(n[i + 1..]) {
          if i > 0 {
            assert m[i - 1] == n[i] && m[i..] == n[i + 1..];
          }
        }
      }
    }
  }

  lemma {:induction false} FaithfulReplays(n: Nest)
    requires Faithful(n)
    ensures Replay(n) == Unroll(n)
  {
    if n != [] {
      var m := n[1..];
      assert Faithful(m) by {
        forall i | 0 <= i < |m| ensures m[i].pre != [] || m[i].maxIter == 0 || Flat(m[i + 1..]) {
          assert m[i] == n[i + 1] && m[i + 1..] == n[i + 2..];
        }
      }
      FaithfulReplays(m);
      var s := n[0].pre + Unroll(m) + n[0].post;
      if n[0].pre == [] && n[0].maxIter > 0 {
        assert n[0 + 1..] == m;
        FlatUnrolls(m);
      }
      assert n[0].maxIter > 0 ==> Again(n) == s;
      assert Repeat(n[0].maxIter, Again(n)) == Repeat(n[0].maxIter, s);
    }
  }

  /** The smallest failing shape: two iterations of a loop that is nothing but a two-iteration loop. */
  lemma {:induction false} ImmediateInnerLoopFails(f: Insn, x: Insn)
    requires f.isFrep && !x.isFrep
    ensures var n := [Level(f, 1, [], []), Level(f, 1, [x], [])];
            ValidNest(n) && Unroll(n) == [x, x, x, x] && Replay(n) == [x, x, x]
  {
    var inner := [Level(f, 1, [x], [])];
    var n := [Level(f, 1, [], [])] + inner;
    assert n == [Level(f, 1, [], []), Level(f, 1, [x], [])];
    assert n[1..] == inner && inner[1..] == [];
    assert Again(inner) == [x] && Body(inner) == [x];
    assert Repeat(2, [x]) == [x] + Repeat(1, [x]) && Repeat(1, [x]) == [x] + Repeat(0, [x]);
    assert Replay(inner) == [x, x] && Unroll(inner) == [x, x];
    assert Again(n) == Body(n) == [x];
    assert Repeat(2, [x, x]) == [x, x] + Repeat(1, [x, x]) && Repeat(1, [x, x]) == [x, x] + Repeat(0, [x, x]);
    assert n[0].pre + Unroll(n[1..]) + n[0].post == [x, x];
  }
}
