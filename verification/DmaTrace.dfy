/**
 DMA accounting in the trace tool (util/trace/gen_trace.py:649-757): the list of
 transfers the core configures, their start and end times recovered from the
 bursts in the DMA trace, and the cycles in which any transfer is active.
 */
module DmaTrace {
  import opened Wrappers

  // ----- update_dma

  datatype Insn = Other | Rep(count: nat) | Copy(size: nat, twoD: bool)

  /** A transaction; the last one in the list is a placeholder without a size. */
  datatype Trans = Trans(rep: nat, size: Option<nat>)

  function Update(trans: seq<Trans>, insn: Insn): seq<Trans>
    requires trans != []
  {
    var front, last := trans[..|trans| - 1], trans[|trans| - 1];
    match insn
    case Other => trans
    case Rep(count) => front + [Trans(count, last.size)]
    case Copy(size, twoD) => front + [Trans(if twoD then last.rep else 1, Some(size)), last]
  }

  class DmaTransactions {
    var trans: seq<Trans>

    constructor ()
      ensures trans == [Trans(1, None)]
    {
      trans := [Trans(1, None)];
    }

    /** update_dma */
    method UpdateDma(insn: Insn)
      requires trans != []
      modifies this
      ensures trans == Update(old(trans), insn)
    {
      match insn {
        case Other =>
        case Rep(count) =>
          trans := trans[|trans| - 1 := trans[|trans| - 1].(rep := count)];
        case Copy(size, twoD) =>
          trans := trans + [trans[|trans| - 1]];
          trans := trans[|trans| - 2 := trans[|trans| - 2].(size := Some(size))];
          if !twoD {
            trans := trans[|trans| - 2 := trans[|trans| - 2].(rep := 1)];
          }
      }
    }
  }

  /** The transactions after a whole instruction trace. */
  function Recorded(insns: seq<Insn>): (t: seq<Trans>)
    ensures t != []
  {
    if insns == [] then [Trans(1, None)] else Update(Recorded(insns[..|insns| - 1]), insns[|insns| - 1])
  }

  /** The repetition count in force: that of the last dmrep. */
  function CurrentRep(insns: seq<Insn>): nat {
    if insns == [] then 1
    else if insns[|insns| - 1].Rep? then insns[|insns| - 1].count
    else CurrentRep(insns[..|insns| - 1])
  }

  /** The copies made: 2-D ones with the count in force, 1-D ones with count 1. */
  function Copies(insns: seq<Insn>): seq<Trans> {
    if insns == [] then []
    else
      var front, last := insns[..|insns| - 1], insns[|insns| - 1];
      Copies(front) + if last.Copy? then [Trans(if last.twoD then CurrentRep(front) else 1, Some(last.size))] else []
  }

  /** A 1-D copy never disturbs the repetition count later 2-D copies inherit. */
  lemma {:induction false} CopiesRecorded(insns: seq<Insn>)
    ensures Recorded(insns) == Copies(insns) + [Trans(CurrentRep(insns), None)]
  {
    if insns != [] {
      CopiesRecorded(insns[..|insns| - 1]);
    }
  }

  /** What the transactions in front of the placeholder move. */
  function Bytes(trans: seq<Trans>): seq<nat> {
    if trans == [] || trans[0].size.None? then []
    else [trans[0].rep * trans[0].size.value] + Bytes(trans[1..])
  }

  function CopyCount(insns: seq<Insn>): nat {
    if insns == [] then 0 else CopyCount(insns[..|insns| - 1]) + if insns[|insns| - 1].Copy? then 1 else 0
  }

  lemma {:induction false} BytesSized(copies: seq<Trans>, rep: nat)
    requires forall t | t in copies :: t.size.Some?
    ensures var b := Bytes(copies + [Trans(rep, None)]);
            |b| == |copies| && forall j | 0 <= j < |copies| :: b[j] == copies[j].rep * copies[j].size.value
  {
    if copies != [] {
      BytesSized(copies[1..], rep);
      assert (copies + [Trans(rep, None)])[1..] == copies[1..] + [Trans(rep, None)];
    }
  }

  lemma {:induction false} CopiesSized(insns: seq<Insn>)
    ensures |Copies(insns)| == CopyCount(insns) && forall t | t in Copies(insns) :: t.size.Some?
  {
    if insns != [] {
      CopiesSized(insns[..|insns| - 1]);
    }
  }

  lemma {:induction false} CopyAt(insns: seq<Insn>, i: nat)
    requires i < |insns| && insns[i].Copy?
    ensures var j, front := CopyCount(insns[..i]), insns[..i];
            && j < |Copies(insns)|
            && Copies(insns)[j] == Trans(if insns[i].twoD then CurrentRep(front) else 1, Some(insns[i].size))
  {
    var front := insns[..|insns| - 1];
    if i == |front| {
      CopiesSized(front);
    } else {
      assert front[..i] == insns[..i];
      CopyAt(front, i);
    }
  }

  /**
   Every copy of the instruction trace is one transfer, in order: a 2-D copy moves its size as often as
   the last dmrep before it says, a 1-D copy once.
   */
  lemma {:induction false} BytesRecorded(insns: seq<Insn>)
    ensures |Bytes(Recorded(insns))| == CopyCount(insns)
    ensures forall i | 0 <= i < |insns| && insns[i].Copy? ::
              && CopyCount(insns[..i]) < CopyCount(insns)
              && Bytes(Recorded(insns))[CopyCount(insns[..i])]
                 == insns[i].size * if insns[i].twoD then CurrentRep(insns[..i]) else 1
  {
    CopiesRecorded(insns);
    CopiesSized(insns);
    BytesSized(Copies(insns), CurrentRep(insns));
    hide Bytes, Copies, CopyCount, CurrentRep, Recorded;
    forall i | 0 <= i < |insns| && insns[i].Copy?
      ensures CopyCount(insns[..i]) < CopyCount(insns)
      ensures Bytes(Recorded(insns))[CopyCount(insns[..i])]
              == insns[i].size * if insns[i].twoD then CurrentRep(insns[..i]) else 1
    {
      CopyAt(insns, i);
    }
  }

  // ----- eval_dma_metrics: bursts

  /** One line of the DMA trace: its time, the length of a granted burst, and whether a response arrives. */
  datatype Line = Line(time: nat, req: Option<nat>, rsp: bool)

  datatype Outstanding = Outstanding(tstart: nat, bytes: nat, bursts: Option<nat>)

  datatype Completed = Completed(tstart: nat, bytes: nat, bursts: nat, tend: nat)

  datatype State = State(compl: seq<Completed>, outst: seq<Outstanding>, idx: nat, exp: nat, req: nat, bursts: nat,
      rec: nat)

  const INIT := State([], [], 0, 0, 0, 0, 0)

  /** Lines 703-719; `bytes` are the sizes of the transfers, `None` is a Python exception. */
  function Request(s: State, bytes: seq<nat>, time: nat, len: nat): Option<State> {
    if s.req == 0 && s.idx >= |bytes| then None
    else
      var exp := if s.req == 0 then bytes[s.idx] else s.exp;
      var outst := if s.req == 0 then s.outst + [Outstanding(time, exp, None)] else s.outst;
      var req, bursts := s.req + len, s.bursts + 1;
      if req != exp then Some(State(s.compl, outst, s.idx, exp, req, bursts, s.rec))
      else if outst == [] then None
      else
        var last := |outst| - 1;
        Some(State(s.compl, outst[last := outst[last].(bursts := Some(bursts))], s.idx + 1, exp, 0, 0, s.rec))
  }

  /** Lines 721-732. */
  function Response(s: State, time: nat): Option<State> {
    var rec := s.rec + 1;
    if s.outst == [] then None
    else
      var o := s.outst[0];
      if o.bursts == Some(rec) then
        Some(State(s.compl + [Completed(o.tstart, o.bytes, rec, time)], s.outst[1..], s.idx, s.exp, s.req, s.bursts, 0))
      else Some(State(s.compl, s.outst, s.idx, s.exp, s.req, s.bursts, rec))
  }

  function Step(s: State, bytes: seq<nat>, line: Line): Option<State> {
    var requested := if line.req.Some? then Request(s, bytes, line.time, line.req.value) else Some(s);
    if requested.Some? && line.rsp then Response(requested.value, line.time) else requested
  }

  /** The loop over the trace. */
  function Evaluate(bytes: seq<nat>, lines: seq<Line>): Option<State> {
    if lines == [] then Some(INIT)
    else
      var s :- Evaluate(bytes, lines[..|lines| - 1]);
      Step(s, bytes, lines[|lines| - 1])
  }

  lemma {:induction false} RaisedStays(bytes: seq<nat>, lines: seq<Line>, i: nat)
    requires i <= |lines| && Evaluate(bytes, lines[..i]).None?
    ensures Evaluate(bytes, lines).None?
    decreases |lines|
  {
    if i == |lines| {
      assert lines[..i] == lines;
    } else {
      assert lines[..|lines| - 1][..i] == lines[..i];
      RaisedStays(bytes, lines[..|lines| - 1], i);
    }
  }

  /** The loop of eval_dma_metrics over the transactions recorded; `None` once it raises. */
  method EvaluateTrace(trans: seq<Trans>, lines: seq<Line>) returns (r: Option<State>)
    ensures r == Evaluate(Bytes(trans), lines)
  {
    hide Step, Bytes;
    var bytes := Bytes(trans);
    var s := INIT;
    for i := 0 to |lines|
      invariant Evaluate(bytes, lines[..i]) == Some(s)
    {
      assert lines[..i + 1][..i] == lines[..i];
      var next := Step(s, bytes, lines[i]);
      if next.None? {
        RaisedStays(bytes, lines, i + 1);
        return None;
      }
      s := next.value;
    }
    assert lines[..|lines|] == lines;
    r := Some(s);
  }

  // ----- what the trace is supposed to hold

  function Sum(s: seq<nat>): nat {
    if s == [] then 0 else Sum(s[..|s| - 1]) + s[|s| - 1]
  }

  /**
   The bursts of a transfer add up to its size, and no sooner: only some of them make
   neither nothing nor all of it.  A transfer of no bytes is one burst of length 0.
   */
  ghost predicate Tile(burst: seq<nat>, bytes: nat) {
    && burst != [] && Sum(burst) == bytes
    && forall m: nat | 0 < m < |burst| :: 0 < Sum(burst[..m]) < bytes
  }

  ghost predicate Tiles(bursts: seq<seq<nat>>, bytes: seq<nat>) {
    |bursts| == |bytes| && forall j | 0 <= j < |bursts| :: Tile(bursts[j], bytes[j])
  }

  /** Number of bursts of the first `j` transfers. */
  function Before(bursts: seq<seq<nat>>, j: nat): nat
    requires j <= |bursts|
  {
    if j == 0 then 0 else Before(bursts, j - 1) + |bursts[j - 1]|
  }

  function Flat(bursts: seq<seq<nat>>, j: nat): (f: seq<nat>)
    requires j <= |bursts|
    ensures |f| == Before(bursts, j)
  {
    if j == 0 then [] else Flat(bursts, j - 1) + bursts[j - 1]
  }

  function Requests(lines: seq<Line>): seq<nat> {
    if lines == [] then []
    else Requests(lines[..|lines| - 1]) + match lines[|lines| - 1].req case None => [] case Some(len) => [len]
  }

  function RequestTimes(lines: seq<Line>): (t: seq<nat>)
    ensures |t| == |Requests(lines)|
  {
    if lines == [] then []
    else
      var front, last := lines[..|lines| - 1], lines[|lines| - 1];
      RequestTimes(front) + match last.req case None => [] case Some(_) => [last.time]
  }

  function ResponseTimes(lines: seq<Line>): seq<nat> {
    if lines == [] then []
    else ResponseTimes(lines[..|lines| - 1]) + if lines[|lines| - 1].rsp then [lines[|lines| - 1].time] else []
  }

  /** Bursts are granted transfer by transfer, and no response comes before its request. */
  ghost predicate TraceOk(bursts: seq<seq<nat>>, lines: seq<Line>) {
    && Requests(lines) <= Flat(bursts, |bursts|)
    && |ResponseTimes(lines)| <= |Requests(lines)|
    && (lines == [] || TraceOk(bursts, lines[..|lines| - 1]))
  }

  /** Transfer `j` starts with its first request and ends with its last response. */
  ghost function Expected(bursts: seq<seq<nat>>, bytes: seq<nat>, reqs: seq<nat>, rsps: seq<nat>, j: nat): Completed
    requires j < |bursts| == |bytes| && Before(bursts, j) < |reqs|
    requires Before(bursts, j + 1) <= |rsps| && Before(bursts, j + 1) > 0
  {
    Completed(reqs[Before(bursts, j)], bytes[j], |bursts[j]|, rsps[Before(bursts, j + 1) - 1])
  }

  // ----- the invariant

  /** The transfers whose first burst has been granted. */
  function Opened(s: State): nat {
    s.idx + if s.bursts > 0 then 1 else 0
  }

  ghost predicate Counters(s: State, bursts: seq<seq<nat>>, bytes: seq<nat>, reqs: nat, rsps: nat) {
    && |bursts| == |bytes| && s.idx <= |bursts|
    && Before(bursts, s.idx) + s.bursts == reqs
    && (s.idx == |bursts| ==> s.bursts == 0 == s.req)
    && (s.idx < |bursts| ==> s.bursts < |bursts[s.idx]| && s.req == Sum(bursts[s.idx][..s.bursts]))
    && (s.bursts > 0 ==> s.exp == bytes[s.idx])
    && |s.compl| + |s.outst| == Opened(s) && Opened(s) <= |bursts|
    && Before(bursts, |s.compl|) + s.rec == rsps <= reqs
    && (s.outst != [] ==> s.rec < |bursts[|s.compl|]|)
  }

  ghost predicate CompletedOk(c: Completed, bursts: seq<seq<nat>>, bytes: seq<nat>, reqs: seq<nat>, rsps: seq<nat>,
                              j: nat) {
    && j < |bursts| == |bytes| && bursts[j] != [] && Before(bursts, j) < |reqs| && 0 < Before(bursts, j + 1) <= |rsps|
    && c == Expected(bursts, bytes, reqs, rsps, j)
  }

  ghost predicate Records(s: State, bursts: seq<seq<nat>>, bytes: seq<nat>, reqs: seq<nat>, rsps: seq<nat>) {
    && |bursts| == |bytes| && |s.compl| + |s.outst| <= |bursts|
    && (forall j: nat | j < |s.compl| :: CompletedOk(s.compl[j], bursts, bytes, reqs, rsps, j))
    && forall m: nat | m < |s.outst| :: OutstandingOk(s.outst[m], bursts, bytes, reqs, |s.compl| + m, s.idx)
  }

  ghost predicate OutstandingOk(o: Outstanding, bursts: seq<seq<nat>>, bytes: seq<nat>, reqs: seq<nat>, j: nat,
                                idx: nat) {
    && j < |bursts| == |bytes| && Before(bursts, j) < |reqs|
    && o == Outstanding(reqs[Before(bursts, j)], bytes[j], if j < idx then Some(|bursts[j]|) else None)
  }

  lemma {:induction false} BeforeGrows(bursts: seq<seq<nat>>, i: nat, j: nat)
    requires i <= j <= |bursts|
    ensures Before(bursts, i) <= Before(bursts, j)
    ensures i < j ==> Before(bursts, i) + |bursts[i]| <= Before(bursts, j)
  {
    if i < j {
      BeforeGrows(bursts, i, j - 1);
    }
  }

  lemma {:induction false} FlatAt(bursts: seq<seq<nat>>, i: nat, m: nat, j: nat)
    requires i < j <= |bursts| && m < |bursts[i]|
    ensures Before(bursts, i) + m < |Flat(bursts, j)| && Flat(bursts, j)[Before(bursts, i) + m] == bursts[i][m]
  {
    BeforeGrows(bursts, i, j);
    if i + 1 < j {
      BeforeGrows(bursts, i, j - 1);
      FlatAt(bursts, i, m, j - 1);
    }
  }

  lemma {:induction false} Prefix(burst: seq<nat>, bytes: nat, m: nat)
    requires Tile(burst, bytes) && m < |burst|
    ensures Sum(burst[..m]) == 0 <==> m == 0
    ensures Sum(burst[..m + 1]) == Sum(burst[..m]) + burst[m]
    ensures Sum(burst[..m + 1]) == bytes <==> m + 1 == |burst|
  {
    assert burst[..m + 1][..m] == burst[..m];
    assert burst[..|burst|] == burst;
  }

  /** The next burst belongs to the current transfer. */
  lemma {:induction false} NextBurst(s: State, bursts: seq<seq<nat>>, bytes: seq<nat>, reqs: nat, rsps: nat)
    requires Tiles(bursts, bytes) && Counters(s, bursts, bytes, reqs, rsps) && reqs < |Flat(bursts, |bursts|)|
    ensures s.idx < |bursts| && Flat(bursts, |bursts|)[reqs] == bursts[s.idx][s.bursts]
    ensures s.req == 0 <==> s.bursts == 0
    ensures s.req + bursts[s.idx][s.bursts] == Sum(bursts[s.idx][..s.bursts + 1])
    ensures s.req + bursts[s.idx][s.bursts] == bytes[s.idx] <==> s.bursts + 1 == |bursts[s.idx]|
  {
    FlatAt(bursts, s.idx, s.bursts, |bursts|);
    Prefix(bursts[s.idx], bytes[s.idx], s.bursts);
  }

  lemma {:induction false} RequestCounters(s: State, bursts: seq<seq<nat>>, bytes: seq<nat>, reqs: nat, rsps: nat,
                                           len: nat, time: nat)
    requires Tiles(bursts, bytes) && Counters(s, bursts, bytes, reqs, rsps)
    requires reqs < |Flat(bursts, |bursts|)| && len == Flat(bursts, |bursts|)[reqs]
    ensures Request(s, bytes, time, len).Some?
    ensures Counters(Request(s, bytes, time, len).value, bursts, bytes, reqs + 1, rsps)
  {
    NextBurst(s, bursts, bytes, reqs, rsps);
    assert Before(bursts, s.idx + 1) == Before(bursts, s.idx) + |bursts[s.idx]|;
    NotEmpty(bursts, bytes);
    EmptySum(bursts, s.idx + 1);
    assert s.outst == [] ==> |s.compl| == s.idx;
    hide Flat, Sum, Before, Tiles;
  }

  lemma {:induction false} NotEmpty(bursts: seq<seq<nat>>, bytes: seq<nat>)
    requires Tiles(bursts, bytes)
    ensures forall j | 0 <= j < |bursts| :: |bursts[j]| > 0
  {
  }

  lemma {:induction false} EmptySum(bursts: seq<seq<nat>>, i: nat)
    ensures i < |bursts| ==> Sum(bursts[i][..0]) == 0
  {
  }

  lemma {:induction false} RequestCompleted(s: State, bursts: seq<seq<nat>>, bytes: seq<nat>, reqs: seq<nat>,
                                            rsps: seq<nat>, len: nat, time: nat)
    requires Records(s, bursts, bytes, reqs, rsps) && Request(s, bytes, time, len).Some?
    ensures var t := Request(s, bytes, time, len).value;
            forall j: nat | j < |t.compl| :: CompletedOk(t.compl[j], bursts, bytes, reqs + [time], rsps, j)
  {
    hide Before, OutstandingOk;
    var t := Request(s, bytes, time, len).value;
    forall j: nat | j < |t.compl| ensures CompletedOk(t.compl[j], bursts, bytes, reqs + [time], rsps, j) {
      assert CompletedOk(s.compl[j], bursts, bytes, reqs, rsps, j);
    }
  }

  lemma {:induction false} RequestFew(s: State, bursts: seq<seq<nat>>, bytes: seq<nat>, reqs: nat, rsps: nat, t: State)
    requires Counters(t, bursts, bytes, reqs, rsps)
    ensures |bursts| == |bytes| && |t.compl| + |t.outst| <= |bursts|
  {
    hide Before, Sum;
  }

  lemma {:induction false} RequestRecords(s: State, bursts: seq<seq<nat>>, bytes: seq<nat>, reqs: seq<nat>,
                                          rsps: seq<nat>, len: nat, time: nat)
    requires Tiles(bursts, bytes) && Counters(s, bursts, bytes, |reqs|, |rsps|) && Records(s, bursts, bytes, reqs, rsps)
    requires |reqs| < |Flat(bursts, |bursts|)| && len == Flat(bursts, |bursts|)[|reqs|]
    ensures Request(s, bytes, time, len).Some?
    ensures Records(Request(s, bytes, time, len).value, bursts, bytes, reqs + [time], rsps)
  {
    hide Flat, Sum, Before, Tiles, CompletedOk, Request, Counters, OutstandingOk;
    RequestCounters(s, bursts, bytes, |reqs|, |rsps|, len, time);
    NextBurst(s, bursts, bytes, |reqs|, |rsps|);
    var t := Request(s, bytes, time, len).value;
    RequestCompleted(s, bursts, bytes, reqs, rsps, len, time);
    RequestFew(s, bursts, bytes, |reqs| + 1, |rsps|, t);
    forall m: nat | m < |t.outst| ensures OutstandingOk(t.outst[m], bursts, bytes, reqs + [time], |t.compl| + m,
        t.idx) {
      RequestOutstanding(s, bursts, bytes, reqs, rsps, len, time, m);
    }
  }

  lemma {:induction false} RequestOutstanding(s: State, bursts: seq<seq<nat>>, bytes: seq<nat>, reqs: seq<nat>,
                                              rsps: seq<nat>,
                                              len: nat, time: nat, m: nat)
    requires Counters(s, bursts, bytes, |reqs|, |rsps|) && Records(s, bursts, bytes, reqs, rsps)
    requires s.idx < |bursts| && (s.req == 0 <==> s.bursts == 0)
    requires s.req + len == bytes[s.idx] <==> s.bursts + 1 == |bursts[s.idx]|
    requires Request(s, bytes, time, len).Some? && m < |Request(s, bytes, time, len).value.outst|
    ensures var t := Request(s, bytes, time, len).value;
            OutstandingOk(t.outst[m], bursts, bytes, reqs + [time], |t.compl| + m, t.idx)
  {
    hide Flat, Sum, Before, CompletedOk;
    if m < |s.outst| {
      assert OutstandingOk(s.outst[m], bursts, bytes, reqs, |s.compl| + m, s.idx);
    }
  }

  lemma {:induction false} OldestIsOpen(s: State, bursts: seq<seq<nat>>, bytes: seq<nat>, reqs: nat, rsps: nat)
    requires Tiles(bursts, bytes) && Counters(s, bursts, bytes, reqs, rsps) && rsps < reqs
    ensures s.outst != []
    ensures |s.compl| == s.idx ==> s.rec + 1 < |bursts[s.idx]|
  {
    if s.outst == [] {
      BeforeGrows(bursts, s.idx, |s.compl|);
    }
  }

  lemma {:induction false} ResponseCounters(s: State, bursts: seq<seq<nat>>, bytes: seq<nat>, reqs: seq<nat>,
                                            rsps: seq<nat>, time: nat)
    requires Tiles(bursts, bytes) && Counters(s, bursts, bytes, |reqs|, |rsps|) && Records(s, bursts, bytes, reqs, rsps)
    requires |rsps| < |reqs|
    ensures Response(s, time).Some?
    ensures Counters(Response(s, time).value, bursts, bytes, |reqs|, |rsps| + 1)
  {
    OldestIsOpen(s, bursts, bytes, |reqs|, |rsps|);
    hide Flat, Sum;
    var k := |s.compl|;
    assert OutstandingOk(s.outst[0], bursts, bytes, reqs, k + 0, s.idx);
  }

  lemma {:induction false} ResponseRecords(s: State, bursts: seq<seq<nat>>, bytes: seq<nat>, reqs: seq<nat>,
                                           rsps: seq<nat>, time: nat)
    requires Tiles(bursts, bytes) && Counters(s, bursts, bytes, |reqs|, |rsps|) && Records(s, bursts, bytes, reqs, rsps)
    requires |rsps| < |reqs|
    ensures Response(s, time).Some?
    ensures Records(Response(s, time).value, bursts, bytes, reqs, rsps + [time])
  {
    OldestIsOpen(s, bursts, bytes, |reqs|, |rsps|);
    var k := |s.compl|;
    assert Before(bursts, k + 1) == Before(bursts, k) + |bursts[k]|;
    assert OutstandingOk(s.outst[0], bursts, bytes, reqs, k + 0, s.idx);
    hide Flat, Sum, Before, Tiles;
    var t := Response(s, time).value;
    forall j: nat | j < |t.compl| ensures CompletedOk(t.compl[j], bursts, bytes, reqs, rsps + [time], j) {
      if j < k {
        assert CompletedOk(s.compl[j], bursts, bytes, reqs, rsps, j);
      }
    }
    hide CompletedOk, Opened;
    forall m: nat | m < |t.outst| ensures OutstandingOk(t.outst[m], bursts, bytes, reqs, |t.compl| + m, t.idx) {
      OutstandingKept(s, bursts, bytes, reqs, rsps, time, m);
    }
  }

  lemma {:induction false} OutstandingKept(s: State, bursts: seq<seq<nat>>, bytes: seq<nat>, reqs: seq<nat>,
                                           rsps: seq<nat>, time: nat, m: nat)
    requires Records(s, bursts, bytes, reqs, rsps) && Response(s, time).Some? && m < |Response(s, time).value.outst|
    ensures var t := Response(s, time).value; OutstandingOk(t.outst[m], bursts, bytes, reqs, |t.compl| + m, t.idx)
  {
    hide Before, CompletedOk;
    var d := |Response(s, time).value.compl| - |s.compl|;
    assert OutstandingOk(s.outst[m + d], bursts, bytes, reqs, |s.compl| + (m + d), s.idx);
  }

  lemma {:induction false} TraceLast(bursts: seq<seq<nat>>, lines: seq<Line>)
    requires TraceOk(bursts, lines) && lines != []
    ensures var front, last := lines[..|lines| - 1], lines[|lines| - 1];
            && TraceOk(bursts, front) && |ResponseTimes(front)| <= |RequestTimes(front)|
            && RequestTimes(lines) == RequestTimes(front) + (if last.req.Some? then [last.time] else [])
            && ResponseTimes(lines) == ResponseTimes(front) + (if last.rsp then [last.time] else [])
            && (last.req.Some? ==> |RequestTimes(front)| < |Flat(bursts, |bursts|)|
                                   && last.req.value == Flat(bursts, |bursts|)[|RequestTimes(front)|])
            && |ResponseTimes(lines)| <= |RequestTimes(lines)|
  {
  }

  lemma {:induction false} StepKeeps(s: State, bursts: seq<seq<nat>>, bytes: seq<nat>, reqs: seq<nat>,
                                     rsps: seq<nat>, line: Line)
    requires Tiles(bursts, bytes) && Counters(s, bursts, bytes, |reqs|, |rsps|) && Records(s, bursts, bytes, reqs, rsps)
    requires line.req.Some? ==> |reqs| < |Flat(bursts, |bursts|)| && line.req.value == Flat(bursts, |bursts|)[|reqs|]
    requires line.rsp ==> |rsps| < |reqs| + if line.req.Some? then 1 else 0
    ensures var reqs' := reqs + if line.req.Some? then [line.time] else [];
            var rsps' := rsps + if line.rsp then [line.time] else [];
            && Step(s, bytes, line).Some?
            && Counters(Step(s, bytes, line).value, bursts, bytes, |reqs'|, |rsps'|)
            && Records(Step(s, bytes, line).value, bursts, bytes, reqs', rsps')
  {
    hide Tiles, Counters, Records, Flat, Request, Response;
    var s1, reqs' := s, reqs + if line.req.Some? then [line.time] else [];
    if line.req.Some? {
      RequestCounters(s, bursts, bytes, |reqs|, |rsps|, line.req.value, line.time);
      RequestRecords(s, bursts, bytes, reqs, rsps, line.req.value, line.time);
      s1 := Request(s, bytes, line.time, line.req.value).value;
    } else {
      assert reqs' == reqs;
    }
    if line.rsp {
      ResponseCounters(s1, bursts, bytes, reqs', rsps, line.time);
      ResponseRecords(s1, bursts, bytes, reqs', rsps, line.time);
    } else {
      assert rsps + [] == rsps;
    }
  }

  /**
   Whatever the interleaving of bursts and responses, the loop over the trace does not raise and its
   records are exact.
   */
  lemma {:induction false} EvaluateKeeps(bursts: seq<seq<nat>>, bytes: seq<nat>, lines: seq<Line>)
    requires Tiles(bursts, bytes) && TraceOk(bursts, lines)
    ensures var e := Evaluate(bytes, lines);
            && e.Some?
            && Counters(e.value, bursts, bytes, |RequestTimes(lines)|, |ResponseTimes(lines)|)
            && Records(e.value, bursts, bytes, RequestTimes(lines), ResponseTimes(lines))
    decreases |lines|
  {
    hide Tiles, Counters, Records, TraceOk, Flat, Step;
    if lines == [] {
      StartCounters(bursts, bytes);
    } else {
      var front, last := lines[..|lines| - 1], lines[|lines| - 1];
      TraceLast(bursts, lines);
      hide RequestTimes, ResponseTimes;
      EvaluateKeeps(bursts, bytes, front);
      StepKeeps(Evaluate(bytes, front).value, bursts, bytes, RequestTimes(front), ResponseTimes(front), last);
    }
  }

  lemma {:induction false} StartCounters(bursts: seq<seq<nat>>, bytes: seq<nat>)
    requires Tiles(bursts, bytes)
    ensures Counters(INIT, bursts, bytes, 0, 0) && Records(INIT, bursts, bytes, [], [])
  {
    EmptySum(bursts, 0);
  }

  /**
   Transfers complete in issue order: the completed ones are the first transfers
   whose bursts have all been answered, each starting with its first request and
   ending with its last response.
   */
  lemma {:induction false} TransfersInOrder(bursts: seq<seq<nat>>, bytes: seq<nat>, lines: seq<Line>, j: nat)
    requires Tiles(bursts, bytes) && TraceOk(bursts, lines) && j < |bursts|
    ensures var e := Evaluate(bytes, lines);
            && e.Some?
            && (j < |e.value.compl| <==> Before(bursts, j + 1) <= |ResponseTimes(lines)|)
            && (j < |e.value.compl| ==>
                  CompletedOk(e.value.compl[j], bursts, bytes, RequestTimes(lines), ResponseTimes(lines), j))
  {
    EvaluateKeeps(bursts, bytes, lines);
    var s := Evaluate(bytes, lines).value;
    if j < |s.compl| {
      BeforeGrows(bursts, j, |s.compl|);
    } else {
      AllAnswered(s, bursts, bytes, |RequestTimes(lines)|, |ResponseTimes(lines)|, j);
    }
  }

  lemma {:induction false} AllAnswered(s: State, bursts: seq<seq<nat>>, bytes: seq<nat>, reqs: nat, rsps: nat, j: nat)
    requires Tiles(bursts, bytes) && Counters(s, bursts, bytes, reqs, rsps) && |s.compl| <= j < |bursts|
    ensures rsps < Before(bursts, j + 1)
  {
    var k := |s.compl|;
    BeforeGrows(bursts, k + 1, j + 1);
    if s.outst == [] {
      BeforeGrows(bursts, s.idx, k);
    }
  }

  // ----- times

  ghost predicate Nondecreasing(lines: seq<Line>) {
    forall i, j | 0 <= i < j < |lines| :: lines[i].time <= lines[j].time
  }

  ghost predicate Sorted(s: seq<nat>, last: nat) {
    (forall i, j | 0 <= i < j < |s| :: s[i] <= s[j]) && forall i | 0 <= i < |s| :: s[i] <= last
  }

  ghost predicate Causal(reqs: seq<nat>, rsps: seq<nat>) {
    |rsps| <= |reqs| && forall p | 0 <= p < |rsps| :: reqs[p] <= rsps[p]
  }

  lemma {:induction false} TimesInOrder(bursts: seq<seq<nat>>, lines: seq<Line>)
    requires TraceOk(bursts, lines) && Nondecreasing(lines)
    ensures var last := if lines == [] then 0 else lines[|lines| - 1].time;
            Sorted(RequestTimes(lines), last) && Sorted(ResponseTimes(lines), last)
    ensures Causal(RequestTimes(lines), ResponseTimes(lines))
    decreases |lines|
  {
    if lines != [] {
      var front := lines[..|lines| - 1];
      var last := lines[|lines| - 1];
      TraceLast(bursts, lines);
      TimesInOrder(bursts, front);
      var before := if front == [] then 0 else front[|front| - 1].time;
      var reqs, rsps := RequestTimes(front), ResponseTimes(front);
      hide TraceOk, RequestTimes, ResponseTimes, Sorted, Causal;
      SortedNext(reqs, before, last.time, last.req.Some?);
      SortedNext(rsps, before, last.time, last.rsp);
      CausalNext(reqs, rsps, last.time, last.req.Some?, last.rsp);
    }
  }

  lemma {:induction false} SortedNext(s: seq<nat>, before: nat, time: nat, more: bool)
    requires Sorted(s, before) && before <= time
    ensures Sorted(s + if more then [time] else [], time)
  {
  }

  lemma {:induction false} CausalNext(reqs: seq<nat>, rsps: seq<nat>, time: nat, req: bool, rsp: bool)
    requires Causal(reqs, rsps) && Sorted(reqs + (if req then [time] else []), time)
    requires |rsps| + (if rsp then 1 else 0) <= |reqs| + if req then 1 else 0
    ensures Causal(reqs + (if req then [time] else []), rsps + if rsp then [time] else [])
  {
  }

  /** Completed transfers start and end in issue order. */
  lemma {:induction false} CompletedOrdered(bursts: seq<seq<nat>>, bytes: seq<nat>, lines: seq<Line>)
    requires Tiles(bursts, bytes) && TraceOk(bursts, lines) && Nondecreasing(lines)
    ensures Evaluate(bytes, lines).Some? && Ordered(Evaluate(bytes, lines).value.compl)
  {
    EvaluateKeeps(bursts, bytes, lines);
    TimesInOrder(bursts, lines);
    var compl, reqs, rsps := Evaluate(bytes, lines).value.compl, RequestTimes(lines), ResponseTimes(lines);
    hide TraceOk, RequestTimes, ResponseTimes, Evaluate, Counters, Tiles, Before, CompletedOk, Sorted, Causal;
    var last := if lines == [] then 0 else lines[|lines| - 1].time;
    forall j: nat | j < |compl| ensures compl[j].tstart <= compl[j].tend {
      PairOrdered(compl[j], compl[j], bursts, bytes, reqs, rsps, last, j, j);
    }
    forall i: nat, j: nat | i < j < |compl| ensures compl[i].tstart <= compl[j].tstart
        && compl[i].tend <= compl[j].tend {
      PairOrdered(compl[i], compl[j], bursts, bytes, reqs, rsps, last, i, j);
    }
  }

  lemma {:induction false} PairOrdered(c: Completed, d: Completed, bursts: seq<seq<nat>>, bytes: seq<nat>,
                                       reqs: seq<nat>, rsps: seq<nat>,
                                       last: nat, i: nat, j: nat)
    requires Sorted(reqs, last) && Sorted(rsps, last) && Causal(reqs, rsps) && i <= j
    requires CompletedOk(c, bursts, bytes, reqs, rsps, i) && CompletedOk(d, bursts, bytes, reqs, rsps, j)
    ensures c.tstart <= d.tstart && c.tend <= d.tend && c.tstart <= c.tend
  {
    BeforeGrows(bursts, i, j);
    BeforeGrows(bursts, i + 1, j + 1);
    BeforeGrows(bursts, i, i + 1);
    hide Before;
    assert reqs[Before(bursts, i)] <= reqs[Before(bursts, i + 1) - 1] <= rsps[Before(bursts, i + 1) - 1];
  }

  // ----- active cycles

  /** Lines 740-750: the cycles counted for the transfers in `compl`. */
  function Active(compl: seq<Completed>): int {
    if compl == [] then 0
    else
      var front, c := compl[..|compl| - 1], compl[|compl| - 1];
      var prevEnd := if front == [] then 0 else front[|front| - 1].tend;
      Active(front) + (c.tend - if c.tstart > prevEnd then c.tstart else prevEnd)
  }

  method ActiveCycles(compl: seq<Completed>) returns (active: int, bytes: nat)
    ensures active == Active(compl) && bytes == Sum(Sizes(compl))
  {
    var prevEnd: int := 0;
    active, bytes := 0, 0;
    for i := 0 to |compl|
      invariant active == Active(compl[..i]) && bytes == Sum(Sizes(compl[..i]))
      invariant prevEnd == if i == 0 then 0 else compl[i - 1].tend
    {
      var start: int, end: int := compl[i].tstart, compl[i].tend;
      assert compl[..i + 1][..i] == compl[..i];
      assert Sizes(compl[..i + 1])[..i] == Sizes(compl[..i]);
      if start > prevEnd {
        active := active + (end - start);
      } else {
        active := active + (end - prevEnd);
      }
      prevEnd := end;
      bytes := bytes + compl[i].bytes;
    }
    assert compl[..|compl|] == compl;
  }

  function Sizes(compl: seq<Completed>): (b: seq<nat>)
    ensures |b| == |compl|
  {
    seq(|compl|, i requires 0 <= i < |compl| => compl[i].bytes)
  }

  lemma {:induction false} ActiveStep(compl: seq<Completed>, k: nat)
    requires |compl| == k + 1
    ensures Active(compl) == Active(compl[..k])
                             + (compl[k].tend - var prevEnd := if k == 0 then 0 else compl[k - 1].tend;
                                                if compl[k].tstart > prevEnd then compl[k].tstart else prevEnd)
  {
  }

  lemma {:induction false} OrderedFront(compl: seq<Completed>, k: nat)
    requires Ordered(compl) && k <= |compl|
    ensures Ordered(compl[..k])
  {
  }

  /** In issue order the cycles counted are those in which some transfer is active. */
  lemma {:induction false} ActiveIsBusy(compl: seq<Completed>)
    requires Ordered(compl)
    ensures Active(compl) == |Busy(compl)|
  {
    if compl == [] {
      assert Busy(compl) == {};
    } else {
      var k := |compl| - 1;
      OrderedFront(compl, k);
      hide *;
      ActiveIsBusy(compl[..k]);
      ActiveStep(compl, k);
      OneMore(compl, k);
      assert compl[..k + 1] == compl;
    }
  }

  /** Transfers start and end in issue order. */
  ghost predicate Ordered(compl: seq<Completed>) {
    && (forall j | 0 <= j < |compl| :: compl[j].tstart <= compl[j].tend)
    && forall i, j | 0 <= i < j < |compl| :: compl[i].tstart <= compl[j].tstart && compl[i].tend <= compl[j].tend
  }

  function Cycles(start: nat, end: nat): (c: set<nat>)
    ensures forall t: nat :: t in c <==> start <= t < end
    decreases end
  {
    if start >= end then {} else Cycles(start, end - 1) + {end - 1}
  }

  /** The cycles in which some transfer is active. */
  function Busy(compl: seq<Completed>): set<nat> {
    if compl == [] then {}
    else Busy(compl[..|compl| - 1]) + Cycles(compl[|compl| - 1].tstart, compl[|compl| - 1].tend)
  }

  lemma {:induction false} CyclesCount(start: nat, end: nat)
    requires start <= end
    ensures |Cycles(start, end)| == end - start
    decreases end - start
  {
    if start < end {
      CyclesCount(start, end - 1);
    }
  }

  lemma {:induction false} BusyBefore(compl: seq<Completed>, i: nat)
    requires Ordered(compl) && 0 < i <= |compl|
    ensures forall t | t in Busy(compl[..i]) :: t < compl[i - 1].tend
    ensures forall t | compl[i - 1].tstart <= t < compl[i - 1].tend :: t in Busy(compl[..i])
  {
    assert compl[..i][..i - 1] == compl[..i - 1];
    if i > 1 {
      BusyBefore(compl, i - 1);
    }
  }

  /** The cycles of a transfer that ends no earlier than all before it. */
  lemma {:induction false} CyclesAdded(busy: set<nat>, prevStart: nat, prevEnd: nat, start: nat, end: nat)
    requires prevStart <= start && prevEnd <= end && start <= end
    requires forall t | t in busy :: t < prevEnd
    requires forall t: nat | prevStart <= t < prevEnd :: t in busy
    ensures var from := if start > prevEnd then start else prevEnd;
            |busy + Cycles(start, end)| == |busy| + (end - from)
  {
    var from := if start > prevEnd then start else prevEnd;
    var more := Cycles(from, end);
    CyclesCount(from, end);
    assert busy + Cycles(start, end) == busy + more;
    assert busy !! more;
  }

  lemma {:induction false} BusyStep(compl: seq<Completed>, i: nat)
    requires i < |compl|
    ensures Busy(compl[..i + 1]) == Busy(compl[..i]) + Cycles(compl[i].tstart, compl[i].tend) && Busy([]) == {}
  {
    assert compl[..i + 1][..i] == compl[..i];
  }

  /** A further transfer adds the cycles after the end of the previous one. */
  lemma {:induction false} OneMore(compl: seq<Completed>, i: nat)
    requires Ordered(compl) && i < |compl|
    ensures var prevEnd := if i == 0 then 0 else compl[i - 1].tend;
            var from := if compl[i].tstart > prevEnd then compl[i].tstart else prevEnd;
            from <= compl[i].tend && |Busy(compl[..i + 1])| == |Busy(compl[..i])| + (compl[i].tend - from)
  {
    BusyStep(compl, i);
    assert compl[i].tstart <= compl[i].tend;
    if i == 0 {
      assert compl[..0] == [];
      CyclesAdded({}, 0, 0, compl[0].tstart, compl[0].tend);
    } else {
      assert compl[i - 1].tstart <= compl[i].tstart && compl[i - 1].tend <= compl[i].tend;
      BusyBefore(compl, i);
      hide Ordered, Busy, Cycles;
      CyclesAdded(Busy(compl[..i]), compl[i - 1].tstart, compl[i - 1].tend, compl[i].tstart, compl[i].tend);
    }
  }

  // ----- eval_dma_metrics: the whole function

  /** A transfer with its cycles and, unless it is empty, its bandwidth. */
  datatype Rated = Rated(transfer: Completed, cycles: int, bw: Option<real>)

  datatype Metrics = Metrics(transfers: seq<Rated>, aggregate: Option<real>)

  /** Lines 735-737; `None` is a division by zero. */
  function Rate(c: Completed): Option<Rated> {
    var cycles: int := c.tend - c.tstart;
    if c.bytes == 0 then Some(Rated(c, cycles, None))
    else if cycles == 0 then None
    else Some(Rated(c, cycles, Some(c.bytes as real / cycles as real)))
  }

  function Rates(compl: seq<Completed>): Option<seq<Rated>> {
    if compl == [] then Some([])
    else
      var front :- Rates(compl[..|compl| - 1]);
      var last :- Rate(compl[|compl| - 1]);
      Some(front + [last])
  }

  function Evaluated(bytes: seq<nat>, lines: seq<Line>): Option<Metrics> {
    var s :- Evaluate(bytes, lines);
    var transfers :- Rates(s.compl);
    var active := Active(s.compl);
    Some(Metrics(transfers, if active != 0 then Some(Sum(Sizes(s.compl)) as real / active as real) else None))
  }

  lemma {:induction false} RatesRaise(compl: seq<Completed>, i: nat)
    requires i <= |compl| && Rates(compl[..i]).None?
    ensures Rates(compl).None?
    decreases |compl|
  {
    if i == |compl| {
      assert compl[..i] == compl;
    } else {
      assert compl[..|compl| - 1][..i] == compl[..i];
      RatesRaise(compl[..|compl| - 1], i);
    }
  }

  /** eval_dma_metrics; `None` once it raises. */
  method EvalDmaMetrics(trans: seq<Trans>, lines: seq<Line>) returns (r: Option<Metrics>)
    ensures r == Evaluated(Bytes(trans), lines)
  {
    hide Evaluate, Active, Sum, Bytes;
    var s := EvaluateTrace(trans, lines);
    if s.None? {
      return None;
    }
    var compl := s.value.compl;
    var transfers: seq<Rated> := [];
    for i := 0 to |compl|
      invariant Rates(compl[..i]) == Some(transfers)
    {
      assert compl[..i + 1][..i] == compl[..i];
      var rated := Rate(compl[i]);
      if rated.None? {
        RatesRaise(compl, i + 1);
        return None;
      }
      transfers := transfers + [rated.value];
    }
    assert compl[..|compl|] == compl;
    var active, n := ActiveCycles(compl);
    r := Some(Metrics(transfers, if active != 0 then Some(n as real / active as real) else None));
  }

  lemma {:induction false} RatesWork(compl: seq<Completed>)
    ensures Rates(compl).Some? <==> forall j | 0 <= j < |compl| ::
              compl[j].bytes == 0 || compl[j].tend != compl[j].tstart
    ensures Rates(compl).Some? ==> |Rates(compl).value| == |compl|
  {
    if compl != [] {
      RatesWork(compl[..|compl| - 1]);
    }
  }

  /** Transfer `j` has been answered completely. */
  ghost predicate Finished(bursts: seq<seq<nat>>, lines: seq<Line>, j: nat) {
    j < |bursts| && Before(bursts, j + 1) <= |ResponseTimes(lines)|
  }

  /** The last response of transfer `j` is later than its first request. */
  ghost predicate TakesTime(bursts: seq<seq<nat>>, lines: seq<Line>, j: nat)
    requires Finished(bursts, lines, j)
  {
    && 0 < Before(bursts, j + 1) && Before(bursts, j) < |RequestTimes(lines)|
    && RequestTimes(lines)[Before(bursts, j)] < ResponseTimes(lines)[Before(bursts, j + 1) - 1]
  }

  /**
   On a trace with nondecreasing times whose bursts tile the transfers the metrics
   are computed exactly when every finished transfer that moves anything ends later
   than it starts: if its last response comes in the cycle of its first request the
   bandwidth is a division by zero.
   */
  lemma {:induction false} MetricsExactly(bursts: seq<seq<nat>>, bytes: seq<nat>, lines: seq<Line>)
    requires Tiles(bursts, bytes) && TraceOk(bursts, lines) && Nondecreasing(lines)
    ensures Evaluated(bytes, lines).Some?
            <==> forall j: nat | Finished(bursts, lines, j) :: bytes[j] == 0 || TakesTime(bursts, lines, j)
  {
    EvaluateKeeps(bursts, bytes, lines);
    CompletedOrdered(bursts, bytes, lines);
    var compl := Evaluate(bytes, lines).value.compl;
    RatesWork(compl);
    CompletedCount(bursts, bytes, lines);
    hide Evaluate, Rates, Active, Counters, Records, TraceOk, Nondecreasing, Busy;
    forall j: nat | Finished(bursts, lines, j)
      ensures j < |compl| && compl[j].bytes == bytes[j]
      ensures TakesTime(bursts, lines, j) <==> compl[j].tend != compl[j].tstart
    {
      FinishedTransfer(bursts, bytes, lines, j);
      assert compl[j].tstart <= compl[j].tend;
    }
    forall j: nat | j < |compl| ensures Finished(bursts, lines, j) {
      FinishedTransfer(bursts, bytes, lines, j);
    }
  }

  lemma {:induction false} CompletedCount(bursts: seq<seq<nat>>, bytes: seq<nat>, lines: seq<Line>)
    requires Tiles(bursts, bytes) && TraceOk(bursts, lines)
    ensures Evaluate(bytes, lines).Some? && |Evaluate(bytes, lines).value.compl| <= |bursts|
  {
    EvaluateKeeps(bursts, bytes, lines);
    hide Evaluate, Records, TraceOk;
  }

  lemma {:induction false} FinishedTransfer(bursts: seq<seq<nat>>, bytes: seq<nat>, lines: seq<Line>, j: nat)
    requires Tiles(bursts, bytes) && TraceOk(bursts, lines) && Nondecreasing(lines) && j < |bursts|
    ensures Evaluate(bytes, lines).Some?
    ensures var compl := Evaluate(bytes, lines).value.compl;
            && (Finished(bursts, lines, j) <==> j < |compl|)
            && (j < |compl| ==>
                  compl[j].bytes == bytes[j] && (TakesTime(bursts, lines, j) <==> compl[j].tstart < compl[j].tend))
  {
    TransfersInOrder(bursts, bytes, lines, j);
    NotEmpty(bursts, bytes);
    hide Evaluate, TraceOk, Nondecreasing, Sum;
  }

  /** The bandwidth, given unless the transfer moves nothing, is what it moves over its cycles. */
  ghost predicate BandwidthIs(r: Rated, bytes: nat) {
    && (r.bw.None? <==> bytes == 0)
    && (r.bw.Some? ==> r.bw.value * r.cycles as real == bytes as real)
  }

  lemma {:induction false} RateMeans(c: Completed)
    requires Rate(c).Some?
    ensures var r := Rate(c).value;
            && r.transfer == c && r.cycles == c.tend - c.tstart
            && BandwidthIs(r, c.bytes)
  {
  }

  lemma {:induction false} RatesAt(compl: seq<Completed>, j: nat)
    requires Rates(compl).Some? && j < |compl|
    ensures |Rates(compl).value| == |compl| && Rate(compl[j]) == Some(Rates(compl).value[j])
  {
    hide Rate;
    RatesWork(compl);
    var front := compl[..|compl| - 1];
    if j < |front| {
      RatesAt(front, j);
    } else {
      RatesWork(front);
    }
  }

  lemma {:induction false} ComputedRates(bytes: seq<nat>, lines: seq<Line>)
    requires Evaluated(bytes, lines).Some?
    ensures Evaluate(bytes, lines).Some?
    ensures Rates(Evaluate(bytes, lines).value.compl) == Some(Evaluated(bytes, lines).value.transfers)
  {
    hide Evaluate, Rates, Active, Sum;
  }

  /**
   When they are computed, there is one entry for every finished transfer: its
   cycles run from its first request to its last response, and its bandwidth is
   what it moves over that time.
   */
  lemma {:induction false} TransferRated(bursts: seq<seq<nat>>, bytes: seq<nat>, lines: seq<Line>, j: nat)
    requires Tiles(bursts, bytes) && TraceOk(bursts, lines) && Evaluated(bytes, lines).Some? && j < |bursts|
    ensures var (rated, reqs, rsps) := (Evaluated(bytes, lines).value.transfers, RequestTimes(lines),
                                        ResponseTimes(lines));
            && (j < |rated| <==> Finished(bursts, lines, j))
            && (j < |rated| ==>
                  && Before(bursts, j) < |reqs| && 0 < Before(bursts, j + 1) <= |rsps|
                  && rated[j].transfer == Expected(bursts, bytes, reqs, rsps, j)
                  && rated[j].cycles + reqs[Before(bursts, j)] == rsps[Before(bursts, j + 1) - 1]
                  && BandwidthIs(rated[j], bytes[j]))
  {
    TransfersInOrder(bursts, bytes, lines, j);
    ComputedRates(bytes, lines);
    var compl := Evaluate(bytes, lines).value.compl;
    RatesWork(compl);
    hide Evaluate, Rates, Rate, Before, Tiles, TraceOk, Evaluated, BandwidthIs, RequestTimes, ResponseTimes;
    if j < |compl| {
      RatesAt(compl, j);
      RateMeans(compl[j]);
    }
  }

  /**
   When they are computed, the aggregate bandwidth is the bytes moved over the cycles in which some
   transfer is active.
   */
  lemma {:induction false} AggregateBandwidth(bursts: seq<seq<nat>>, bytes: seq<nat>, lines: seq<Line>)
    requires Tiles(bursts, bytes) && TraceOk(bursts, lines) && Nondecreasing(lines) && Evaluated(bytes, lines).Some?
    ensures Evaluate(bytes, lines).Some?
    ensures var compl, m := Evaluate(bytes, lines).value.compl, Evaluated(bytes, lines).value;
            && |m.transfers| == |compl| <= |bytes| && Sizes(compl) == bytes[..|compl|]
            && (m.aggregate.Some? <==> |Busy(compl)| != 0)
            && (m.aggregate.Some? ==> m.aggregate.value == Sum(bytes[..|compl|]) as real / |Busy(compl)| as real)
  {
    CompletedOrdered(bursts, bytes, lines);
    CompletedCount(bursts, bytes, lines);
    var compl := Evaluate(bytes, lines).value.compl;
    ActiveIsBusy(compl);
    RatesWork(compl);
    hide Evaluate, Rates, Active, Busy, Sum, TraceOk, Nondecreasing;
    forall j: nat | j < |compl| ensures Sizes(compl)[j] == bytes[j] {
      TransfersInOrder(bursts, bytes, lines, j);
    }
    assert Sizes(compl) == bytes[..|compl|];
  }

  lemma {:induction false} OneBurst()
    ensures Tiles([[8]], [8]) && Flat([[8]], 1) == [8]
  {
    assert [8][..0] == [];
    assert Sum([]) == 0;
    assert Sum([8]) == 8;
    assert Flat([[8]], 0) == [];
  }

  lemma {:induction false} OneLine(line: Line)
    requires line == Line(7, Some(8), true)
    ensures Requests([line]) == [8] && ResponseTimes([line]) == [7] && Requests([]) == [] && ResponseTimes([]) == []
  {
    assert [line][..0] == [];
    assert Requests([]) == [] && ResponseTimes([]) == [];
  }

  lemma {:induction false} OneLineOk(line: Line)
    requires line == Line(7, Some(8), true)
    ensures TraceOk([[8]], [line]) && Nondecreasing([line])
  {
    OneBurst();
    OneLine(line);
    hide Requests, ResponseTimes, Flat, Tiles;
    assert [line][..0] == [];
    assert TraceOk([[8]], []);
  }

  lemma {:induction false} OneTransfer(line: Line)
    requires line == Line(7, Some(8), true)
    ensures Evaluate([8], [line]).Some? && Evaluate([8], [line]).value.compl == [Completed(7, 8, 1, 7)]
  {
    assert [line][..0] == [];
    assert Evaluate([8], []) == Some(INIT);
    var s := Request(INIT, [8], 7, 8);
    assert [] + [Outstanding(7, 8, None)] == [Outstanding(7, 8, None)];
    assert [Outstanding(7, 8, None)][0 := Outstanding(7, 8, Some(1))] == [Outstanding(7, 8, Some(1))];
    assert s == Some(State([], [Outstanding(7, 8, Some(1))], 1, 8, 0, 0, 0));
    assert Response(s.value, 7).Some? && Response(s.value, 7).value.compl == [Completed(7, 8, 1, 7)];
  }

  /** One burst that is requested and answered in the same cycle. */
  lemma {:induction false} SameCycleRaises()
    ensures var lines := [Line(7, Some(8), true)];
            && Tiles([[8]], [8]) && TraceOk([[8]], lines) && Nondecreasing(lines)
            && Evaluate([8], lines).Some? && Evaluated([8], lines).None?
  {
    var line := Line(7, Some(8), true);
    OneBurst();
    OneLineOk(line);
    OneTransfer(line);
    hide Evaluate, TraceOk, Nondecreasing, Tiles;
    assert Rate(Completed(7, 8, 1, 7)).None?;
    RatesWork([Completed(7, 8, 1, 7)]);
    assert [Completed(7, 8, 1, 7)][0].bytes == 8;
  }
}
