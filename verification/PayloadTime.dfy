/** How long a generated payload takes on the gateware, against the host's estimate. */
module PayloadTime {
  import opened Isa
  import opened Executor
  import opened Program
  import opened Layouts
  import opened Refinement
  import opened PayloadCompiler
  import opened PayloadTraces
  import opened PayloadWords
  import opened PayloadExecution
  import opened PayloadDelivery
  import opened CycleEstimate
  import opened Wrappers

  // ------------------------------------------------------- Parts of a payload

  predicate AllLoops(p: seq<Instruction>) { forall k :: 0 <= k < |p| ==> PlainOrLoop(p, k) }

  /** A part without a STOP, how often it jumps, and whether its jumps miss nothing. */
  predicate Part(p: seq<Instruction>, jumps: nat, exact: bool) {
    AllLoops(p) && TakenJumps(p, |p|) == jumps && (OneWordLoops(p, |p|) <==> exact)
  }

  /** A LOOP jumps over the same instructions wherever its part stands. */
  lemma SameBody(a: seq<Instruction>, b: seq<Instruction>, k: nat)
    requires k < |b| && b[k].Loop? && b[k].jump <= k
    ensures LoopedBy(a + b, |a| + k) == LoopedBy(b, k)
  {
    var p, j := a + b, |a| + k;
    assert p[j - p[j].jump..j] == b[k - b[k].jump..k];
  }

  lemma SameBodyFirst(a: seq<Instruction>, b: seq<Instruction>, k: nat)
    requires k < |a| && a[k].Loop? && a[k].jump <= k
    ensures LoopedBy(a + b, k) == LoopedBy(a, k)
  {
    assert (a + b)[k - a[k].jump..k] == a[k - a[k].jump..k];
  }

  lemma LoopShifts(a: seq<Instruction>, b: seq<Instruction>, k: nat)
    requires k < |b| && PlainOrLoop(b, k)
    ensures PlainOrLoop(a + b, |a| + k) && OneWordLoop(a + b, |a| + k) == OneWordLoop(b, k)
  {
    assert (a + b)[|a| + k] == b[k];
    if b[k].Loop? {
      SameBody(a, b, k);
    }
  }

  lemma LoopStays(a: seq<Instruction>, b: seq<Instruction>, k: nat)
    requires k < |a| && PlainOrLoop(a, k)
    ensures PlainOrLoop(a + b, k) && OneWordLoop(a + b, k) == OneWordLoop(a, k)
  {
    assert (a + b)[k] == a[k];
    if a[k].Loop? {
      SameBodyFirst(a, b, k);
    }
  }

  lemma LoopInBoth(a: seq<Instruction>, b: seq<Instruction>, j: nat)
    requires AllLoops(a) && AllLoops(b) && j < |a + b|
    ensures PlainOrLoop(a + b, j)
    ensures j < |a| ==> OneWordLoop(a + b, j) == OneWordLoop(a, j)
    ensures j >= |a| ==> OneWordLoop(a + b, j) == OneWordLoop(b, j - |a|)
  {
    if j < |a| {
      LoopStays(a, b, j);
    } else {
      LoopShifts(a, b, j - |a|);
    }
  }

  lemma AllLoopsConcat(a: seq<Instruction>, b: seq<Instruction>)
    requires AllLoops(a) && AllLoops(b)
    ensures AllLoops(a + b)
  {
    forall j | 0 <= j < |a + b|
      ensures PlainOrLoop(a + b, j)
    {
      LoopInBoth(a, b, j);
    }
  }

  lemma OneWordBoth(a: seq<Instruction>, b: seq<Instruction>)
    requires AllLoops(a) && AllLoops(b) && OneWordLoops(a, |a|) && OneWordLoops(b, |b|)
    ensures OneWordLoops(a + b, |a + b|)
  {
    forall j | 0 <= j < |a + b|
      ensures OneWordLoop(a + b, j)
    {
      LoopInBoth(a, b, j);
    }
  }

  lemma OneWordEither(a: seq<Instruction>, b: seq<Instruction>)
    requires AllLoops(a) && AllLoops(b) && OneWordLoops(a + b, |a + b|)
    ensures OneWordLoops(a, |a|) && OneWordLoops(b, |b|)
  {
    forall k | 0 <= k < |a| ensures OneWordLoop(a, k) { LoopInBoth(a, b, k); }
    forall k | 0 <= k < |b| ensures OneWordLoop(b, k) { LoopInBoth(a, b, |a| + k); }
  }

  lemma {:induction false} TakenFirst(a: seq<Instruction>, b: seq<Instruction>, k: nat)
    requires k <= |a|
    ensures TakenJumps(a + b, k) == TakenJumps(a, k)
  {
    if k > 0 {
      TakenFirst(a, b, k - 1);
    }
  }

  lemma {:induction false} TakenConcat(a: seq<Instruction>, b: seq<Instruction>, k: nat)
    requires k <= |b|
    ensures TakenJumps(a + b, |a| + k) == TakenJumps(a, |a|) + TakenJumps(b, k)
  {
    if k == 0 {
      TakenFirst(a, b, |a|);
    } else {
      TakenConcat(a, b, k - 1);
    }
  }

  lemma PartConcat(a: seq<Instruction>, m: nat, x: bool, b: seq<Instruction>, n: nat, y: bool)
    requires Part(a, m, x) && Part(b, n, y)
    ensures Part(a + b, m + n, x && y)
  {
    AllLoopsConcat(a, b);
    TakenConcat(a, b, |b|);
    if x && y {
      OneWordBoth(a, b);
    } else if OneWordLoops(a + b, |a + b|) {
      OneWordEither(a, b);
    }
  }

  lemma {:induction false} NoneTaken(p: seq<Instruction>, k: nat)
    requires k <= |p| && AllPlainInstr(p)
    ensures TakenJumps(p, k) == 0
  {
    if k > 0 {
      NoneTaken(p, k - 1);
    }
  }

  lemma PlainPart(p: seq<Instruction>)
    requires AllPlainInstr(p)
    ensures Part(p, 0, true)
  {
    NoneTaken(p, |p|);
  }

  // ------------------------------------------------------- Loops

  /** The LOOP behind a body. */
  lemma LoopBehind(body: seq<Instruction>, count: nat)
    requires AllPlainInstr(body) && |body| < 0x2_0000 && count <= COUNT_MAX
    ensures var p := OneLoop(body, count);
            && PlainOrLoop(p, |body|) && p[|body|] == Loop(count, |body|)
            && (OneWordLoop(p, |body|) <==> count == 0 || Excess(body) == 0)
  {
    var p, n := OneLoop(body, count), |body|;
    CountFits(count);
    assert p[n - n..n] == body;
    assert LoopedBy(p, n) == body;
  }

  lemma BodyBefore(body: seq<Instruction>, i: Instruction)
    requires AllPlainInstr(body)
    ensures TakenJumps(body + [i], |body|) == 0
    ensures forall k :: 0 <= k < |body| ==> PlainOrLoop(body + [i], k) && OneWordLoop(body + [i], k)
  {
    TakenFirst(body, [i], |body|);
    NoneTaken(body, |body|);
    forall k | 0 <= k < |body|
      ensures PlainOrLoop(body + [i], k) && OneWordLoop(body + [i], k)
    {
      assert (body + [i])[k] == body[k];
    }
  }

  lemma BlockPart(body: seq<Instruction>, count: nat)
    requires AllPlainInstr(body) && |body| < 0x2_0000 && count <= COUNT_MAX
    ensures Part(OneLoop(body, count), count, count == 0 || Excess(body) == 0)
  {
    LoopBehind(body, count);
    BodyBefore(body, Loop(count, |body|));
  }

  lemma NoJumpsSnoc(counts: seq<nat>, one: bool, n: nat)
    requires |counts| == n + 1
    ensures (NoJumps(counts) || one) == ((NoJumps(counts[..n]) || one) && (counts[n] == 0 || one))
  {
  }

  lemma BlocksParts(body: seq<Instruction>, counts: seq<nat>, n: nat) returns (front: seq<Instruction>, block: seq<Instruction>)
    requires |counts| == n + 1
    ensures front == Blocks(body, counts[..n]) && block == OneLoop(body, counts[n])
    ensures Blocks(body, counts) == front + block && Jumps(counts) == Jumps(counts[..n]) + counts[n]
  {
    front, block := Blocks(body, counts[..n]), OneLoop(body, counts[n]);
  }

  predicate Block(body: seq<Instruction>, count: nat, one: bool) { Part(OneLoop(body, count), count, count == 0 || one) }

  lemma {:induction false} BlocksPart(body: seq<Instruction>, counts: seq<nat>, one: bool)
    requires forall k :: 0 <= k < |counts| ==> Block(body, counts[k], one)
    ensures Part(Blocks(body, counts), Jumps(counts), NoJumps(counts) || one)
  {
    if counts == [] {
      PlainPart([]);
    } else {
      var n := |counts| - 1;
      assert Block(body, counts[n], one);
      BlocksPart(body, counts[..n], one);
      var front, block := BlocksParts(body, counts, n);
      NoJumpsSnoc(counts, one, n);
      PartConcat(front, Jumps(counts[..n]), NoJumps(counts[..n]) || one, block, counts[n], counts[n] == 0 || one);
    }
  }

  lemma RolledPart(s: Settings, unrolled: nat, rows: seq<nat>, rolled: nat)
    requires rolled > 0 ==> LoopOk(UnrolledBody(s, unrolled, rows)) && (s.refresh || s.tRFC > 0)
    ensures Part(LoopProgram(s, unrolled, rows, rolled), JumpsOf(rolled), BodyWhole(s, unrolled, rows, rolled))
  {
    LoopCountsExact(rolled);
    LoopsExist(rolled);
    JumpsIfTwice(rolled);
    JumpsOfRuns(rolled);
    UnrolledExcess(s, unrolled, rows);
    if rolled > 0 {
      LoopBodyIsPlain(s, Repeat(unrolled, rows));
    }
    var body, counts, one := UnrolledBody(s, unrolled, rows), LoopCounts(rolled), ExtraWords(s, unrolled, rows) == 0;
    forall k | 0 <= k < |counts|
      ensures Block(body, counts[k], one)
    {
      BlockPart(body, counts[k]);
    }
    BlocksPart(body, counts, one);
  }

  // ------------------------------------------------------- The whole payload

  lemma EndsPlain(s: Settings)
    requires Noop(Lead(s)).Accepted()
    ensures Part([Noop(Lead(s))], 0, true) && Part([Slot(s, 1)], 0, true)
  {
    LastTwoAccepted(s);
    PlainPart([Noop(Lead(s))]);
    PlainPart([Slot(s, 1)]);
  }

  lemma RolledParts(s: Settings, rows: seq<nat>, r: nat, q: nat, m: nat)
    requires PartsOk(s, rows, r, q, m) && ((q == 0 && m == 0) || s.refresh || s.tRFC > 0)
    ensures Noop(Lead(s)).Accepted()
    ensures Part(LoopProgram(s, r, rows, q), JumpsOf(q), BodyWhole(s, r, rows, q))
    ensures Part(LoopProgram(s, 1, rows, m), JumpsOf(m), BodyWhole(s, 1, rows, m))
  {
    RolledPart(s, r, rows, q);
    RolledPart(s, 1, rows, m);
  }

  lemma PartsInOrder(s: Settings, rows: seq<nat>, r: nat, q: nat, m: nat)
    ensures PayloadParts(s, rows, r, q, m) ==
            [Noop(Lead(s))] + LoopProgram(s, r, rows, q) + LoopProgram(s, 1, rows, m) + [Slot(s, 1)] + [Noop(0)]
  {
    Associate([Noop(Lead(s))] + LoopProgram(s, r, rows, q) + LoopProgram(s, 1, rows, m), [Slot(s, 1)], [Noop(0)]);
    assert [Slot(s, 1)] + [Noop(0)] == [Slot(s, 1), Noop(0)];
  }

  /** Before its STOP. */
  lemma FrontPart(s: Settings, rows: seq<nat>, r: nat, q: nat, m: nat) returns (front: seq<Instruction>)
    requires PartsOk(s, rows, r, q, m) && ((q == 0 && m == 0) || s.refresh || s.tRFC > 0)
    ensures PayloadParts(s, rows, r, q, m) == front + [Noop(0)]
    ensures Part(front, JumpsOf(q) + JumpsOf(m), BodyWhole(s, r, rows, q) && BodyWhole(s, 1, rows, m))
  {
    var lead, many, once, slot := [Noop(Lead(s))], LoopProgram(s, r, rows, q), LoopProgram(s, 1, rows, m), [Slot(s, 1)];
    RolledParts(s, rows, r, q, m);
    EndsPlain(s);
    FourParts(lead, many, JumpsOf(q), BodyWhole(s, r, rows, q), once, JumpsOf(m), BodyWhole(s, 1, rows, m), slot);
    PartsInOrder(s, rows, r, q, m);
    front := lead + many + once + slot;
  }

  lemma FourParts(a: seq<Instruction>, b: seq<Instruction>, m: nat, x: bool, c: seq<Instruction>, n: nat, y: bool,
                  d: seq<Instruction>)
    requires Part(a, 0, true) && Part(b, m, x) && Part(c, n, y) && Part(d, 0, true)
    ensures Part(a + b + c + d, m + n, x && y)
  {
    PartConcat(a, 0, true, b, m, x);
    PartConcat(a + b, m, x, c, n, y);
    PartConcat(a + b + c, m + n, x && y, d, 0, true);
  }

  lemma StopBehind(front: seq<Instruction>, jumps: nat, exact: bool, p: seq<Instruction>, stop: nat)
    requires Part(front, jumps, exact) && p == front + [Noop(0)] && |p| == stop + 1
    ensures Loops(p, stop) && TakenJumps(p, stop) == jumps && (OneWordLoops(p, stop) <==> exact)
  {
    forall k | 0 <= k < stop
      ensures PlainOrLoop(p, k) && OneWordLoop(p, k) == OneWordLoop(front, k)
    {
      LoopStays(front, [Noop(0)], k);
    }
    TakenFirst(front, [Noop(0)], stop);
  }

  /** The jumps that are taken before the first STOP. */
  function JumpsTaken(s: Settings, r: nat, readCount: nat): nat
    requires r > 0
  {
    if StopsAtOnce(s, readCount) then 0 else JumpsIn(r, readCount)
  }

  /** Every generated payload is one that `EstimatedTime` speaks of: its loops jump once for every run but their
      first, and the estimate is exact if nothing is skipped; or its second instruction is a STOP. */
  lemma GeneratedLoops(s: Settings, rows: seq<nat>, readCount: nat, r: nat, p: seq<Instruction>, stop: nat)
    requires Repetitions(s, rows) == Some(r) && Generate(s, rows, readCount) == Some(p)
    requires if StopsAtOnce(s, readCount) then stop == 1 else |p| == stop + 1
    ensures Loops(p, stop) && TakenJumps(p, stop) == JumpsTaken(s, r, readCount)
    ensures OneWordLoops(p, stop) <==> StopsAtOnce(s, readCount) || NothingSkipped(s, rows, r, readCount)
  {
    if StopsAtOnce(s, readCount) {
      StopsSoon(s, rows, r, readCount, p);
    } else {
      LoopsOfPayload(s, rows, r, readCount, p, stop);
    }
  }

  lemma StopsSoon(s: Settings, rows: seq<nat>, r: nat, readCount: nat, p: seq<Instruction>)
    requires r > 0 && p == Payload(s, rows, r, readCount) && PayloadOk(s, rows, r, readCount) && StopsAtOnce(s, readCount)
    ensures Loops(p, 1) && TakenJumps(p, 1) == 0 && OneWordLoops(p, 1)
  {
    var q, m := Parted(s, rows, r, readCount);
    StopFollows(s, rows, r, q, m);
    LeadLoops(p, Lead(s));
  }

  lemma LeadLoops(p: seq<Instruction>, wait: nat)
    requires |p| >= 2 && p[0] == Noop(wait) && p[1] == Noop(0) && wait > 0 && Noop(wait).Accepted()
    ensures Loops(p, 1) && TakenJumps(p, 1) == 0 && OneWordLoops(p, 1)
  {
    assert TakenJumps(p, 0) == 0;
  }

  lemma LoopsOfPayload(s: Settings, rows: seq<nat>, r: nat, readCount: nat, p: seq<Instruction>, stop: nat)
    requires r > 0 && p == Payload(s, rows, r, readCount) && PayloadOk(s, rows, r, readCount) && |p| == stop + 1
    requires !StopsAtOnce(s, readCount)
    ensures Loops(p, stop) && TakenJumps(p, stop) == JumpsIn(r, readCount)
    ensures OneWordLoops(p, stop) <==> NothingSkipped(s, rows, r, readCount)
  {
    var front := FrontOf(s, rows, r, readCount);
    StopBehind(front, JumpsIn(r, readCount), NothingSkipped(s, rows, r, readCount), p, stop);
  }

  lemma FrontOf(s: Settings, rows: seq<nat>, r: nat, readCount: nat) returns (front: seq<Instruction>)
    requires r > 0 && PayloadOk(s, rows, r, readCount) && !StopsAtOnce(s, readCount)
    ensures Payload(s, rows, r, readCount) == front + [Noop(0)]
    ensures Part(front, JumpsIn(r, readCount), NothingSkipped(s, rows, r, readCount))
  {
    var q, m := Parted(s, rows, r, readCount);
    front := FrontPart(s, rows, r, q, m);
  }

  /** For every generated payload the execution time is the estimate, the pipeline fill and three cycles for
      every jump, when and only when the jumps skip no word or none is reached. */
  lemma GeneratedTime(s: Settings, rows: seq<nat>, readCount: nat, r: nat, p: seq<Instruction>, stop: nat,
                      c: Config, st: State, ins: seq<Input>, more: seq<Input>)
    requires Repetitions(s, rows) == Some(r) && Generate(s, rows, readCount) == Some(p) && Loaded(c, Layout(p))
    requires stop < |p| && if StopsAtOnce(s, readCount) then stop == 1 else |p| == stop + 1
    requires Inv(c, st) && st.core.fsm == WAIT_DFI && st.switch.payload && st.core.loop == 0
    requires WellNested(Layout(p), |Layout(p[..stop])|)
    requires |ins| == 1 + PIPELINE_DELAY + |TraceFrom(c, Layout(p), |Layout(p[..stop])|, 0)|
    requires (forall i :: i in ins + more ==> !i.start) && st.core.timers.cycle + |ins| < WIDE
    ensures Estimate(p).Some?
    ensures var t := After(c, st, ins + more).core.timers;
            t.execStop - t.execStart ==
            Estimate(p).value + PIPELINE_DELAY + (1 + PIPELINE_DELAY) * JumpsTaken(s, r, readCount)
            <==> StopsAtOnce(s, readCount) || NothingSkipped(s, rows, r, readCount)
  {
    GeneratedLoops(s, rows, readCount, r, p, stop);
    EstimatedTime(c, st, p, stop, ins, more);
  }
}
