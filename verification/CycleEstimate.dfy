/** The host's estimate of the execution time, and how far it is from what the gateware takes. */
module CycleEstimate {
  import opened Bits
  import opened Isa
  import opened Executor
  import opened Interpreter
  import opened Program
  import opened Layouts
  import opened Fragments
  import opened Refinement
  import opened Wrappers

  /** A slice whose start may be negative and then counts from the end. */
  function Slice(p: seq<Instruction>, from: int, to: nat): seq<Instruction>
    requires to <= |p|
  {
    var start := if from >= 0 then from else if from + |p| >= 0 then from + |p| else 0;
    if start <= to then p[start..to] else []
  }

  /** It holds the instructions before `to` from `start` on; a start before the payload counts from its end, so that a
      jump over more than is there leaves few or none. */
  lemma SliceIs(p: seq<Instruction>, start: int, to: nat)
    requires to <= |p|
    ensures 0 <= start <= to ==> Slice(p, start, to) == p[start..to]
    ensures start < 0 && start + |p| >= to ==> Slice(p, start, to) == []
    ensures start < 0 && 0 <= start + |p| < to ==> Slice(p, start, to) == p[start + |p|..to]
    ensures start + |p| < 0 ==> Slice(p, start, to) == p[..to]
  {
  }

  /** The sum of timeslices; a LOOP has none, so the sum fails on it. */
  function Timeslices(p: seq<Instruction>): Option<nat> {
    if p == [] then Some(0)
    else
      var rest := Timeslices(p[1..]);
      if p[0].Loop? || rest.None? then None else Some(p[0].timeslice + rest.value)
  }

  /** What one instruction adds. */
  function InstrCost(p: seq<Instruction>, k: nat): Option<nat>
    requires k < |p|
  {
    match p[k]
    case Loop(count, jump) =>
      var body := Timeslices(Slice(p, k - jump, k));
      if body.None? then None else Some(1 + Times(count, body.value))
    case _ => Some(p[k].timeslice)
  }

  /** The loop of the estimate: still counting, or returned. */
  datatype Count = Counting(cycles: nat) | Returned(estimate: Option<nat>)

  function Next(count: Count, p: seq<Instruction>, k: nat): Count
    requires k < |p|
  {
    if count.Returned? then count
    else if p[k] == Noop(0) then Returned(Some(count.cycles + 1))
    else if InstrCost(p, k).None? then Returned(None)
    else Counting(count.cycles + InstrCost(p, k).value)
  }

  function CountTo(p: seq<Instruction>, k: nat): Count
    requires k <= |p|
  {
    if k == 0 then Counting(0) else Next(CountTo(p, k - 1), p, k - 1)
  }

  function Estimate(p: seq<Instruction>): Option<nat> {
    match CountTo(p, |p|)
    case Counting(cycles) => Some(cycles)
    case Returned(estimate) => estimate
  }

  lemma {:induction false} StaysReturned(p: seq<Instruction>, k: nat, j: nat)
    requires k <= j <= |p| && CountTo(p, k).Returned?
    ensures CountTo(p, j) == CountTo(p, k)
  {
    if k < j {
      StaysReturned(p, k, j - 1);
    }
  }

  method SumTimeslices(body: seq<Instruction>) returns (sum: Option<nat>)
    ensures sum == Timeslices(body)
  {
    sum := Some(0);
    var k := |body|;
    while k > 0
      invariant 0 <= k <= |body|
      invariant sum == Timeslices(body[k..])
    {
      k := k - 1;
      assert body[k..][1..] == body[k + 1..];
      sum := if body[k].Loop? || sum.None? then None else Some(body[k].timeslice + sum.value);
    }
    assert body[0..] == body;
  }

  lemma CountReturns(p: seq<Instruction>, k: nat, estimate: Option<nat>)
    requires k <= |p| && CountTo(p, k) == Returned(estimate)
    ensures Estimate(p) == estimate
  {
    StaysReturned(p, k, |p|);
  }

  lemma CountEnds(p: seq<Instruction>, k: nat, cycles: nat)
    requires k < |p| && CountTo(p, k) == Counting(cycles)
    ensures p[k] == Noop(0) ==> CountTo(p, k + 1) == Returned(Some(cycles + 1))
    ensures p[k].Loop? && Timeslices(Slice(p, k - p[k].jump, k)).None? ==> CountTo(p, k + 1) == Returned(None)
  {
  }

  lemma CountStep(p: seq<Instruction>, k: nat, cycles: nat, cost: nat)
    requires k < |p| && CountTo(p, k) == Counting(cycles) && p[k] != Noop(0) && InstrCost(p, k) == Some(cost)
    ensures CountTo(p, k + 1) == Counting(cycles + cost)
  {
  }

  method GetExpectedExecutionCycles(payload: seq<Instruction>) returns (r: Option<nat>)
    ensures r == Estimate(payload)
  {
    var cycles: nat := 0;
    for i := 0 to |payload|
      invariant CountTo(payload, i) == Counting(cycles)
    {
      var instr := payload[i];
      ghost var before := cycles;
      CountEnds(payload, i, before);
      cycles := cycles + 1;
      if instr == Noop(0) {
        CountReturns(payload, i + 1, Some(cycles));
        return Some(cycles);
      } else if instr.Loop? {
        var sum := SumTimeslices(Slice(payload, i - instr.jump, i));
        if sum.None? {
          CountReturns(payload, i + 1, None);
          return None;
        }
        cycles := cycles + Times(instr.count, sum.value);
        CountStep(payload, i, before, 1 + Times(instr.count, sum.value));
      } else {
        cycles := cycles + instr.timeslice - 1;
        CountStep(payload, i, before, instr.timeslice);
      }
    }
    return Some(cycles);
  }

  // ------------------------------------------------------- Payloads

  /** A LOOP of a payload, over instructions that are no LOOPs. */
  predicate LoopAt(p: seq<Instruction>, k: nat)
    requires k < |p|
  {
    p[k].Loop? && p[k].Accepted() && p[k].jump <= k && p[k].jump < 0x2_0000 && AllPlainInstr(LoopedBy(p, k))
  }

  function LoopedBy(p: seq<Instruction>, k: nat): seq<Instruction>
    requires k < |p|
  {
    if p[k].Loop? && p[k].jump <= k then p[k - p[k].jump..k] else []
  }

  predicate PlainOrLoop(p: seq<Instruction>, k: nat)
    requires k < |p|
  {
    PlainInstr(p[k]) || LoopAt(p, k)
  }

  /** The instructions before the first STOP: loops are not nested, instructions may take several words. */
  predicate Loops(p: seq<Instruction>, stop: nat) {
    stop < |p| && p[stop] == Noop(0) && forall k :: 0 <= k < stop ==> PlainOrLoop(p, k)
  }

  predicate OneWordLoop(p: seq<Instruction>, k: nat)
    requires k < |p|
  {
    p[k].Loop? && p[k].count > 0 ==> |Layout(LoopedBy(p, k))| == |LoopedBy(p, k)|
  }

  /** No LOOP that jumps has a body of more words than instructions. */
  predicate OneWordLoops(p: seq<Instruction>, stop: nat)
    requires stop <= |p|
  {
    forall k :: 0 <= k < stop ==> OneWordLoop(p, k)
  }

  /** Jumps taken before instruction `k`. */
  function TakenJumps(p: seq<Instruction>, k: nat): nat
    requires k <= |p|
  {
    if k == 0 then 0
    else TakenJumps(p, k - 1) + (if p[k - 1].Loop? then p[k - 1].count else 0)
  }

  /** The cycles of straight words. */
  function Cycles(ws: seq<nat>): nat {
    if ws == [] then 0
    else
      var d := Decode(ws[0]);
      (if d.timeslice == 0 then 1 else d.timeslice) + Cycles(ws[1..])
  }

  /** The words of a body that a jump over as many words as it has instructions does not reach. */
  function Skipped(body: seq<Instruction>): seq<nat> { WithoutLast(Layout(body), |body|) }

  function WithoutLast(ws: seq<nat>, n: nat): seq<nat> { if n <= |ws| then ws[..|ws| - n] else [] }

  /** The cycles that the jumps of instruction `k` miss. */
  function MissedAt(p: seq<Instruction>, k: nat): nat
    requires k < |p|
  {
    if p[k].Loop? then Times(p[k].count, Cycles(Skipped(LoopedBy(p, k)))) else 0
  }

  /** The cycles that all jumps before instruction `k` miss. */
  function MissedCycles(p: seq<Instruction>, k: nat): nat
    requires k <= |p|
  {
    if k == 0 then 0 else MissedCycles(p, k - 1) + MissedAt(p, k - 1)
  }

  // ------------------------------------------------------- The estimate, from the front

  lemma SliceInside(p: seq<Instruction>, a: nat, b: nat)
    requires a <= b <= |p|
    ensures Slice(p, a, b) == p[a..b]
  {
  }

  lemma {:induction false} InstrsLength(g: Geometry, p: seq<Instruction>)
    requires AllPlainInstr(p)
    ensures Timeslices(p) == Some(|InstrsTrace(g, p)|)
  {
    if p != [] {
      InstrsLength(g, p[1..]);
    }
  }

  lemma LoopCost(p: seq<Instruction>, k: nat, sum: nat)
    requires k < |p| && p[k].Loop? && p[k].jump <= k && Timeslices(LoopedBy(p, k)) == Some(sum)
    ensures InstrCost(p, k) == Some(1 + Times(p[k].count, sum))
  {
    SliceInside(p, k - p[k].jump, k);
  }

  // ------------------------------------------------------- The trace, from the front

  lemma {:induction false} CyclesOf(c: Config, ws: seq<nat>)
    ensures |BodyTrace(c, ws)| == Cycles(ws)
  {
    if ws != [] {
      CyclesOf(c, ws[1..]);
    }
  }

  lemma {:induction false} EachTakesTime(ws: seq<nat>)
    ensures Cycles(ws) >= |ws|
  {
    if ws != [] {
      EachTakesTime(ws[1..]);
    }
  }

  lemma LastOfTwo(front: seq<Instruction>, body: seq<Instruction>)
    ensures var last := LastOf(Layout(front + body), |body|);
            Layout(body) == Skipped(body) + last && |body| <= |Layout(body)| <= |Layout(front + body)|
  {
    LayoutConcat(front, body);
    LayoutGrows(body);
    LastOfSecond(Layout(front), Layout(body), |body|);
  }

  /** The words that a LOOP repeats are the end of its body. */
  lemma LastOfBody(p: seq<Instruction>, k: nat)
    requires k < |p| && LoopAt(p, k)
    ensures var body := LoopedBy(p, k);
            && Layout(body) == Skipped(body) + LastOf(Layout(p[..k]), p[k].jump)
            && p[k].jump == |body| <= |Layout(body)| <= |Layout(p[..k])|
  {
    assert p[..k] == p[..k - p[k].jump] + LoopedBy(p, k);
    LastOfTwo(p[..k - p[k].jump], LoopedBy(p, k));
  }

  lemma LastIsPlain(a: seq<nat>, b: seq<nat>)
    requires AllPlain(a + b)
    ensures AllPlain(b)
  {
    forall k | 0 <= k < |b| ensures Plain(b[k]) { assert b[k] == (a + b)[|a| + k]; }
  }

  lemma LayoutNext(p: seq<Instruction>, k: nat)
    requires k < |p|
    ensures Layout(p[..k + 1]) == Layout(p[..k]) + Words(p[k])
  {
    assert p[..k + 1] == p[..k] + [p[k]];
    LayoutConcat(p[..k], [p[k]]);
    LayoutOne(p[k]);
  }

  /** One more LOOP. */
  lemma TraceLoop(c: Config, p: seq<Instruction>, k: nat)
    requires k < |p| && LoopAt(p, k) && Nested(Layout(p[..k]))
    ensures Nested(Layout(p[..k + 1]))
    ensures RunTrace(c, Layout(p[..k + 1])) ==
            RunTrace(c, Layout(p[..k])) + LoopTrace(c, p[k].count, LastOf(Layout(p[..k]), p[k].jump))
  {
    var w := LoopWord(p[k].count, p[k].jump);
    LayoutNext(p, k);
    LastOfBody(p, k);
    PlainLayout(LoopedBy(p, k));
    LastIsPlain(Skipped(LoopedBy(p, k)), LastOf(Layout(p[..k]), p[k].jump));
    NestedLoop(Layout(p[..k]), w);
    RunLoop(c, Layout(p[..k]), w);
  }

  /** One more instruction that is no LOOP. */
  lemma TracePlain(c: Config, p: seq<Instruction>, k: nat)
    requires k < |p| && PlainInstr(p[k]) && Nested(Layout(p[..k]))
    ensures Nested(Layout(p[..k + 1]))
    ensures |RunTrace(c, Layout(p[..k + 1]))| == |RunTrace(c, Layout(p[..k]))| + p[k].timeslice
  {
    LayoutNext(p, k);
    PlainWords(p[k]);
    RunAll(c, Words(p[k]));
    NestedConcat(Layout(p[..k]), Words(p[k]));
    RunConcat(c, Layout(p[..k]), Words(p[k]));
    WordsTrace(c, p[k]);
  }

  lemma {:induction false} CyclesConcat(a: seq<nat>, b: seq<nat>)
    ensures Cycles(a + b) == Cycles(a) + Cycles(b)
  {
    if a == [] {
      assert a + b == b;
    } else {
      CyclesConcat(a[1..], b);
      FirstOfConcat(a, b);
    }
  }

  lemma BodyCycles(body: seq<Instruction>)
    requires AllPlainInstr(body)
    ensures Timeslices(body) == Some(Cycles(Layout(body)))
  {
    var c := Config([], Geometry(0, 0, 0, 0), false);
    InstrsLength(c.geometry, body);
    LayoutTrace(c, body);
    CyclesOf(c, Layout(body));
  }

  lemma LoopCycles(c: Config, count: nat, last: seq<nat>, missed: nat)
    ensures |LoopTrace(c, count, last)| + Times(count, missed)
            == 1 + Times(count, missed + Cycles(last)) + (1 + PIPELINE_DELAY) * count
  {
    CyclesOf(c, last);
    RepeatLength(count, Quiet(1 + PIPELINE_DELAY) + BodyTrace(c, last));
    Distribute(count, |BodyTrace(c, last)|, missed);
  }

  lemma Distribute(n: nat, a: nat, b: nat)
    ensures n * (1 + PIPELINE_DELAY + a) + Times(n, b) == Times(n, b + a) + (1 + PIPELINE_DELAY) * n
  {
  }

  /** What has run up to instruction `k`: what is counted and three cycles for every jump, less what the
      jumps miss. */
  predicate Accounted(c: Config, p: seq<Instruction>, k: nat)
    requires k <= |p|
  {
    var count := CountTo(p, k);
    && count.Counting? && Nested(Layout(p[..k]))
    && |RunTrace(c, Layout(p[..k]))| + MissedCycles(p, k) == count.cycles + (1 + PIPELINE_DELAY) * TakenJumps(p, k)
  }

  /** What the body of a LOOP adds to the estimate. */
  lemma LoopSum(p: seq<Instruction>, k: nat) returns (sum: nat)
    requires k < |p| && LoopAt(p, k)
    ensures InstrCost(p, k) == Some(1 + Times(p[k].count, sum)) && sum == Cycles(Layout(LoopedBy(p, k)))
  {
    BodyCycles(LoopedBy(p, k));
    sum := Cycles(Layout(LoopedBy(p, k)));
    LoopCost(p, k, sum);
  }

  lemma LoopAccount(c: Config, p: seq<Instruction>, k: nat, last: seq<nat>, sum: nat)
    requires k < |p| && p[k].Loop? && sum == Cycles(Skipped(LoopedBy(p, k))) + Cycles(last)
    ensures |LoopTrace(c, p[k].count, last)| + MissedAt(p, k) ==
            1 + Times(p[k].count, sum) + (1 + PIPELINE_DELAY) * p[k].count
  {
    LoopCycles(c, p[k].count, last, Cycles(Skipped(LoopedBy(p, k))));
  }

  lemma AccountedLoop(c: Config, p: seq<Instruction>, k: nat)
    requires k < |p| && LoopAt(p, k) && Accounted(c, p, k)
    ensures Accounted(c, p, k + 1)
  {
    TraceLoop(c, p, k);
    LastOfBody(p, k);
    var last := LastOf(Layout(p[..k]), p[k].jump);
    var sum := LoopSum(p, k);
    CyclesConcat(Skipped(LoopedBy(p, k)), last);
    LoopAccount(c, p, k, last, sum);
    CountStep(p, k, CountTo(p, k).cycles, 1 + Times(p[k].count, sum));
  }

  lemma AccountedPlain(c: Config, p: seq<Instruction>, k: nat)
    requires k < |p| && PlainInstr(p[k]) && Accounted(c, p, k)
    ensures Accounted(c, p, k + 1)
  {
    TracePlain(c, p, k);
    CountStep(p, k, CountTo(p, k).cycles, p[k].timeslice);
  }

  lemma AccountedNone(c: Config, p: seq<Instruction>)
    ensures Accounted(c, p, 0)
  {
    assert p[..0] == [];
  }

  lemma AccountedStep(c: Config, p: seq<Instruction>, k: nat)
    requires k < |p| && Accounted(c, p, k) && PlainOrLoop(p, k)
    ensures Accounted(c, p, k + 1)
  {
    if p[k].Loop? {
      AccountedLoop(c, p, k);
    } else {
      AccountedPlain(c, p, k);
    }
  }

  lemma {:induction false} AccountedUpTo(c: Config, p: seq<Instruction>, stop: nat, k: nat)
    requires Loops(p, stop) && k <= stop
    ensures Accounted(c, p, k)
  {
    if k == 0 {
      AccountedNone(c, p);
    } else {
      AccountedUpTo(c, p, stop, k - 1);
      assert PlainOrLoop(p, k - 1);
      AccountedStep(c, p, k - 1);
    }
  }

  // ------------------------------------------------------- Main results

  lemma StopWord(p: seq<Instruction>, stop: nat)
    requires Loops(p, stop)
    ensures var n := |Layout(p[..stop])|;
            n < |Layout(p)| && Layout(p)[..n] == Layout(p[..stop]) && Decode(Layout(p)[n]).Stop()
  {
    assert p == p[..stop] + p[stop..];
    LayoutConcat(p[..stop], p[stop..]);
    assert Layout(p[stop..]) == Words(Noop(0)) + Layout(p[stop..][1..]);
    assert Noop(0).Accepted();
    MainDecodes(Noop(0));
  }

  /** The words of such a payload are a program that takes the estimated cycles and three for every jump,
      less those that the jumps miss. */
  lemma EstimateExact(c: Config, p: seq<Instruction>, stop: nat)
    requires Loops(p, stop)
    ensures Estimate(p).Some? && WellNested(Layout(p), |Layout(p[..stop])|)
    ensures |TraceFrom(c, Layout(p), |Layout(p[..stop])|, 0)| + MissedCycles(p, stop) ==
            Estimate(p).value + (1 + PIPELINE_DELAY) * TakenJumps(p, stop)
  {
    AccountedUpTo(c, p, stop, stop);
    StaysReturned(p, stop + 1, |p|);
    StopWord(p, stop);
    RunProgram(c, Layout(p[..stop]), Layout(p));
  }

  lemma NothingMissed(p: seq<Instruction>, k: nat)
    requires k < |p|
    ensures MissedAt(p, k) == 0 <==> OneWordLoop(p, k)
  {
    EachTakesTime(Skipped(LoopedBy(p, k)));
    LayoutGrows(LoopedBy(p, k));
  }

  lemma {:induction false} MissedNone(p: seq<Instruction>, k: nat)
    requires k <= |p|
    ensures MissedCycles(p, k) == 0 <==> forall j :: 0 <= j < k ==> MissedAt(p, j) == 0
  {
    if k > 0 {
      MissedNone(p, k - 1);
    }
  }

  /** Cycles are missed exactly when a body that is jumped over has more words than instructions. */
  lemma MissedIff(p: seq<Instruction>, stop: nat)
    requires stop <= |p|
    ensures MissedCycles(p, stop) == 0 <==> OneWordLoops(p, stop)
  {
    MissedNone(p, stop);
    forall k | 0 <= k < stop
      ensures MissedAt(p, k) == 0 <==> OneWordLoop(p, k)
    {
      NothingMissed(p, k);
    }
  }

  /** On the gateware, at the end of the run and for as long as no new one is started: with no wrap of the cycle
      counter, exec_stop - exec_start is the host's estimate plus the pipeline fill plus three cycles a taken jump,
      when and only when no LOOP that jumps has a body of more words than instructions; otherwise it is less. */
  lemma EstimatedTime(c: Config, s: State, p: seq<Instruction>, stop: nat, ins: seq<Input>, more: seq<Input>)
    requires Loops(p, stop) && Loaded(c, Layout(p))
    requires Inv(c, s) && s.core.fsm == WAIT_DFI && s.switch.payload && s.core.loop == 0
    requires WellNested(Layout(p), |Layout(p[..stop])|)
    requires |ins| == 1 + PIPELINE_DELAY + |TraceFrom(c, Layout(p), |Layout(p[..stop])|, 0)|
    requires (forall i :: i in ins + more ==> !i.start) && s.core.timers.cycle + |ins| < WIDE
    ensures Estimate(p).Some?
    ensures var t := After(c, s, ins + more).core.timers;
            var took, expected := t.execStop - t.execStart,
                                  Estimate(p).value + PIPELINE_DELAY + (1 + PIPELINE_DELAY) * TakenJumps(p, stop);
            took + MissedCycles(p, stop) == expected && (took == expected <==> OneWordLoops(p, stop))
  {
    EstimateExact(c, p, stop);
    MissedIff(p, stop);
    ProgramTime(c, s, Layout(p), |Layout(p[..stop])|, ins, more);
  }
}
