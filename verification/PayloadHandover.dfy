/** A generated payload on the lines that reach the DRAM, from the refresh of the memory controller at which the
    switch hands over. */
module PayloadHandover {
  import opened Isa
  import opened Executor
  import opened Interpreter
  import opened Program
  import opened Fragments
  import opened Refinement
  import opened Traces
  import opened PayloadCompiler
  import opened PayloadTraces
  import opened PayloadResults
  import opened PayloadSpacing
  import opened RefreshGaps
  import opened PayloadDelivery
  import opened Wrappers

  // ------------------------------------------------------- What the switch connects

  /** With refresh on the switch takes over on a refresh, and the executor then starts on an idle bus. */
  lemma TakenOver(c: Config, s: State, i: Input)
    requires Inv(c, s) && TakesOver(c, s, i) && c.withRefresh
    ensures Master(s, i.mc) == i.mc && IsRefresh(i.mc)
    ensures var s1 := Step(c, s, i);
            Inv(c, s1) && s1.core.fsm == WAIT_DFI && s1.switch.payload && s1.core.loop == s.core.loop && s1.core.bus == Inactive
  {
    InvStep(c, s, i);
  }

  /** While the executor is busy, what it registers reaches the DRAM one cycle later. */
  lemma {:induction false} BusyMasters(c: Config, s: State, ins: seq<Input>)
    requires Inv(c, s) && Busy(c, s, ins)
    ensures MasterTrace(c, s, ins) == ([s.core.bus] + Issued(c, s, ins))[..|ins|]
    decreases |ins|
  {
    if ins != [] {
      var s1, rest := Step(c, s, ins[0]), ins[1..];
      InvStep(c, s, ins[0]);
      BusyMasters(c, s1, rest);
      ShiftOne(s.core.bus, s1.core.bus, Issued(c, s1, rest));
    }
  }

  lemma ShiftOne(a: Bus, b: Bus, rest: seq<Bus>)
    ensures ([a] + ([b] + rest))[..|rest| + 1] == [a] + ([b] + rest)[..|rest|]
  {
  }

  /** From the handover on the DRAM sees one idle cycle and then the executor's lines. */
  lemma LaunchMasters(c: Config, s: State, ins: seq<Input>)
    requires Inv(c, s) && s.core.fsm == WAIT_DFI && s.switch.payload && s.core.bus == Inactive && ins != []
    requires Busy(c, Step(c, s, ins[0]), ins[1..])
    ensures MasterTrace(c, s, ins) == ([Inactive] + Issued(c, s, ins))[..|ins|]
  {
    var s1, rest := Step(c, s, ins[0]), ins[1..];
    InvStep(c, s, ins[0]);
    BusyMasters(c, s1, rest);
    ShiftOne(Inactive, s1.core.bus, Issued(c, s1, rest));
  }

  // ------------------------------------------------------- Lines

  /** The last cycle of a trace does not matter if it is idle. */
  lemma DeliversShorter(s: Settings, rows: seq<nat>, r: nat, readCount: nat, t: seq<Bus>, start: nat)
    requires r > 0 && Delivers(s, rows, r, readCount, t + Quiet(1), start)
    ensures Delivers(s, rows, r, readCount, t, start)
  {
    CountsQuiet(1);
    CountsAround(Quiet(1), 0, t, Hammers(t), Refreshes(t));
    SeparatedConcat(t, Quiet(1), Needs(s), Owed(s, start));
    forall limit: nat
      ensures Within(t + Quiet(1), start, limit) <==> Within(t, start, limit)
    {
      WithinConcat(t, Quiet(1), start, limit);
      WithinQuiet(1, Since(t, start), limit);
    }
  }

  lemma TraceEnds(c: Config, words: seq<nat>, stop: nat) returns (t: seq<Bus>)
    requires WellNested(words, stop)
    ensures TraceFrom(c, words, stop, 0) == t + Quiet(1)
  {
    t := RunTrace(c, words[..stop]);
    RunUpTo(c, words, stop, stop);
  }

  lemma DropLast(fill: seq<Bus>, t: seq<Bus>, n: nat)
    requires n == |fill| + |t| + 1
    ensures ([Inactive] + (fill + (t + Quiet(1))))[..n] == [Inactive] + (fill + t)
    ensures fill + (t + Quiet(1)) == (fill + t) + Quiet(1)
  {
  }

  lemma OneIdle(t: seq<Bus>)
    ensures Quiet(1) + t == [Inactive] + t
  {
  }

  /** The refresh, the cycle before the executor drives the bus, its pipeline fill, and the unrolled program. */
  lemma BusLines(c: Config, s: State, i: Input, ins: seq<Input>, words: seq<nat>, stop: nat) returns (t: seq<Bus>)
    requires Loaded(c, words) && WellNested(words, stop)
    requires Inv(c, s) && TakesOver(c, s, i) && c.withRefresh && s.core.loop == 0
    requires |ins| == 1 + PIPELINE_DELAY + |TraceFrom(c, words, stop, 0)|
    ensures TraceFrom(c, words, stop, 0) == t + Quiet(1) && IsRefresh(i.mc)
    ensures MasterTrace(c, s, [i] + ins) == [i.mc] + (Quiet(1) + (Quiet(1 + PIPELINE_DELAY) + t))
  {
    TakenOver(c, s, i);
    ProgramOnGateware(c, Step(c, s, i), words, stop, ins);
    LaunchMasters(c, Step(c, s, i), ins);
    t := TraceEnds(c, words, stop);
    DropLast(Quiet(1 + PIPELINE_DELAY), t, |ins|);
    OneIdle(Quiet(1 + PIPELINE_DELAY) + t);
    FirstOfConcat([i], ins);
  }

  lemma RunReady(c: Config, s: State, i: Input, ins: seq<Input>, words: seq<nat>, stop: nat)
    requires Loaded(c, words) && WellNested(words, stop)
    requires Inv(c, s) && TakesOver(c, s, i) && c.withRefresh && s.core.loop == 0
    requires |ins| == 1 + PIPELINE_DELAY + |TraceFrom(c, words, stop, 0)|
    ensures After(c, s, [i] + ins).core.fsm == READY && After(c, s, [i] + ins).core.loop == 0
  {
    TakenOver(c, s, i);
    ProgramOnGateware(c, Step(c, s, i), words, stop, ins);
    Behind(i, ins);
  }

  lemma Behind<T>(x: T, xs: seq<T>)
    ensures ([x] + xs)[0] == x && ([x] + xs)[1..] == xs
  {
  }

  lemma DeliversBehind(s: Settings, rows: seq<nat>, r: nat, readCount: nat, t: seq<Bus>, first: Bus)
    requires r > 0 && Delivers(s, rows, r, readCount, t + Quiet(1), HANDOVER) && IsRefresh(first)
    ensures var bus := [first] + (Quiet(1) + (Quiet(1 + PIPELINE_DELAY) + t));
            bus[0] == first && Delivers(s, rows, r, readCount, bus[1..], 1) && Separated(bus, Needs(s), 0)
  {
    DeliversShorter(s, rows, r, readCount, t, HANDOVER);
    DeliversLater(s, rows, r, readCount, t, 1 + PIPELINE_DELAY, 2);
    DeliversLater(s, rows, r, readCount, Quiet(1 + PIPELINE_DELAY) + t, 1, 1);
    Behind(first, Quiet(1) + (Quiet(1 + PIPELINE_DELAY) + t));
  }

  // ------------------------------------------------------- Main result

  /** From any state of a run in which the switch takes over with refresh on: the DRAM sees the refresh of the
      memory controller and then a payload that delivers, with the waiting times and the refresh distance
      counted from that refresh. */
  lemma PayloadOnBus(s: Settings, rows: seq<nat>, readCount: nat, r: nat, p: seq<Instruction>, stop: nat,
                     c: Config, st: State, i: Input, ins: seq<Input>)
    requires Repetitions(s, rows) == Some(r) && Generate(s, rows, readCount) == Some(p) && Fits(s, rows)
    requires Loaded(c, Layout(p)) && c.geometry == s.geometry && WellNested(Layout(p), stop)
    requires Inv(c, st) && TakesOver(c, st, i) && c.withRefresh && st.core.loop == 0
    requires |ins| == 1 + PIPELINE_DELAY + |TraceFrom(c, Layout(p), stop, 0)|
    ensures After(c, st, [i] + ins).core.fsm == READY && After(c, st, [i] + ins).core.loop == 0
    ensures var bus := MasterTrace(c, st, [i] + ins);
            && bus != [] && IsRefresh(bus[0]) && Delivers(s, rows, r, readCount, bus[1..], 1)
            && Separated(bus, Needs(s), 0)
  {
    var t := BusLines(c, st, i, ins, Layout(p), stop);
    PayloadTrace(s, rows, readCount, r, p, c, stop);
    DeliversBehind(s, rows, r, readCount, t, i.mc);
    RunReady(c, st, i, ins, Layout(p), stop);
  }

  /** Read pairwise: any two commands that the DRAM sees keep the distance of the earlier one, and any two
      refreshes with none in between the limit, if the longest gap does. */
  lemma PairwiseOnBus(s: Settings, rows: seq<nat>, r: nat, readCount: nat, bus: seq<Bus>, i: nat, j: nat)
    requires r > 0 && bus != [] && IsRefresh(bus[0]) && Delivers(s, rows, r, readCount, bus[1..], 1)
    requires Separated(bus, Needs(s), 0) && i < j < |bus| && bus[i].Command? && bus[j].Command?
    ensures j - i >= Needs(s).After(bus[i].op)
    ensures s.refresh && IsRefresh(bus[i]) && IsRefresh(bus[j]) && (forall k :: i < k < j ==> !IsRefresh(bus[k])) ==>
              forall limit: nat :: s.tREFI <= limit && HANDOVER + Lead(s) <= limit && InTime(s, rows, r, readCount, limit) ==>
                j - i <= limit
  {
    SeparatedMeans(bus, Needs(s), 0, i, j);
    if s.refresh && IsRefresh(bus[i]) && IsRefresh(bus[j]) && forall k :: i < k < j ==> !IsRefresh(bus[k]) {
      forall limit: nat | s.tREFI <= limit && HANDOVER + Lead(s) <= limit && InTime(s, rows, r, readCount, limit)
        ensures j - i <= limit
      {
        WithinMeans(bus, 0, limit, i, j);
      }
    }
  }
}
