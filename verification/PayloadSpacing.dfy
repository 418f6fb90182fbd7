/** The distances in the bus cycles of a payload. */
module PayloadSpacing {
  import opened Isa
  import opened Executor
  import opened Interpreter
  import opened Program
  import opened Layouts
  import opened Traces
  import opened PayloadCompiler
  import opened PayloadTraces
  import opened PayloadResults
  import opened Wrappers

  // ------------------------------------------------------- Time after each command

  function Needs(s: Settings): Gaps { Gaps(s.tRAS, s.tRP, s.tRFC) }

  /** No command comes early in the trace, nor directly after it. */
  predicate Settled(t: seq<Bus>, g: Gaps) { Separated(t, g, 0) && Debt(t, g, 0) == 0 }

  lemma SettledConcat(t: seq<Bus>, u: seq<Bus>, g: Gaps)
    requires Settled(t, g) && Settled(u, g)
    ensures Settled(t + u, g)
  {
    SeparatedConcat(t, u, g, 0);
  }

  lemma {:induction false} SettledRepeat(n: nat, t: seq<Bus>, g: Gaps)
    requires Settled(t, g)
    ensures Settled(Repeat(n, t), g)
  {
    if n > 0 {
      SettledRepeat(n - 1, t, g);
      SettledConcat(t, Repeat(n - 1, t), g);
    }
  }

  lemma SettledCommand(b: Bus, n: nat, g: Gaps)
    requires b.Command? && g.After(b.op) <= n + 1
    ensures Settled([b] + Quiet(n), g)
  {
    var t := [b] + Quiet(n);
    assert t[1..] == Quiet(n);
    SeparatedQuiet(n, g, Left(g.After(b.op)));
  }

  /** An instruction of the payload holds the bus as long as its command needs. */
  predicate Covers(s: Settings, i: Instruction) {
    i.Noop? || (i.Dfi? && i.op != NOOP && i.timeslice > 0 && Needs(s).After(i.op) <= i.timeslice)
  }

  predicate AllCover(s: Settings, p: seq<Instruction>) { forall k :: 0 <= k < |p| ==> Covers(s, p[k]) }

  lemma {:induction false} InstrsSettled(s: Settings, p: seq<Instruction>)
    requires AllCover(s, p)
    ensures Settled(InstrsTrace(s.geometry, p), Needs(s))
  {
    if p != [] {
      var i := p[0];
      InstrsSettled(s, p[1..]);
      if i.Noop? {
        SeparatedQuiet(i.timeslice, Needs(s), 0);
      } else {
        SettledCommand(Line(s.geometry, i.op, if i.address.Some? then i.address.value else 0), i.timeslice - 1, Needs(s));
      }
      SettledConcat(InstrTrace(s.geometry, i), InstrsTrace(s.geometry, p[1..]), Needs(s));
    }
  }

  lemma {:induction false} BodyCovers(s: Settings, rows: seq<nat>, accum: nat)
    requires AllAccepted(Body(s, rows, accum)) && Slot(s, s.tRFC).Accepted()
    ensures AllCover(s, Body(s, rows, accum))
  {
    if rows != [] {
      var chunk, rest := Chunk(s, rows[0], accum), Body(s, rows[1..], NextAccum(s, accum));
      AcceptedConcat(chunk, rest);
      BodyCovers(s, rows[1..], NextAccum(s, accum));
      forall k | 0 <= k < |chunk| ensures Covers(s, chunk[k]) { assert chunk[k].Accepted(); }
    }
  }

  lemma LoopBodySettled(s: Settings, stream: seq<nat>)
    requires AllAccepted(LoopBody(s, stream))
    ensures Settled(InstrsTrace(s.geometry, LoopBody(s, stream)), Needs(s))
  {
    LoopBodyAccepted(s, stream);
    BodyCovers(s, stream, s.tRFC + 1);
    LoopBodyCovers(s, stream);
    InstrsSettled(s, LoopBody(s, stream));
  }

  lemma LoopBodyCovers(s: Settings, stream: seq<nat>)
    requires Slot(s, s.tRFC).Accepted() && AllCover(s, Body(s, stream, s.tRFC + 1))
    ensures AllCover(s, LoopBody(s, stream))
  {
    CoverFront(s, Slot(s, s.tRFC), Body(s, stream, s.tRFC + 1));
  }

  lemma CoverFront(s: Settings, i: Instruction, p: seq<Instruction>)
    requires Covers(s, i) && AllCover(s, p)
    ensures AllCover(s, [i] + p)
  {
  }

  /** With less to wait for, a trace that keeps its distances still does. */
  lemma {:induction false} LessDebt(t: seq<Bus>, g: Gaps, debt: nat, less: nat)
    requires Separated(t, g, debt) && less <= debt
    ensures Separated(t, g, less) && Debt(t, g, less) <= Debt(t, g, debt)
  {
    if t != [] && !t[0].Command? {
      LessDebt(t[1..], g, Left(debt), Left(less));
    }
  }

  /** The end of a settled trace is settled. */
  lemma SettledEnd(t: seq<Bus>, u: seq<Bus>, g: Gaps)
    requires Settled(t + u, g)
    ensures Settled(u, g)
  {
    SeparatedConcat(t, u, g, 0);
    LessDebt(u, g, Debt(t, g, 0), 0);
  }

  lemma JumpsSettled(t: seq<Bus>, count: nat, g: Gaps)
    requires Settled(t, g)
    ensures Settled(JumpsTrace(t, count), g)
  {
    var turn := Quiet(1 + PIPELINE_DELAY) + t;
    SeparatedQuiet(1 + PIPELINE_DELAY, g, 0);
    SeparatedQuiet(1, g, 0);
    SettledConcat(Quiet(1 + PIPELINE_DELAY), t, g);
    SettledRepeat(count, turn, g);
    SettledConcat(Repeat(count, turn), Quiet(1), g);
  }

  lemma {:induction false} LoopsSettled(whole: seq<Bus>, tail: seq<Bus>, counts: seq<nat>, g: Gaps)
    requires counts != [] ==> Settled(whole, g) && Settled(tail, g)
    ensures Settled(LoopsTrace(whole, tail, counts), g)
  {
    if counts != [] {
      var n := |counts| - 1;
      LoopsSettled(whole, tail, counts[..n], g);
      JumpsSettled(tail, counts[n], g);
      SettledConcat(whole, JumpsTrace(tail, counts[n]), g);
      SettledConcat(LoopsTrace(whole, tail, counts[..n]), whole + JumpsTrace(tail, counts[n]), g);
    }
  }

  /** After an activation nothing comes for tRAS cycles, after a precharge for tRP, after a refresh for tRFC,
      anywhere in the payload; and at its start nothing for the `owed` cycles of the refresh before it. */
  lemma PartsSeparated(s: Settings, many: seq<Bus>, once: seq<Bus>, owed: nat)
    requires Settled(many, Needs(s)) && Settled(once, Needs(s)) && owed <= Lead(s)
    ensures Separated(PartsTrace(s, many, once), Needs(s), owed)
  {
    EndSeparated(Lead(s), many, once, InstrTrace(s.geometry, Slot(s, 1)), Needs(s), owed);
  }

  lemma EndSeparated(n: nat, b: seq<Bus>, c: seq<Bus>, d: seq<Bus>, g: Gaps, owed: nat)
    requires Settled(b, g) && Settled(c, g) && |d| == 1 && owed <= n
    ensures Separated(Quiet(n) + b + c + d + Quiet(1), g, owed)
  {
    SeparatedQuiet(n, g, owed);
    SeparatedConcat(Quiet(n), b, g, owed);
    SeparatedConcat(Quiet(n) + b, c, g, owed);
    SeparatedConcat(Quiet(n) + b + c, d, g, owed);
    assert d[1..] == [];
    SeparatedQuiet(1, g, Debt(d, g, 0));
    SeparatedConcat(Quiet(n) + b + c + d, Quiet(1), g, owed);
  }

  // ------------------------------------------------------- Time between refreshes

  /** A row cycle and a refresh fit in the refresh interval. */
  predicate IntervalFits(s: Settings) { s.tRFC + s.tRAS + s.tRP <= s.tREFI }

  const ACROSS: nat := 1 + PIPELINE_DELAY

  lemma SlotWithin(s: Settings, timeslice: nat, since: nat, limit: nat)
    requires s.refresh && timeslice > 0 && since <= limit
    ensures var t := InstrTrace(s.geometry, Slot(s, timeslice));
            Within(t, since, limit) && Since(t, since) == timeslice
  {
    var t := InstrTrace(s.geometry, Slot(s, timeslice));
    assert t[1..] == Quiet(timeslice - 1) && IsRefresh(t[0]);
    WithinQuiet(timeslice - 1, 1, limit);
  }

  lemma RowWithin(s: Settings, op: nat, timeslice: nat, address: nat, since: nat, limit: nat)
    requires op in {ACT, PRE} && timeslice > 0
    ensures var t := InstrTrace(s.geometry, Dfi(op, timeslice, Some(address)));
            Within(t, since, limit) && Since(t, since) == since + timeslice
  {
    var t := InstrTrace(s.geometry, Dfi(op, timeslice, Some(address)));
    assert t[1..] == Quiet(timeslice - 1) && !IsRefresh(t[0]);
    WithinQuiet(timeslice - 1, since + 1, limit);
  }

  lemma TwoWithin(t: seq<Bus>, u: seq<Bus>, m: nat, n: nat, since: nat, limit: nat)
    requires Within(t, since, limit) && Since(t, since) == since + m
    requires Within(u, since + m, limit) && Since(u, since + m) == since + m + n
    ensures Within(t + u, since, limit) && Since(t + u, since) == since + m + n
  {
    WithinConcat(t, u, since, limit);
  }

  lemma RowsWithin(s: Settings, i: Instruction, j: Instruction, since: nat, limit: nat)
    requires i.Dfi? && i.op in {ACT, PRE} && i.address.Some? && i.timeslice > 0
    requires j.Dfi? && j.op in {ACT, PRE} && j.address.Some? && j.timeslice > 0
    ensures var t := InstrTrace(s.geometry, i) + InstrTrace(s.geometry, j);
            Within(t, since, limit) && Since(t, since) == since + i.timeslice + j.timeslice
  {
    RowWithin(s, i.op, i.timeslice, i.address.value, since, limit);
    RowWithin(s, j.op, j.timeslice, j.address.value, since + i.timeslice, limit);
    TwoWithin(InstrTrace(s.geometry, i), InstrTrace(s.geometry, j), i.timeslice, j.timeslice, since, limit);
  }

  lemma PairWithin(s: Settings, row: nat, since: nat, limit: nat)
    requires s.tRAS > 0 && s.tRP > 0
    ensures var t := InstrsTrace(s.geometry, [Activate(s, row), Precharge(s)]);
            Within(t, since, limit) && Since(t, since) == since + s.tRAS + s.tRP
  {
    TraceOfTwo(s.geometry, Activate(s, row), Precharge(s));
    RowsWithin(s, Activate(s, row), Precharge(s), since, limit);
  }

  lemma ChunkWithin(s: Settings, row: nat, accum: nat, since: nat)
    requires s.refresh && IntervalFits(s) && AllAccepted(Chunk(s, row, accum)) && since <= accum <= s.tREFI
    ensures var t := InstrsTrace(s.geometry, Chunk(s, row, accum));
            Within(t, since, s.tREFI) && Since(t, since) <= NextAccum(s, accum) <= s.tREFI
  {
    var g, slots, pair := s.geometry, if Due(s, accum) then [Slot(s, s.tRFC)] else [], [Activate(s, row), Precharge(s)];
    AcceptedConcat(slots, pair);
    assert pair[0].Accepted() && pair[1].Accepted();
    InstrsTraceConcat(g, slots, pair);
    WithinConcat(InstrsTrace(g, slots), InstrsTrace(g, pair), since, s.tREFI);
    if Due(s, accum) {
      assert slots[0].Accepted();
      TraceOfOne(g, Slot(s, s.tRFC));
      SlotWithin(s, s.tRFC, since, s.tREFI);
      PairWithin(s, row, s.tRFC, s.tREFI);
    } else {
      PairWithin(s, row, since, s.tREFI);
    }
  }

  /** Inside a loop body every refresh starts at most tREFI after the previous one. */
  lemma {:induction false} BodyWithin(s: Settings, rows: seq<nat>, accum: nat, since: nat)
    requires s.refresh && IntervalFits(s) && AllAccepted(Body(s, rows, accum)) && since <= accum <= s.tREFI
    ensures var t := InstrsTrace(s.geometry, Body(s, rows, accum));
            Within(t, since, s.tREFI) && Since(t, since) <= s.tREFI
  {
    if rows != [] {
      var g, chunk, rest := s.geometry, Chunk(s, rows[0], accum), Body(s, rows[1..], NextAccum(s, accum));
      AcceptedConcat(chunk, rest);
      ChunkWithin(s, rows[0], accum, since);
      BodyWithin(s, rows[1..], NextAccum(s, accum), Since(InstrsTrace(g, chunk), since));
      InstrsTraceConcat(g, chunk, rest);
      WithinConcat(InstrsTrace(g, chunk), InstrsTrace(g, rest), since, s.tREFI);
    }
  }

  /** Cycles from the refresh that triggers the handover to the first line of the trace: two until
      the executor's registers drive the bus, then the launch. */
  const HANDOVER: nat := 2 + 1 + PIPELINE_DELAY
}
