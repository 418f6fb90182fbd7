/** The row commands and the refreshes in the bus cycles of a payload. */
module PayloadResults {
  import opened Bits
  import opened Isa
  import opened Executor
  import opened Interpreter
  import opened Program
  import opened Layouts
  import opened Refinement
  import opened Traces
  import opened PayloadCompiler
  import opened PayloadTraces
  import opened Wrappers

  // ------------------------------------------------------- Which rows

  function ActLine(s: Settings, row: nat): Bus { Command(0, ACT, OneRank(s.rank), s.bank, row) }

  /** Address bit 10 of a precharge means all banks. */
  function PreLine(s: Settings): Bus { Command(0, PRE, OneRank(s.rank), 0, 1024) }

  /** Each row activated, directly followed by its precharge. */
  function Pairs(s: Settings, rows: seq<nat>): seq<Bus> {
    if rows == [] then [] else [ActLine(s, rows[0]), PreLine(s)] + Pairs(s, rows[1..])
  }

  lemma {:induction false} PairsConcat(s: Settings, a: seq<nat>, b: seq<nat>)
    ensures Pairs(s, a + b) == Pairs(s, a) + Pairs(s, b)
  {
    if a == [] {
      assert a + b == b;
    } else {
      PairsConcat(s, a[1..], b);
      FirstOfConcat(a, b);
      Associate([ActLine(s, a[0]), PreLine(s)], Pairs(s, a[1..]), Pairs(s, b));
    }
  }

  lemma {:induction false} PairsRepeat(s: Settings, n: nat, rows: seq<nat>)
    ensures Pairs(s, Repeat(n, rows)) == Repeat(n, Pairs(s, rows))
  {
    if n > 0 {
      PairsRepeat(s, n - 1, rows);
      PairsConcat(s, rows, Repeat(n - 1, rows));
    }
  }

  lemma LineDrives(g: Geometry, op: nat, rank: nat, bank: nat, rowcol: nat)
    requires g.Valid() && op in {ACT, PRE}
    requires rank < Pow2(g.rankbits) && bank < Pow2(g.bankbits) && rowcol < Pow2(g.addrbits)
    ensures Line(g, op, Address(g, rank, bank, rowcol)) == Command(0, op, OneRank(rank), bank, rowcol)
  {
    AddressRoundTrip(g, rank, bank, rowcol);
    Powers();
  }

  lemma ActDrives(s: Settings, row: nat)
    requires Fits(s, [row])
    ensures Line(s.geometry, ACT, Address(s.geometry, s.rank, s.bank, row)) == ActLine(s, row)
  {
    assert [row][0] == row;
    LineDrives(s.geometry, ACT, s.rank, s.bank, row);
  }

  lemma BitTen(addrbits: nat)
    requires addrbits > 10
    ensures 1024 < Pow2(addrbits)
  {
    Powers();
    assert Pow2(12) == 2 * Pow2(11);
    Pow2Monotone(11, addrbits);
  }

  lemma PreDrives(s: Settings)
    requires Fits(s, [])
    ensures Line(s.geometry, PRE, Address(s.geometry, s.rank, 0, 1024)) == PreLine(s)
  {
    BitTen(s.geometry.addrbits);
    LineDrives(s.geometry, PRE, s.rank, 0, 1024);
  }

  lemma InstrsTraceCons(g: Geometry, p: seq<Instruction>)
    requires p != []
    ensures InstrsTrace(g, p) == InstrTrace(g, p[0]) + InstrsTrace(g, p[1..])
  {
  }

  lemma {:induction false} InstrsTraceConcat(g: Geometry, a: seq<Instruction>, b: seq<Instruction>)
    ensures InstrsTrace(g, a + b) == InstrsTrace(g, a) + InstrsTrace(g, b)
  {
    if a == [] {
      assert a + b == b;
    } else {
      FirstOfConcat(a, b);
      InstrsTraceConcat(g, a[1..], b);
      InstrsTraceCons(g, a);
      InstrsTraceCons(g, a + b);
      Associate(InstrTrace(g, a[0]), InstrsTrace(g, a[1..]), InstrsTrace(g, b));
    }
  }

  lemma TraceOfOne(g: Geometry, i: Instruction)
    ensures InstrsTrace(g, [i]) == InstrTrace(g, i)
  {
    assert [i][1..] == [];
    assert InstrsTrace(g, []) == [];
  }

  lemma TraceOfTwo(g: Geometry, i: Instruction, j: Instruction)
    ensures InstrsTrace(g, [i, j]) == InstrTrace(g, i) + InstrTrace(g, j)
  {
    assert [i, j] == [i] + [j];
    InstrsTraceConcat(g, [i], [j]);
    TraceOfOne(g, i);
    TraceOfOne(g, j);
  }

  /** The row commands and the number of refreshes in a trace. */
  predicate Counts(t: seq<Bus>, hammers: seq<Bus>, refreshes: nat) {
    Hammers(t) == hammers && Refreshes(t) == refreshes
  }

  lemma CountsConcat(t: seq<Bus>, h: seq<Bus>, m: nat, u: seq<Bus>, k: seq<Bus>, n: nat)
    requires Counts(t, h, m) && Counts(u, k, n)
    ensures Counts(t + u, h + k, m + n)
  {
    HammersConcat(t, u);
    RefreshesConcat(t, u);
  }

  /** Traces without row commands before or after one. */
  lemma CountsAround(t: seq<Bus>, m: nat, u: seq<Bus>, h: seq<Bus>, n: nat)
    requires Counts(t, [], m) && Counts(u, h, n)
    ensures Counts(t + u, h, m + n) && Counts(u + t, h, m + n)
  {
    CountsConcat(t, [], m, u, h, n);
    CountsConcat(u, h, n, t, [], m);
    assert [] + h == h && h + [] == h;
  }

  lemma CountsQuiet(n: nat)
    ensures Counts(Quiet(n), [], 0)
  {
    HammersQuiet(n);
    RefreshesQuiet(n);
  }

  lemma OneCommand(b: Bus, n: nat)
    ensures Hammers([b] + Quiet(n)) == if b.Command? && b.op != REF then [b] else []
    ensures Refreshes([b] + Quiet(n)) == if IsRefresh(b) then 1 else 0
  {
    CountsQuiet(n);
    assert ([b] + Quiet(n))[1..] == Quiet(n);
  }

  lemma SlotCounts(s: Settings, timeslice: nat)
    requires Slot(s, timeslice).Accepted()
    ensures Hammers(InstrTrace(s.geometry, Slot(s, timeslice))) == []
    ensures Refreshes(InstrTrace(s.geometry, Slot(s, timeslice))) == if s.refresh then 1 else 0
  {
    if s.refresh {
      OneCommand(Line(s.geometry, REF, 0), timeslice - 1);
    } else {
      HammersQuiet(timeslice);
      RefreshesQuiet(timeslice);
    }
  }

  lemma PairCounts(s: Settings, row: nat)
    requires Fits(s, [row]) && s.tRAS > 0 && s.tRP > 0
    ensures var t := InstrsTrace(s.geometry, [Activate(s, row), Precharge(s)]);
            Hammers(t) == [ActLine(s, row), PreLine(s)] && Refreshes(t) == 0
  {
    ActDrives(s, row);
    PreDrives(s);
    TraceOfTwo(s.geometry, Activate(s, row), Precharge(s));
    var t, u := [ActLine(s, row)] + Quiet(s.tRAS - 1), [PreLine(s)] + Quiet(s.tRP - 1);
    assert InstrTrace(s.geometry, Activate(s, row)) == t && InstrTrace(s.geometry, Precharge(s)) == u;
    OneCommand(ActLine(s, row), s.tRAS - 1);
    OneCommand(PreLine(s), s.tRP - 1);
    HammersConcat(t, u);
    RefreshesConcat(t, u);
  }

  lemma ChunkCounts(s: Settings, row: nat, accum: nat)
    requires Fits(s, [row]) && AllAccepted(Chunk(s, row, accum))
    ensures var t := InstrsTrace(s.geometry, Chunk(s, row, accum));
            && Hammers(t) == [ActLine(s, row), PreLine(s)]
            && Refreshes(t) == if s.refresh && Due(s, accum) then 1 else 0
  {
    var g, slots, pair := s.geometry, if Due(s, accum) then [Slot(s, s.tRFC)] else [], [Activate(s, row), Precharge(s)];
    AcceptedConcat(slots, pair);
    assert pair[0].Accepted() && pair[1].Accepted();
    PairCounts(s, row);
    InstrsTraceConcat(g, slots, pair);
    HammersConcat(InstrsTrace(g, slots), InstrsTrace(g, pair));
    RefreshesConcat(InstrsTrace(g, slots), InstrsTrace(g, pair));
    if Due(s, accum) {
      assert slots[0].Accepted();
      SlotCounts(s, s.tRFC);
      TraceOfOne(g, Slot(s, s.tRFC));
    }
  }

  /** A loop body hammers exactly the rows of its stream, in order. */
  lemma {:induction false} BodyCounts(s: Settings, rows: seq<nat>, accum: nat)
    requires Fits(s, rows) && AllAccepted(Body(s, rows, accum))
    ensures var t := InstrsTrace(s.geometry, Body(s, rows, accum));
            Hammers(t) == Pairs(s, rows) && Refreshes(t) == if s.refresh then Slots(s, rows, accum) else 0
  {
    if rows != [] {
      var g, chunk, rest := s.geometry, Chunk(s, rows[0], accum), Body(s, rows[1..], NextAccum(s, accum));
      AcceptedConcat(chunk, rest);
      ChunkCounts(s, rows[0], accum);
      BodyCounts(s, rows[1..], NextAccum(s, accum));
      InstrsTraceConcat(g, chunk, rest);
      HammersConcat(InstrsTrace(g, chunk), InstrsTrace(g, rest));
      RefreshesConcat(InstrsTrace(g, chunk), InstrsTrace(g, rest));
    }
  }

  lemma {:induction false} FitsRepeat(s: Settings, n: nat, rows: seq<nat>)
    requires Fits(s, rows)
    ensures Fits(s, Repeat(n, rows))
  {
    if n > 0 {
      FitsRepeat(s, n - 1, rows);
    }
  }

  lemma UnrolledCounts(s: Settings, unrolled: nat, rows: seq<nat>)
    requires Fits(s, rows) && AllAccepted(UnrolledBody(s, unrolled, rows))
    ensures Counts(InstrsTrace(s.geometry, UnrolledBody(s, unrolled, rows)), Repeat(unrolled, Pairs(s, rows)),
                   if s.refresh then BodySlots(s, unrolled, rows) else 0)
  {
    FitsRepeat(s, unrolled, rows);
    LoopBodyCounts(s, Repeat(unrolled, rows));
    PairsRepeat(s, unrolled, rows);
  }

  lemma SlotTrace(s: Settings)
    requires Slot(s, s.tRFC).Accepted()
    ensures Counts(InstrsTrace(s.geometry, [Slot(s, s.tRFC)]), [], if s.refresh then 1 else 0)
  {
    SlotCounts(s, s.tRFC);
    TraceOfOne(s.geometry, Slot(s, s.tRFC));
  }

  lemma LoopBodyCounts(s: Settings, stream: seq<nat>)
    requires Fits(s, stream) && AllAccepted(LoopBody(s, stream))
    ensures Counts(InstrsTrace(s.geometry, LoopBody(s, stream)), Pairs(s, stream),
                   if s.refresh then 1 + Slots(s, stream, s.tRFC + 1) else 0)
  {
    var g, slot, body := s.geometry, [Slot(s, s.tRFC)], Body(s, stream, s.tRFC + 1);
    LoopBodyAccepted(s, stream);
    SlotTrace(s);
    BodyCounts(s, stream, s.tRFC + 1);
    InstrsTraceConcat(g, slot, body);
    CountsAround(InstrsTrace(g, slot), if s.refresh then 1 else 0, InstrsTrace(g, body), Pairs(s, stream),
                 if s.refresh then Slots(s, stream, s.tRFC + 1) else 0);
  }

  // ------------------------------------------------------- Loops

  /** The row commands of loops, from those of a body and of its repeated end. */
  function LoopsHammers(whole: seq<Bus>, tail: seq<Bus>, counts: seq<nat>): seq<Bus> {
    if counts == [] then []
    else
      var n := |counts| - 1;
      LoopsHammers(whole, tail, counts[..n]) + (whole + Repeat(counts[n], tail))
  }

  function LoopsRefreshes(whole: nat, tail: nat, counts: seq<nat>): nat {
    if counts == [] then 0
    else
      var n := |counts| - 1;
      LoopsRefreshes(whole, tail, counts[..n]) + (whole + Times(counts[n], tail))
  }

  lemma {:induction false} RepeatRefreshes(n: nat, t: seq<Bus>)
    ensures Refreshes(Repeat(n, t)) == Times(n, Refreshes(t))
  {
    RefreshesRepeat(n, t);
  }

  lemma JumpsCount(t: seq<Bus>, count: nat)
    ensures Counts(JumpsTrace(t, count), Repeat(count, Hammers(t)), Times(count, Refreshes(t)))
  {
    var turn := Quiet(1 + PIPELINE_DELAY) + t;
    CountsQuiet(1 + PIPELINE_DELAY);
    CountsAround(Quiet(1 + PIPELINE_DELAY), 0, t, Hammers(t), Refreshes(t));
    HammersRepeat(count, turn);
    RepeatRefreshes(count, turn);
    CountsQuiet(1);
    CountsAround(Quiet(1), 0, Repeat(count, turn), Repeat(count, Hammers(t)), Times(count, Refreshes(t)));
  }

  lemma {:induction false} LoopsCount(whole: seq<Bus>, tail: seq<Bus>, counts: seq<nat>)
    ensures Counts(LoopsTrace(whole, tail, counts), LoopsHammers(Hammers(whole), Hammers(tail), counts),
                   LoopsRefreshes(Refreshes(whole), Refreshes(tail), counts))
  {
    if counts != [] {
      var n := |counts| - 1;
      var front := counts[..n];
      LoopsCount(whole, tail, front);
      JumpsCount(tail, counts[n]);
      CountsConcat(whole, Hammers(whole), Refreshes(whole), JumpsTrace(tail, counts[n]),
                   Repeat(counts[n], Hammers(tail)), Times(counts[n], Refreshes(tail)));
      CountsConcat(LoopsTrace(whole, tail, front), LoopsHammers(Hammers(whole), Hammers(tail), front),
                   LoopsRefreshes(Refreshes(whole), Refreshes(tail), front), whole + JumpsTrace(tail, counts[n]),
                   Hammers(whole) + Repeat(counts[n], Hammers(tail)), Refreshes(whole) + Times(counts[n], Refreshes(tail)));
    }
  }

  /** The whole body once for each loop, its end once for each jump. */
  lemma {:induction false} LoopsRefreshesAre(whole: nat, tail: nat, counts: seq<nat>)
    ensures LoopsRefreshes(whole, tail, counts) == Times(|counts|, whole) + Times(Jumps(counts), tail)
  {
    if counts != [] {
      var n := |counts| - 1;
      LoopsRefreshesAre(whole, tail, counts[..n]);
      TimesAdd(n, 1, whole);
      TimesAdd(Jumps(counts[..n]), counts[n], tail);
    }
  }

  // ------------------------------------------------------- What the jumps lose

  lemma {:induction false} NoHammerLost(whole: seq<Bus>, tail: seq<Bus>, counts: seq<nat>)
    requires tail == whole || NoJumps(counts)
    ensures LoopsHammers(whole, tail, counts) == Repeat(BodyRuns(counts), whole)
  {
    if counts != [] {
      var n := |counts| - 1;
      NoHammerLost(whole, tail, counts[..n]);
      RepeatAdd(BodyRuns(counts[..n]), counts[n] + 1, whole);
    }
  }

  lemma {:induction false} HammersLost(whole: seq<Bus>, tail: seq<Bus>, counts: seq<nat>)
    requires |tail| < |whole|
    ensures |LoopsHammers(whole, tail, counts)| <= |Repeat(BodyRuns(counts), whole)|
    ensures !NoJumps(counts) ==> |LoopsHammers(whole, tail, counts)| < |Repeat(BodyRuns(counts), whole)|
  {
    if counts != [] {
      var n := |counts| - 1;
      HammersLost(whole, tail, counts[..n]);
      RepeatAdd(BodyRuns(counts[..n]), counts[n] + 1, whole);
      Shorter(counts[n], tail, whole);
    }
  }

  lemma {:induction false} Shorter(n: nat, a: seq<Bus>, b: seq<Bus>)
    requires |a| < |b|
    ensures |Repeat(n, a)| + n <= |Repeat(n, b)|
  {
    if n > 0 {
      Shorter(n - 1, a, b);
    }
  }

  lemma TimesAdd(a: nat, b: nat, n: nat)
    ensures Times(a + b, n) == Times(a, n) + Times(b, n)
    ensures Times(1, n) == n
  {
  }

  lemma Fewer(n: nat, a: nat, b: nat)
    requires a < b
    ensures Times(n, a) + n <= Times(n, b)
  {
    MulMonotone(a + 1, b, n);
  }

  lemma {:induction false} NoRefreshLost(whole: nat, tail: nat, counts: seq<nat>)
    requires tail == whole || NoJumps(counts)
    ensures LoopsRefreshes(whole, tail, counts) == Times(BodyRuns(counts), whole)
  {
    if counts != [] {
      var n := |counts| - 1;
      NoRefreshLost(whole, tail, counts[..n]);
      TimesAdd(BodyRuns(counts[..n]), counts[n] + 1, whole);
      TimesAdd(counts[n], 1, whole);
    }
  }

  lemma {:induction false} RefreshesLost(whole: nat, tail: nat, counts: seq<nat>)
    requires tail < whole
    ensures LoopsRefreshes(whole, tail, counts) <= Times(BodyRuns(counts), whole)
    ensures !NoJumps(counts) ==> LoopsRefreshes(whole, tail, counts) < Times(BodyRuns(counts), whole)
  {
    if counts != [] {
      var n := |counts| - 1;
      RefreshesLost(whole, tail, counts[..n]);
      TimesAdd(BodyRuns(counts[..n]), counts[n] + 1, whole);
      TimesAdd(counts[n], 1, whole);
      Fewer(counts[n], tail, whole);
    }
  }

  // ------------------------------------------------------- The whole payload

  /** Only the loops hammer; with refresh on the last slot adds one refresh. */
  lemma PartsCount(s: Settings, many: seq<Bus>, once: seq<Bus>)
    ensures Counts(PartsTrace(s, many, once), Hammers(many) + Hammers(once),
                   Refreshes(many) + Refreshes(once) + if s.refresh then 1 else 0)
  {
    var slot := InstrTrace(s.geometry, Slot(s, 1));
    LastTwoAccepted(s);
    SlotCounts(s, 1);
    CountsQuiet(Lead(s));
    CountsQuiet(1);
    SumCounts(Quiet(Lead(s)), many, Hammers(many), Refreshes(many), once, Hammers(once), Refreshes(once),
              slot, if s.refresh then 1 else 0, Quiet(1));
  }

  lemma SumCounts(a: seq<Bus>, b: seq<Bus>, h: seq<Bus>, m: nat, c: seq<Bus>, k: seq<Bus>, n: nat,
                  d: seq<Bus>, l: nat, e: seq<Bus>)
    requires Counts(a, [], 0) && Counts(b, h, m) && Counts(c, k, n) && Counts(d, [], l) && Counts(e, [], 0)
    ensures Counts(a + b + c + d + e, h + k, m + n + l)
  {
    CountsAround(a, 0, b, h, m);
    CountsConcat(a + b, h, m, c, k, n);
    CountsAround(d, l, a + b + c, h + k, m + n);
    CountsAround(e, 0, a + b + c + d, h + k, m + n + l);
  }

  lemma SplitRuns(n: nat, r: nat, h: seq<Bus>)
    requires r > 0
    ensures Repeat(Times(n / r, r), h) + Repeat(Times(n % r, 1), h) == Repeat(n, h)
  {
    RepeatAdd(Times(n / r, r), n % r, h);
    assert n / r * r + n % r == n;
  }
}
