/** The longest time without a refresh in a generated payload: from the last refresh of a body over the
    jumps to the next one. */
module RefreshGaps {
  import opened Bits
  import opened Isa
  import opened Executor
  import opened Interpreter
  import opened Program
  import opened Layouts
  import opened Refinement
  import opened Traces
  import opened PayloadCompiler
  import opened PayloadTraces
  import opened PayloadResults
  import opened PayloadSpacing
  import opened PayloadWords
  import opened PayloadCuts
  import opened Wrappers

  // ------------------------------------------------------- From the settings

  /** Cycles from the last refresh slot of a body to its end; the accumulator starts one ahead. */
  function BehindLast(s: Settings, stream: seq<nat>): nat {
    var accum := AccumAfter(s, stream, s.tRFC + 1);
    if Slots(s, stream, s.tRFC + 1) == 0 && accum > 0 then accum - 1 else accum
  }

  /** What the LOOP over a body repeats. */
  function Repeated(s: Settings, unrolled: nat, rows: seq<nat>): seq<Instruction> {
    Cut(UnrolledBody(s, unrolled, rows), ExtraWords(s, unrolled, rows))
  }

  /** With `behind` cycles since the last refresh of a body: the time to the next one after a jump, if what is
      repeated has one, and else to the one behind the loop. */
  function GapOf(behind: nat, refreshes: bool, until: nat, length: nat, count: nat): nat {
    if count > 0 && refreshes then behind + ACROSS + until else behind + Times(count, ACROSS + length) + 1
  }

  /** The longest time without a refresh from the loops over one body. */
  function LongestGap(s: Settings, unrolled: nat, rows: seq<nat>, rolled: nat): nat {
    var tail := Repeated(s, unrolled, rows);
    GapOf(BehindLast(s, Repeat(unrolled, rows)), RefreshesOf(tail) > 0, TimeUntil(tail), TimeOf(tail), MostJumps(rolled))
  }

  predicate BodyInTime(s: Settings, unrolled: nat, rows: seq<nat>, rolled: nat, limit: nat) {
    rolled == 0 || LongestGap(s, unrolled, rows, rolled) <= limit
  }

  /** Both loops of the payload keep the limit. */
  predicate InTime(s: Settings, rows: seq<nat>, r: nat, readCount: nat, limit: nat)
    requires r > 0
  {
    BodyInTime(s, r, rows, readCount / r, limit) && BodyInTime(s, 1, rows, readCount % r, limit)
  }

  /** The refreshes of the loops over one body: its slots once for each loop, and for each jump those that
      are repeated. */
  function LoopRefreshes(s: Settings, unrolled: nat, rows: seq<nat>, rolled: nat): nat {
    Times(|LoopCounts(rolled)|, BodySlots(s, unrolled, rows)) + Times(JumpsOf(rolled), RefreshesOf(Repeated(s, unrolled, rows)))
  }

  function RefreshesIssued(s: Settings, rows: seq<nat>, r: nat, readCount: nat): nat
    requires r > 0
  {
    LoopRefreshes(s, r, rows, readCount / r) + LoopRefreshes(s, 1, rows, readCount % r)
  }

  // ------------------------------------------------------- Loops

  /** The trace starts its first refresh `until` cycles after it is entered and ends `behind` cycles after its
      last one, and between them it keeps the limit. */
  ghost predicate Opens(t: seq<Bus>, until: nat, behind: nat, limit: nat) {
    forall since: nat :: (Within(t, since, limit) <==> since + until <= limit) && Since(t, since) == behind
  }

  /** A trace that keeps the limit, also up to a refresh right behind it. */
  predicate Holds(t: seq<Bus>, since: nat, limit: nat) { Within(t, since, limit) && Since(t, since) <= limit }

  lemma OpensFrom(t: seq<Bus>, since: nat, limit: nat)
    requires Refreshes(t) > 0 && Within(t, since, limit)
    ensures Opens(t, Until(t), Since(t, since), limit)
  {
    forall other: nat
      ensures (Within(t, other, limit) <==> other + Until(t) <= limit) && Since(t, other) == Since(t, since)
    {
      OtherStart(t, since, other, limit);
    }
  }

  lemma {:induction false} TurnsFrom(n: nat, t: seq<Bus>, until: nat, behind: nat, limit: nat)
    requires Opens(t, until, behind, limit)
    ensures var turns := Repeat(n, Quiet(ACROSS) + t);
            (Within(turns, behind, limit) <==> (n > 0 ==> behind + ACROSS + until <= limit)) && Since(turns, behind) == behind
  {
    if n > 0 {
      WithinQuiet(ACROSS, behind, limit);
      WithinConcat(Quiet(ACROSS), t, behind, limit);
      TurnsFrom(n - 1, t, until, behind, limit);
      WithinConcat(Quiet(ACROSS) + t, Repeat(n - 1, Quiet(ACROSS) + t), behind, limit);
    }
  }

  lemma JumpsRefreshing(t: seq<Bus>, count: nat, until: nat, behind: nat, limit: nat)
    requires Opens(t, until, behind, limit)
    ensures Within(JumpsTrace(t, count), behind, limit) <==> (count > 0 ==> behind + ACROSS + until <= limit)
    ensures Since(JumpsTrace(t, count), behind) == behind + 1
  {
    TurnsFrom(count, t, until, behind, limit);
    WithinQuiet(1, behind, limit);
    WithinConcat(Repeat(count, Quiet(ACROSS) + t), Quiet(1), behind, limit);
  }

  lemma JumpsIdle(t: seq<Bus>, count: nat, since: nat, limit: nat)
    requires Refreshes(t) == 0
    ensures Within(JumpsTrace(t, count), since, limit)
    ensures Since(JumpsTrace(t, count), since) == since + Times(count, ACROSS + |t|) + 1
  {
    JumpsCount(t, count);
    RepeatLength(count, Quiet(ACROSS) + t);
    NoRefresh(JumpsTrace(t, count), since, limit);
  }

  lemma JumpsHold(tail: seq<Bus>, count: nat, behind: nat, limit: nat)
    requires Refreshes(tail) > 0 ==> Opens(tail, Until(tail), behind, limit)
    ensures Holds(JumpsTrace(tail, count), behind, limit) <==>
            GapOf(behind, Refreshes(tail) > 0, Until(tail), |tail|, count) <= limit
  {
    if Refreshes(tail) > 0 {
      JumpsRefreshing(tail, count, Until(tail), behind, limit);
    } else {
      JumpsIdle(tail, count, behind, limit);
    }
  }

  lemma HoldsConcat(a: seq<Bus>, b: seq<Bus>, since: nat, limit: nat)
    ensures Holds(a + b, since, limit) <==> Within(a, since, limit) && Holds(b, Since(a, since), limit)
  {
    WithinConcat(a, b, since, limit);
  }

  predicate GapsWithin(behind: nat, refreshes: bool, until: nat, length: nat, counts: seq<nat>, limit: nat) {
    forall k :: 0 <= k < |counts| ==> GapOf(behind, refreshes, until, length, counts[k]) <= limit
  }

  lemma GapsSnoc(behind: nat, refreshes: bool, until: nat, length: nat, counts: seq<nat>, n: nat, limit: nat)
    requires |counts| == n + 1
    ensures GapsWithin(behind, refreshes, until, length, counts, limit) <==>
            GapsWithin(behind, refreshes, until, length, counts[..n], limit)
            && GapOf(behind, refreshes, until, length, counts[n]) <= limit
  {
    assert forall k :: 0 <= k < n ==> counts[..n][k] == counts[k];
  }

  lemma {:induction false} LoopsHold(whole: seq<Bus>, tail: seq<Bus>, behind: nat, counts: seq<nat>, since: nat, limit: nat)
    requires counts != [] ==> Opens(whole, 0, behind, limit)
    requires counts != [] && Refreshes(tail) > 0 ==> Opens(tail, Until(tail), behind, limit)
    ensures Holds(LoopsTrace(whole, tail, counts), since, limit) <==>
            since <= limit && GapsWithin(behind, Refreshes(tail) > 0, Until(tail), |tail|, counts, limit)
  {
    if counts != [] {
      var n := |counts| - 1;
      var front, jumps := LoopsTrace(whole, tail, counts[..n]), JumpsTrace(tail, counts[n]);
      LoopsHold(whole, tail, behind, counts[..n], since, limit);
      JumpsHold(tail, counts[n], behind, limit);
      HoldsConcat(whole, jumps, Since(front, since), limit);
      HoldsConcat(front, whole + jumps, since, limit);
      GapsSnoc(behind, Refreshes(tail) > 0, Until(tail), |tail|, counts, n, limit);
    }
  }

  lemma GapGrows(behind: nat, refreshes: bool, until: nat, length: nat, count: nat, more: nat)
    requires count <= more
    ensures GapOf(behind, refreshes, until, length, count) <= GapOf(behind, refreshes, until, length, more)
  {
    MulMonotone(count, more, ACROSS + length);
  }

  /** Of the loops for a number of runs only the longest has to be looked at. */
  lemma LongestDecides(behind: nat, refreshes: bool, until: nat, length: nat, rolled: nat, limit: nat)
    ensures GapsWithin(behind, refreshes, until, length, LoopCounts(rolled), limit) <==>
            rolled == 0 || GapOf(behind, refreshes, until, length, MostJumps(rolled)) <= limit
  {
    LoopsExist(rolled);
    if rolled > 0 {
      MostIsMost(rolled);
      forall k | 0 <= k < |LoopCounts(rolled)|
        ensures GapOf(behind, refreshes, until, length, LoopCounts(rolled)[k]) <=
                GapOf(behind, refreshes, until, length, MostJumps(rolled))
      {
        GapGrows(behind, refreshes, until, length, LoopCounts(rolled)[k], MostJumps(rolled));
      }
    }
  }

  // ------------------------------------------------------- Bodies

  lemma ChunkSince(s: Settings, row: nat, accum: nat, since: nat)
    requires s.refresh && AllAccepted(Chunk(s, row, accum))
    ensures Since(InstrsTrace(s.geometry, Chunk(s, row, accum)), since) ==
            if Due(s, accum) then NextAccum(s, accum) else since + s.tRAS + s.tRP
  {
    var g, slots, pair := s.geometry, if Due(s, accum) then [Slot(s, s.tRFC)] else [], [Activate(s, row), Precharge(s)];
    AcceptedConcat(slots, pair);
    assert pair[0].Accepted() && pair[1].Accepted();
    InstrsTraceConcat(g, slots, pair);
    WithinConcat(InstrsTrace(g, slots), InstrsTrace(g, pair), since, since);
    if Due(s, accum) {
      assert slots[0].Accepted();
      TraceOfOne(g, Slot(s, s.tRFC));
      SlotSince(s, s.tRFC, since);
      PairWithin(s, row, s.tRFC, s.tREFI);
    } else {
      PairWithin(s, row, since, s.tREFI);
    }
  }

  lemma SlotSince(s: Settings, timeslice: nat, since: nat)
    requires s.refresh && timeslice > 0
    ensures Since(InstrTrace(s.geometry, Slot(s, timeslice)), since) == timeslice
  {
    SlotWithin(s, timeslice, since, since);
  }

  lemma {:induction false} BodySince(s: Settings, rows: seq<nat>, accum: nat, since: nat)
    requires s.refresh && AllAccepted(Body(s, rows, accum))
    ensures Since(InstrsTrace(s.geometry, Body(s, rows, accum)), since) ==
            if Slots(s, rows, accum) == 0 then since + AccumAfter(s, rows, accum) - accum else AccumAfter(s, rows, accum)
  {
    if rows != [] {
      var g, chunk, next := s.geometry, Chunk(s, rows[0], accum), NextAccum(s, accum);
      var rest := Body(s, rows[1..], next);
      AcceptedConcat(chunk, rest);
      ChunkSince(s, rows[0], accum, since);
      BodySince(s, rows[1..], next, Since(InstrsTrace(g, chunk), since));
      InstrsTraceConcat(g, chunk, rest);
      WithinConcat(InstrsTrace(g, chunk), InstrsTrace(g, rest), since, since);
    }
  }

  lemma {:induction false} AccumGrows(s: Settings, rows: seq<nat>, accum: nat)
    ensures Slots(s, rows, accum) == 0 ==> AccumAfter(s, rows, accum) >= accum
  {
    if rows != [] {
      AccumGrows(s, rows[1..], NextAccum(s, accum));
    }
  }

  lemma {:induction false} AccumFits(s: Settings, rows: seq<nat>, accum: nat)
    requires IntervalFits(s) && accum <= s.tREFI
    ensures AccumAfter(s, rows, accum) <= s.tREFI
  {
    if rows != [] {
      AccumFits(s, rows[1..], NextAccum(s, accum));
    }
  }

  /** A body starts with a refresh and ends as long after its last one as the settings say. */
  lemma BodyOpens(s: Settings, stream: seq<nat>, limit: nat)
    requires s.refresh && IntervalFits(s) && AllAccepted(LoopBody(s, stream)) && s.tRAS + s.tRP > 0 && s.tREFI <= limit
    ensures var t := InstrsTrace(s.geometry, LoopBody(s, stream));
            Within(t, 0, limit) && Since(t, 0) == BehindLast(s, stream) && Refreshes(t) > 0 && Until(t) == 0
  {
    var g, slot, body := s.geometry, Slot(s, s.tRFC), Body(s, stream, s.tRFC + 1);
    var t, u := InstrTrace(g, slot), InstrsTrace(g, body);
    LoopBodyAccepted(s, stream);
    TraceOfOne(g, slot);
    InstrsTraceConcat(g, [slot], body);
    SlotWithin(s, s.tRFC, 0, limit);
    SlotCounts(s, s.tRFC);
    BodyWithin(s, stream, s.tRFC + 1, s.tRFC);
    WithinLooser(u, s.tRFC, s.tREFI, limit);
    BodySince(s, stream, s.tRFC + 1, s.tRFC);
    AccumGrows(s, stream, s.tRFC + 1);
    WithinConcat(t, u, 0, limit);
    RefreshesConcat(t, u);
    UntilConcat(t, u);
  }

  lemma {:induction false} WithinLooser(t: seq<Bus>, since: nat, limit: nat, limit': nat)
    requires Within(t, since, limit) && limit <= limit'
    ensures Within(t, since, limit')
  {
    if t != [] {
      WithinLooser(t[1..], if IsRefresh(t[0]) then 1 else since + 1, limit, limit');
    }
  }

  /** The end of a body ends as long after a refresh as the whole, if it has one. */
  lemma EndOpens(front: seq<Bus>, tail: seq<Bus>, limit: nat)
    requires Within(front + tail, 0, limit) && Refreshes(tail) > 0
    ensures Opens(tail, Until(tail), Since(front + tail, 0), limit)
  {
    WithinConcat(front, tail, 0, limit);
    OpensFrom(tail, Since(front, 0), limit);
  }

  // ------------------------------------------------------- The whole payload

  /** The last slot is a refresh right behind the loops. */
  lemma PartsWithin(s: Settings, many: seq<Bus>, once: seq<Bus>, start: nat, limit: nat)
    requires s.refresh
    ensures Within(PartsTrace(s, many, once), start, limit) <==>
            Within(many, start + Lead(s), limit) && Holds(once, Since(many, start + Lead(s)), limit)
  {
    var lead, slot := Quiet(Lead(s)), InstrTrace(s.geometry, Slot(s, 1));
    WithinQuiet(Lead(s), start, limit);
    WithinConcat(lead, many, start, limit);
    WithinConcat(lead + many, once, start, limit);
    var s2 := Since(once, Since(many, start + Lead(s)));
    LastWithin(s, s2, limit);
    WithinConcat(lead + many + once, slot + Quiet(1), start, limit);
    Associate(lead + many + once, slot, Quiet(1));
  }

  lemma LastWithin(s: Settings, since: nat, limit: nat)
    requires s.refresh
    ensures Within(InstrTrace(s.geometry, Slot(s, 1)) + Quiet(1), since, limit) <==> since <= limit
  {
    var t := InstrTrace(s.geometry, Slot(s, 1)) + Quiet(1);
    assert IsRefresh(t[0]) && t[1..] == Quiet(1);
    WithinQuiet(1, 1, limit);
  }

  /** Both loops, in terms of what each of them needs. */
  lemma BothWithin(s: Settings, many: seq<Bus>, once: seq<Bus>, start: nat, limit: nat, first: bool, second: bool)
    requires s.refresh
    requires Holds(many, start + Lead(s), limit) <==> start + Lead(s) <= limit && first
    requires var since := Since(many, start + Lead(s)); Holds(once, since, limit) <==> since <= limit && second
    ensures Within(PartsTrace(s, many, once), start, limit) <==> start + Lead(s) <= limit && first && second
  {
    PartsWithin(s, many, once, start, limit);
  }

  // ------------------------------------------------------- When nothing is skipped

  lemma RepeatedWhole(s: Settings, unrolled: nat, rows: seq<nat>)
    requires s.refresh && ExtraWords(s, unrolled, rows) == 0
    ensures RefreshesOf(Repeated(s, unrolled, rows)) > 0 && TimeUntil(Repeated(s, unrolled, rows)) == 0
  {
    var body := UnrolledBody(s, unrolled, rows);
    assert body[0] == Slot(s, s.tRFC) && Repeated(s, unrolled, rows) == body;
  }

  lemma ShortGap(behind: nat, refreshes: bool, until: nat, length: nat, count: nat)
    requires count == 0 || (refreshes && until == 0)
    ensures GapOf(behind, refreshes, until, length, count) <= behind + ACROSS
  {
  }

  lemma WholeGap(s: Settings, unrolled: nat, rows: seq<nat>, rolled: nat)
    requires s.refresh && (rolled <= 1 || ExtraWords(s, unrolled, rows) == 0)
    ensures LongestGap(s, unrolled, rows, rolled) <= BehindLast(s, Repeat(unrolled, rows)) + ACROSS
  {
    var tail := Repeated(s, unrolled, rows);
    if rolled > 1 {
      RepeatedWhole(s, unrolled, rows);
    }
    ShortGap(BehindLast(s, Repeat(unrolled, rows)), RefreshesOf(tail) > 0, TimeUntil(tail), TimeOf(tail), MostJumps(rolled));
  }

  lemma BehindFits(s: Settings, stream: seq<nat>)
    requires IntervalFits(s) && s.tRAS + s.tRP > 0
    ensures BehindLast(s, stream) <= s.tREFI
  {
    AccumFits(s, stream, s.tRFC + 1);
  }

  /** Bodies that are repeated whole keep to the interval and the jump. */
  lemma WholeInTime(s: Settings, unrolled: nat, rows: seq<nat>, rolled: nat)
    requires s.refresh && IntervalFits(s) && s.tRAS + s.tRP > 0
    requires rolled <= 1 || ExtraWords(s, unrolled, rows) == 0
    ensures BodyInTime(s, unrolled, rows, rolled, s.tREFI + ACROSS)
  {
    BehindFits(s, Repeat(unrolled, rows));
    WholeGap(s, unrolled, rows, rolled);
  }
}
