/** What a generated payload delivers on the gateware. */
module PayloadDelivery {
  import opened Bits
  import opened Isa
  import opened Executor
  import opened Interpreter
  import opened Program
  import opened Layouts
  import opened Refinement
  import opened Traces
  import opened PayloadCompiler
  import opened PayloadTraces
  import opened PayloadResults
  import opened PayloadSpacing
  import opened PayloadWords
  import opened PayloadCuts
  import opened RefreshGaps
  import opened PayloadExecution
  import opened Wrappers

  // ------------------------------------------------------- Both loops

  lemma SumExact(all: seq<Bus>, goal: seq<Bus>, all': seq<Bus>, goal': seq<Bus>, exact: bool, exact': bool)
    requires |all| <= |goal| && (exact ==> all == goal) && (!exact ==> |all| < |goal|)
    requires |all'| <= |goal'| && (exact' ==> all' == goal') && (!exact' ==> |all'| < |goal'|)
    ensures all + all' == goal + goal' <==> exact && exact'
  {
  }

  /** What is asked of `q` runs of the unrolled body and `m` single passes. */
  function Asked(s: Settings, rows: seq<nat>, r: nat, q: nat, m: nat): seq<Bus> {
    Repeat(Times(q, r), Pairs(s, rows)) + Repeat(Times(m, 1), Pairs(s, rows))
  }

  lemma FullHammers(c: Config, s: Settings, rows: seq<nat>, r: nat, q: nat, m: nat)
    requires Runnable(c, s, r, rows, q) && Runnable(c, s, 1, rows, m)
    ensures Hammers(PartsTrace(s, RolledTrace(c, s, r, rows, q), RolledTrace(c, s, 1, rows, m))) == Asked(s, rows, r, q, m)
            <==> BodyExact(s, r, rows, q) && BodyExact(s, 1, rows, m)
  {
    var many, once := RolledTrace(c, s, r, rows, q), RolledTrace(c, s, 1, rows, m);
    PartsCount(s, many, once);
    RolledHammers(c, s, r, rows, q);
    RolledHammers(c, s, 1, rows, m);
    SumExact(Hammers(many), Repeat(Times(q, r), Pairs(s, rows)), Hammers(once), Repeat(Times(m, 1), Pairs(s, rows)),
             BodyExact(s, r, rows, q), BodyExact(s, 1, rows, m));
  }

  lemma RolledIssues(c: Config, s: Settings, unrolled: nat, rows: seq<nat>, rolled: nat)
    requires Runnable(c, s, unrolled, rows, rolled) && s.refresh
    ensures Refreshes(RolledTrace(c, s, unrolled, rows, rolled)) == LoopRefreshes(s, unrolled, rows, rolled)
  {
    var body, counts := UnrolledBody(s, unrolled, rows), LoopCounts(rolled);
    LoopsCount(Whole(c, body), Tail(c, body), counts);
    LoopsExist(rolled);
    if rolled > 0 {
      WholeBody(c, s, unrolled, rows);
      TailIsCut(c, s, unrolled, rows);
      Measured(s.geometry, Repeated(s, unrolled, rows));
    }
    JumpsOfRuns(rolled);
    LoopsRefreshesAre(Refreshes(Whole(c, body)), Refreshes(Tail(c, body)), counts);
    NoLoops(rolled, Refreshes(Whole(c, body)), Refreshes(Tail(c, body)));
    NoLoops(rolled, BodySlots(s, unrolled, rows), RefreshesOf(Repeated(s, unrolled, rows)));
  }

  lemma NoLoops(rolled: nat, whole: nat, tail: nat)
    ensures rolled == 0 ==> Times(|LoopCounts(rolled)|, whole) + Times(JumpsOf(rolled), tail) == 0
  {
    LoopsExist(rolled);
  }

  /** How many refreshes are issued, and when they are the reported ones. */
  lemma FullRefreshes(c: Config, s: Settings, rows: seq<nat>, r: nat, q: nat, m: nat)
    requires Runnable(c, s, r, rows, q) && Runnable(c, s, 1, rows, m) && s.refresh
    ensures var issued := Refreshes(PartsTrace(s, RolledTrace(c, s, r, rows, q), RolledTrace(c, s, 1, rows, m)));
            && issued == LoopRefreshes(s, r, rows, q) + LoopRefreshes(s, 1, rows, m) + 1
            && (issued == Times(BodySlots(s, r, rows), q) + Times(BodySlots(s, 1, rows), m) + 1
                <==> BodyWhole(s, r, rows, q) && BodyWhole(s, 1, rows, m))
  {
    PartsCount(s, RolledTrace(c, s, r, rows, q), RolledTrace(c, s, 1, rows, m));
    RolledRefreshes(c, s, r, rows, q);
    RolledRefreshes(c, s, 1, rows, m);
    RolledIssues(c, s, r, rows, q);
    RolledIssues(c, s, 1, rows, m);
  }

  lemma FullSeparated(c: Config, s: Settings, rows: seq<nat>, r: nat, q: nat, m: nat)
    requires Runnable(c, s, r, rows, q) && Runnable(c, s, 1, rows, m)
    ensures Separated(PartsTrace(s, RolledTrace(c, s, r, rows, q), RolledTrace(c, s, 1, rows, m)), Needs(s), Owed(s, HANDOVER))
  {
    RolledSettled(c, s, r, rows, q);
    RolledSettled(c, s, 1, rows, m);
    PartsSeparated(s, RolledTrace(c, s, r, rows, q), RolledTrace(c, s, 1, rows, m), Owed(s, HANDOVER));
  }

  lemma TailOpens(c: Config, s: Settings, unrolled: nat, rows: seq<nat>, behind: nat, limit: nat)
    requires var whole, tail := Whole(c, UnrolledBody(s, unrolled, rows)), Tail(c, UnrolledBody(s, unrolled, rows));
             Refreshes(tail) > 0 && Within(whole, 0, limit) && Since(whole, 0) == behind
    ensures var tail := Tail(c, UnrolledBody(s, unrolled, rows)); Opens(tail, Until(tail), behind, limit)
  {
    var ws, lost := WordsLost(c, s, unrolled, rows);
    Halves(ws, lost);
    BodyTraceConcat(c, ws[..lost], ws[lost..]);
    EndOpens(BodyTrace(c, ws[..lost]), BodyTrace(c, ws[lost..]), limit);
  }

  /** The refreshes of the loops over one body are close enough exactly when the longest gap is. */
  lemma RolledHolds(c: Config, s: Settings, unrolled: nat, rows: seq<nat>, rolled: nat, since: nat, limit: nat)
    requires Runnable(c, s, unrolled, rows, rolled) && s.refresh && IntervalFits(s) && s.tRAS + s.tRP > 0
    requires s.tREFI <= limit
    ensures Holds(RolledTrace(c, s, unrolled, rows, rolled), since, limit) <==>
            since <= limit && BodyInTime(s, unrolled, rows, rolled, limit)
  {
    var body, behind := UnrolledBody(s, unrolled, rows), BehindLast(s, Repeat(unrolled, rows));
    var whole, tail := Whole(c, body), Tail(c, body);
    LoopsExist(rolled);
    if rolled > 0 {
      WholeBody(c, s, unrolled, rows);
      BodyOpens(s, Repeat(unrolled, rows), limit);
      OpensFrom(whole, 0, limit);
      TailIsCut(c, s, unrolled, rows);
      Measured(s.geometry, Repeated(s, unrolled, rows));
      if Refreshes(tail) > 0 {
        TailOpens(c, s, unrolled, rows, behind, limit);
      }
    }
    LoopsHold(whole, tail, behind, LoopCounts(rolled), since, limit);
    LongestDecides(behind, Refreshes(tail) > 0, Until(tail), |tail|, rolled, limit);
  }

  /** From `start` cycles after a refresh. */
  lemma FullWithin(c: Config, s: Settings, rows: seq<nat>, r: nat, q: nat, m: nat, start: nat, limit: nat)
    requires Runnable(c, s, r, rows, q) && Runnable(c, s, 1, rows, m) && s.refresh
    requires IntervalFits(s) && s.tRAS + s.tRP > 0 && s.tREFI <= limit
    ensures Within(PartsTrace(s, RolledTrace(c, s, r, rows, q), RolledTrace(c, s, 1, rows, m)), start, limit) <==>
            start + Lead(s) <= limit && BodyInTime(s, r, rows, q, limit) && BodyInTime(s, 1, rows, m, limit)
  {
    var many, once := RolledTrace(c, s, r, rows, q), RolledTrace(c, s, 1, rows, m);
    RolledHolds(c, s, r, rows, q, start + Lead(s), limit);
    RolledHolds(c, s, 1, rows, m, Since(many, start + Lead(s)), limit);
    BothWithin(s, many, once, start, limit, BodyInTime(s, r, rows, q, limit), BodyInTime(s, 1, rows, m, limit));
  }

  // ------------------------------------------------------- Main results

  lemma AtLeast(a: int, unit: nat)
    requires unit > 0 && a / unit > 0
    ensures a >= unit
  {
  }

  /** A row list that is repeated at all has time for a row between two refreshes. */
  lemma RepetitionsFit(s: Settings, rows: seq<nat>)
    requires Repetitions(s, rows).Some?
    ensures IntervalFits(s) && s.tRAS + s.tRP > 0
  {
    AtLeast(s.tREFI - s.tRFC, s.tRP + s.tRAS);
  }

  lemma SomeHammers(s: Settings, rows: seq<nat>, n: nat)
    requires rows != [] && n > 0
    ensures Repeat(n, Pairs(s, rows)) != []
  {
  }

  /** Everything about a read count in terms of its quotient and remainder. */
  lemma Parted(s: Settings, rows: seq<nat>, r: nat, readCount: nat) returns (q: nat, m: nat)
    requires r > 0
    ensures Payload(s, rows, r, readCount) == PayloadParts(s, rows, r, q, m)
    ensures PayloadOk(s, rows, r, readCount) == PartsOk(s, rows, r, q, m)
    ensures Asked(s, rows, r, q, m) == Repeat(readCount, Pairs(s, rows))
    ensures Exact(s, rows, r, readCount) ==
            (((q == 0 && m == 0) || s.refresh || s.tRFC > 0) && BodyExact(s, r, rows, q) && BodyExact(s, 1, rows, m))
    ensures NothingSkipped(s, rows, r, readCount) == (BodyWhole(s, r, rows, q) && BodyWhole(s, 1, rows, m))
    ensures RefreshTotal(s, rows, r, readCount) == Times(BodySlots(s, r, rows), q) + Times(BodySlots(s, 1, rows), m)
    ensures RefreshesIssued(s, rows, r, readCount) == LoopRefreshes(s, r, rows, q) + LoopRefreshes(s, 1, rows, m)
    ensures forall limit: nat :: InTime(s, rows, r, readCount, limit) ==
                                 (BodyInTime(s, r, rows, q, limit) && BodyInTime(s, 1, rows, m, limit))
    ensures JumpsIn(r, readCount) == JumpsOf(q) + JumpsOf(m)
    ensures readCount == 0 <==> q == 0 && m == 0
    ensures readCount < r ==> q == 0
  {
    q, m := readCount / r, readCount % r;
    QuotientZero(readCount, r);
    SplitRuns(readCount, r, Pairs(s, rows));
  }

  /** What is left of tRFC `start` cycles after a refresh. */
  function Owed(s: Settings, start: nat): nat { if start <= s.tRFC then s.tRFC - start else 0 }

  /** What holds of the cycles of a payload, `start` cycles after the refresh before them. */
  ghost predicate Delivers(s: Settings, rows: seq<nat>, r: nat, readCount: nat, t: seq<Bus>, start: nat)
    requires r > 0
  {
    // The rows are hammered as often as asked exactly when only leading slots are skipped.
    && (Hammers(t) == Repeat(readCount, Pairs(s, rows)) <==> Exact(s, rows, r, readCount))
    // No command comes before the one ahead of it, or the refresh before the payload, is through.
    && Separated(t, Needs(s), Owed(s, start))
    // So many refreshes, and they are those reported and the last slot exactly when no word is skipped.
    && (s.refresh ==>
          && Refreshes(t) == RefreshesIssued(s, rows, r, readCount) + 1
          && (Refreshes(t) == RefreshTotal(s, rows, r, readCount) + 1 <==> NothingSkipped(s, rows, r, readCount)))
    // They keep a limit exactly when the way to the first one and the longest gap do.
    && (s.refresh ==> forall limit: nat :: s.tREFI <= limit ==>
          (Within(t, start, limit) <==> HANDOVER + Lead(s) <= limit && InTime(s, rows, r, readCount, limit)))
  }

  lemma PartsRefresh(c: Config, s: Settings, rows: seq<nat>, r: nat, q: nat, m: nat, t: seq<Bus>)
    requires Repetitions(s, rows) == Some(r) && s.refresh
    requires Runnable(c, s, r, rows, q) && Runnable(c, s, 1, rows, m)
    requires t == PartsTrace(s, RolledTrace(c, s, r, rows, q), RolledTrace(c, s, 1, rows, m))
    ensures forall limit: nat :: s.tREFI <= limit ==>
              (Within(t, HANDOVER, limit) <==>
               HANDOVER + Lead(s) <= limit && BodyInTime(s, r, rows, q, limit) && BodyInTime(s, 1, rows, m, limit))
  {
    RepetitionsFit(s, rows);
    forall limit: nat | s.tREFI <= limit
      ensures Within(t, HANDOVER, limit) <==>
              HANDOVER + Lead(s) <= limit && BodyInTime(s, r, rows, q, limit) && BodyInTime(s, 1, rows, m, limit)
    {
      FullWithin(c, s, rows, r, q, m, HANDOVER, limit);
    }
  }

  /** Every generated payload is a well-nested program, whose cycles are as in `Delivers`. */
  lemma PayloadRuns(s: Settings, rows: seq<nat>, readCount: nat, r: nat, p: seq<Instruction>, c: Config)
    returns (stop: nat)
    requires Repetitions(s, rows) == Some(r) && Generate(s, rows, readCount) == Some(p)
    requires Fits(s, rows) && c.geometry == s.geometry
    ensures WellNested(Layout(p), stop)
    ensures Delivers(s, rows, r, readCount, TraceFrom(c, Layout(p), stop, 0), HANDOVER)
  {
    var q, m := Parted(s, rows, r, readCount);
    if (q > 0 || m > 0) && !s.refresh && s.tRFC == 0 {
      stop := CutShort(c, s, rows, r, q, m);
      HammersQuiet(Lead(s) + 1);
      SeparatedQuiet(Lead(s) + 1, Needs(s), Owed(s, HANDOVER));
      SomeHammers(s, rows, readCount);
    } else {
      stop := FullRun(c, s, rows, r, q, m);
      FullHammers(c, s, rows, r, q, m);
      FullSeparated(c, s, rows, r, q, m);
      if s.refresh {
        FullRefreshes(c, s, rows, r, q, m);
        PartsRefresh(c, s, rows, r, q, m, TraceFrom(c, Layout(p), stop, 0));
      }
    }
  }

  /** Idle cycles before a trace change none of this. */
  lemma DeliversLater(s: Settings, rows: seq<nat>, r: nat, readCount: nat, t: seq<Bus>, n: nat, start: nat)
    requires r > 0 && Delivers(s, rows, r, readCount, t, start + n)
    ensures Delivers(s, rows, r, readCount, Quiet(n) + t, start)
  {
    CountsQuiet(n);
    CountsAround(Quiet(n), 0, t, Hammers(t), Refreshes(t));
    SeparatedQuiet(n, Needs(s), Owed(s, start));
    SeparatedConcat(Quiet(n), t, Needs(s), Owed(s, start));
    forall limit: nat
      ensures Within(Quiet(n) + t, start, limit) <==> Within(t, start + n, limit)
    {
      WithinQuiet(n, start, limit);
      WithinConcat(Quiet(n), t, start, limit);
    }
  }

  lemma PayloadTrace(s: Settings, rows: seq<nat>, readCount: nat, r: nat, p: seq<Instruction>, c: Config, stop: nat)
    requires Repetitions(s, rows) == Some(r) && Generate(s, rows, readCount) == Some(p) && Fits(s, rows)
    requires c.geometry == s.geometry && WellNested(Layout(p), stop)
    ensures Delivers(s, rows, r, readCount, TraceFrom(c, Layout(p), stop, 0), HANDOVER)
  {
    var stop' := PayloadRuns(s, rows, readCount, r, p, c);
    StopUnique(Layout(p), stop, stop');
  }

  /** The lines that the clocked gateware registers for a generated payload that is in its memory, from the
      handover two cycles after a refresh until it is ready again. */
  lemma PayloadOnGateware(s: Settings, rows: seq<nat>, readCount: nat, r: nat, p: seq<Instruction>, stop: nat,
                          c: Config, st: State, ins: seq<Input>)
    requires Repetitions(s, rows) == Some(r) && Generate(s, rows, readCount) == Some(p) && Fits(s, rows)
    requires Loaded(c, Layout(p)) && c.geometry == s.geometry && WellNested(Layout(p), stop)
    requires Inv(c, st) && st.core.fsm == WAIT_DFI && st.switch.payload && st.core.loop == 0
    requires |ins| == 1 + PIPELINE_DELAY + |TraceFrom(c, Layout(p), stop, 0)|
    ensures After(c, st, ins).core.fsm == READY && After(c, st, ins).core.loop == 0
    ensures Delivers(s, rows, r, readCount, Issued(c, st, ins), 2)
  {
    PayloadTrace(s, rows, readCount, r, p, c, stop);
    DeliversIssued(s, rows, readCount, r, Layout(p), stop, c, st, ins);
  }

  lemma DeliversIssued(s: Settings, rows: seq<nat>, readCount: nat, r: nat, words: seq<nat>, stop: nat,
                       c: Config, st: State, ins: seq<Input>)
    requires r > 0 && Loaded(c, words) && WellNested(words, stop)
    requires Delivers(s, rows, r, readCount, TraceFrom(c, words, stop, 0), HANDOVER)
    requires Inv(c, st) && st.core.fsm == WAIT_DFI && st.switch.payload && st.core.loop == 0
    requires |ins| == 1 + PIPELINE_DELAY + |TraceFrom(c, words, stop, 0)|
    ensures After(c, st, ins).core.fsm == READY && After(c, st, ins).core.loop == 0
    ensures Delivers(s, rows, r, readCount, Issued(c, st, ins), 2)
  {
    ProgramOnGateware(c, st, words, stop, ins);
    DeliversLater(s, rows, r, readCount, TraceFrom(c, words, stop, 0), 1 + PIPELINE_DELAY, 2);
  }

  lemma BodyTimes(s: Settings, stream: seq<nat>)
    requires stream != [] && AllAccepted(LoopBody(s, stream))
    ensures s.tRAS > 0 && s.tRP > 0 && (s.refresh ==> s.tRFC > 0)
  {
    var n := |LeadingSlots(s)|;
    BodySplits(s, stream);
    assert LoopBody(s, stream)[0] == Slot(s, s.tRFC);
    assert LoopBody(s, stream)[n] == Activate(s, stream[0]) && LoopBody(s, stream)[n + 1] == Precharge(s);
  }

  lemma LongEnough(s: Settings, unrolled: nat, rows: seq<nat>)
    requires rows != [] && unrolled > 0 && s.refresh && IntervalFits(s) && LoopOk(UnrolledBody(s, unrolled, rows))
    ensures s.tREFI > 2
  {
    BodyTimes(s, Repeat(unrolled, rows));
  }

  /** For the refresh interval with a jump on top: the way to the first refresh is short enough for any interval
      above two cycles, which it is if anything is hammered; and the gaps are when nothing is skipped. */
  lemma IntervalKept(s: Settings, rows: seq<nat>, r: nat, readCount: nat)
    requires Repetitions(s, rows) == Some(r) && Generate(s, rows, readCount).Some? && s.refresh
    ensures HANDOVER + Lead(s) <= s.tREFI + ACROSS <==> s.tREFI > 2
    ensures readCount > 0 ==> s.tREFI > 2
    ensures NothingSkipped(s, rows, r, readCount) ==> InTime(s, rows, r, readCount, s.tREFI + ACROSS)
  {
    var q, m := Parted(s, rows, r, readCount);
    RepetitionsFit(s, rows);
    if q > 0 {
      LongEnough(s, r, rows);
    } else if m > 0 {
      LongEnough(s, 1, rows);
    }
    if NothingSkipped(s, rows, r, readCount) {
      WholeInTime(s, r, rows, q);
      WholeInTime(s, 1, rows, m);
    }
  }
}
