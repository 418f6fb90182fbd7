/** The bus cycles of a generated payload, for all timings: a LOOP whose body has more words than instructions
    repeats only the end of it. */
module PayloadExecution {
  import opened Bits
  import opened Isa
  import opened Executor
  import opened Interpreter
  import opened Program
  import opened Layouts
  import opened Fragments
  import opened Refinement
  import opened Traces
  import opened PayloadCompiler
  import opened PayloadTraces
  import opened PayloadResults
  import opened PayloadSpacing
  import opened PayloadWords
  import opened PayloadCuts
  import opened RefreshGaps
  import opened Wrappers

  // ------------------------------------------------------- The conditions

  /** A body that runs at most once, or whose jumps lose no more than its leading slots. */
  predicate BodyExact(s: Settings, unrolled: nat, rows: seq<nat>, rolled: nat) {
    rolled <= 1 || ExtraWords(s, unrolled, rows) <= LeadingWords(s)
  }

  /** The first slot is a STOP: with refresh off, one of no cycles. */
  predicate StopsAtOnce(s: Settings, readCount: nat) { readCount > 0 && !s.refresh && s.tRFC == 0 }

  /** The payloads that hammer as often as asked. */
  predicate Exact(s: Settings, rows: seq<nat>, r: nat, readCount: nat)
    requires r > 0
  {
    && !StopsAtOnce(s, readCount)
    && BodyExact(s, r, rows, readCount / r) && BodyExact(s, 1, rows, readCount % r)
  }

  /** A body that runs at most once, or whose instructions take one word each. */
  predicate BodyWhole(s: Settings, unrolled: nat, rows: seq<nat>, rolled: nat) {
    rolled <= 1 || ExtraWords(s, unrolled, rows) == 0
  }

  /** The payloads whose jumps skip no word. */
  predicate NothingSkipped(s: Settings, rows: seq<nat>, r: nat, readCount: nat)
    requires r > 0
  {
    BodyWhole(s, r, rows, readCount / r) && BodyWhole(s, 1, rows, readCount % r)
  }

  /** With timeslices below 32 cycles every instruction is one word, and nothing is skipped. */
  lemma ShortTimeslices(s: Settings, rows: seq<nat>, r: nat, readCount: nat)
    requires r > 0 && s.tRAS < 32 && s.tRP < 32 && (s.refresh ==> s.tRFC < 32)
    ensures NothingSkipped(s, rows, r, readCount)
    ensures Exact(s, rows, r, readCount) <==> !StopsAtOnce(s, readCount)
  {
    NoExtra(s, r, rows);
    NoExtra(s, 1, rows);
  }

  lemma OneWord(timeslice: nat)
    requires timeslice < 32
    ensures WordCount(timeslice) == 1
  {
  }

  lemma NoneExtra(s: Settings, slots: nat, pairs: nat)
    requires SlotWords(s) == 1 && WordCount(s.tRAS) == 1 && WordCount(s.tRP) == 1
    ensures ExtraOf(s, slots, pairs) == 0
  {
    TimesSwap(slots, 0);
    TimesSwap(pairs, 0);
  }

  lemma NoExtra(s: Settings, unrolled: nat, rows: seq<nat>)
    requires s.tRAS < 32 && s.tRP < 32 && (s.refresh ==> s.tRFC < 32)
    ensures ExtraWords(s, unrolled, rows) == 0
  {
    OneWord(s.tRAS);
    OneWord(s.tRP);
    if s.refresh {
      OneWord(s.tRFC);
    }
    NoneExtra(s, BodySlots(s, unrolled, rows), Times(unrolled, |rows|));
  }

  // ------------------------------------------------------- Blocks

  /** The cycles of one run of a body, and of the end that its LOOP repeats. */
  function Whole(c: Config, body: seq<Instruction>): seq<Bus> { BodyTrace(c, Layout(body)) }

  function Tail(c: Config, body: seq<Instruction>): seq<Bus> { BodyTrace(c, LastOf(Layout(body), |body|)) }

  predicate AllCounts(counts: seq<nat>) { forall k :: 0 <= k < |counts| ==> counts[k] <= COUNT_MAX }

  /** A body and its LOOP, in words. */
  lemma BlockLayout(body: seq<Instruction>, count: nat) returns (w: nat)
    requires |body| < 0x2_0000 && count <= COUNT_MAX
    ensures Layout(OneLoop(body, count)) == Layout(body) + [w]
    ensures Decode(w).op == LOOP && Decode(w).count == count && Decode(w).jump == |body|
  {
    CountFits(count);
    w := LoopWord(count, |body|);
    LayoutConcat(body, [Loop(count, |body|)]);
    LayoutOne(Loop(count, |body|));
  }

  lemma WordsRun(c: Config, ws: seq<nat>, w: nat, jump: nat)
    requires AllPlain(ws) && Decode(w).op == LOOP && Decode(w).jump == jump <= |ws|
    ensures Nested(ws + [w])
    ensures RunTrace(c, ws + [w]) ==
            BodyTrace(c, ws) + JumpsTrace(BodyTrace(c, LastOf(ws, jump)), Decode(w).count)
  {
    RunAll(c, ws);
    NestedLoop(ws, w);
    RunLoop(c, ws, w);
  }

  lemma BlockRuns(c: Config, body: seq<Instruction>, count: nat)
    requires AllPlainInstr(body) && |body| < 0x2_0000 && count <= COUNT_MAX
    ensures Nested(Layout(OneLoop(body, count)))
    ensures RunTrace(c, Layout(OneLoop(body, count))) == Whole(c, body) + JumpsTrace(Tail(c, body), count)
  {
    PlainLayout(body);
    LayoutGrows(body);
    var w := BlockLayout(body, count);
    WordsRun(c, Layout(body), w, |body|);
  }

  lemma CountFits(count: nat)
    requires count <= COUNT_MAX
    ensures forall jump :: 0 <= jump < 0x2_0000 ==> Loop(count, jump).Accepted()
  {
    Powers();
  }

  /** The loops over one body run as its cycles and those of its repeated end. */
  lemma {:induction false} BlocksRun(c: Config, body: seq<Instruction>, counts: seq<nat>)
    requires counts != [] ==> AllPlainInstr(body) && |body| < 0x2_0000
    requires AllCounts(counts)
    ensures Nested(Layout(Blocks(body, counts)))
    ensures RunTrace(c, Layout(Blocks(body, counts))) == LoopsTrace(Whole(c, body), Tail(c, body), counts)
  {
    if counts != [] {
      var n := |counts| - 1;
      var front, block := Blocks(body, counts[..n]), OneLoop(body, counts[n]);
      BlocksRun(c, body, counts[..n]);
      BlockRuns(c, body, counts[n]);
      LayoutConcat(front, block);
      NestedConcat(Layout(front), Layout(block));
      RunConcat(c, Layout(front), Layout(block));
    }
  }

  // ------------------------------------------------------- One loop body

  /** The whole body hammers the unrolled list and refreshes in every slot. */
  lemma WholeBody(c: Config, s: Settings, unrolled: nat, rows: seq<nat>)
    requires c.geometry == s.geometry && Fits(s, rows)
    requires LoopOk(UnrolledBody(s, unrolled, rows)) && (s.refresh || s.tRFC > 0)
    ensures var body := UnrolledBody(s, unrolled, rows);
            && AllPlainInstr(body) && Whole(c, body) == InstrsTrace(s.geometry, body)
            && Counts(Whole(c, body), Repeat(unrolled, Pairs(s, rows)), if s.refresh then BodySlots(s, unrolled, rows) else 0)
  {
    LoopBodyIsPlain(s, Repeat(unrolled, rows));
    UnrolledCounts(s, unrolled, rows);
    LayoutTrace(c, UnrolledBody(s, unrolled, rows));
  }

  lemma WordsLost(c: Config, s: Settings, unrolled: nat, rows: seq<nat>) returns (ws: seq<nat>, lost: nat)
    ensures ws == Layout(UnrolledBody(s, unrolled, rows)) && lost == ExtraWords(s, unrolled, rows) <= |ws|
    ensures Whole(c, UnrolledBody(s, unrolled, rows)) == BodyTrace(c, ws)
    ensures Tail(c, UnrolledBody(s, unrolled, rows)) == BodyTrace(c, ws[lost..])
  {
    UnrolledExcess(s, unrolled, rows);
    lost := ExtraWords(s, unrolled, rows);
    ws := TailStarts(c, UnrolledBody(s, unrolled, rows), lost);
  }

  lemma TailStarts(c: Config, body: seq<Instruction>, lost: nat) returns (ws: seq<nat>)
    requires Excess(body) == lost
    ensures ws == Layout(body) && lost <= |ws|
    ensures Whole(c, body) == BodyTrace(c, ws) && Tail(c, body) == BodyTrace(c, ws[lost..])
  {
    ws := Layout(body);
  }

  /** The repeated end of a body loses commands when it is cut behind the leading slots. */
  lemma TailHammersLess(c: Config, s: Settings, unrolled: nat, rows: seq<nat>)
    requires c.geometry == s.geometry && Fits(s, rows) && rows != [] && unrolled > 0
    requires LoopOk(UnrolledBody(s, unrolled, rows)) && (s.refresh || s.tRFC > 0)
    ensures var body := UnrolledBody(s, unrolled, rows);
            var whole, tail := Hammers(Whole(c, body)), Hammers(Tail(c, body));
            && (ExtraWords(s, unrolled, rows) <= LeadingWords(s) ==> tail == whole)
            && (ExtraWords(s, unrolled, rows) > LeadingWords(s) ==> |tail| < |whole|)
  {
    FitsRepeat(s, unrolled, rows);
    var ws, lost := WordsLost(c, s, unrolled, rows);
    var lead, rest := BodyStarts(c, s, Repeat(unrolled, rows));
    TailHammers(c, lead, rest, lost);
  }

  /** It loses a refresh as soon as it is cut at all. */
  lemma TailRefreshesLess(c: Config, s: Settings, unrolled: nat, rows: seq<nat>)
    requires c.geometry == s.geometry && s.refresh && LoopOk(UnrolledBody(s, unrolled, rows))
    ensures var body := UnrolledBody(s, unrolled, rows);
            && (ExtraWords(s, unrolled, rows) == 0 ==> Tail(c, body) == Whole(c, body))
            && (ExtraWords(s, unrolled, rows) > 0 ==> Refreshes(Tail(c, body)) < Refreshes(Whole(c, body)))
  {
    var ws, lost := WordsLost(c, s, unrolled, rows);
    if lost == 0 {
      assert ws[0..] == ws;
    } else {
      LoopBodyAccepted(s, Repeat(unrolled, rows));
      FirstSlot(s, Repeat(unrolled, rows));
      SlotWordRefreshes(c, s);
      TailRefreshes(c, ws, lost);
    }
  }

  /** The repeated end runs like the cut body. */
  lemma TailIsCut(c: Config, s: Settings, unrolled: nat, rows: seq<nat>)
    requires c.geometry == s.geometry && LoopOk(UnrolledBody(s, unrolled, rows)) && (s.refresh || s.tRFC > 0)
    ensures Tail(c, UnrolledBody(s, unrolled, rows)) == InstrsTrace(s.geometry, Repeated(s, unrolled, rows))
    ensures AllSteady(Repeated(s, unrolled, rows))
  {
    var body := UnrolledBody(s, unrolled, rows);
    LoopBodyIsPlain(s, Repeat(unrolled, rows));
    var ws, lost := WordsLost(c, s, unrolled, rows);
    CutTrace(c, body, lost);
    PlainSteady(body);
    CutSteady(body, lost);
  }

  lemma TailSettled(c: Config, s: Settings, unrolled: nat, rows: seq<nat>)
    requires c.geometry == s.geometry && Settled(Whole(c, UnrolledBody(s, unrolled, rows)), Needs(s))
    ensures Settled(Tail(c, UnrolledBody(s, unrolled, rows)), Needs(s))
  {
    var ws, lost := WordsLost(c, s, unrolled, rows);
    Halves(ws, lost);
    BodyTraceConcat(c, ws[..lost], ws[lost..]);
    SettledEnd(BodyTrace(c, ws[..lost]), BodyTrace(c, ws[lost..]), Needs(s));
  }

  // ------------------------------------------------------- The loops over one body

  function LoopProgram(s: Settings, unrolled: nat, rows: seq<nat>, rolled: nat): seq<Instruction> {
    Blocks(UnrolledBody(s, unrolled, rows), LoopCounts(rolled))
  }

  /** The cycles of `rolled` runs. */
  function RolledTrace(c: Config, s: Settings, unrolled: nat, rows: seq<nat>, rolled: nat): seq<Bus> {
    var body := UnrolledBody(s, unrolled, rows);
    LoopsTrace(Whole(c, body), Tail(c, body), LoopCounts(rolled))
  }

  /** The source accepted the body, and its first slot is not a STOP. */
  ghost predicate Runnable(c: Config, s: Settings, unrolled: nat, rows: seq<nat>, rolled: nat) {
    && c.geometry == s.geometry && Fits(s, rows) && rows != [] && unrolled > 0
    && (rolled > 0 ==> LoopOk(UnrolledBody(s, unrolled, rows)) && (s.refresh || s.tRFC > 0))
  }

  lemma RolledRuns(c: Config, s: Settings, unrolled: nat, rows: seq<nat>, rolled: nat)
    requires Runnable(c, s, unrolled, rows, rolled)
    ensures var ws := Layout(LoopProgram(s, unrolled, rows, rolled));
            Nested(ws) && RunTrace(c, ws) == RolledTrace(c, s, unrolled, rows, rolled)
  {
    LoopCountsExact(rolled);
    LoopsExist(rolled);
    if rolled > 0 {
      LoopBodyIsPlain(s, Repeat(unrolled, rows));
    }
    BlocksRun(c, UnrolledBody(s, unrolled, rows), LoopCounts(rolled));
  }

  lemma RolledHammers(c: Config, s: Settings, unrolled: nat, rows: seq<nat>, rolled: nat)
    requires Runnable(c, s, unrolled, rows, rolled)
    ensures var all, goal := Hammers(RolledTrace(c, s, unrolled, rows, rolled)), Repeat(Times(rolled, unrolled), Pairs(s, rows));
            && |all| <= |goal| && (BodyExact(s, unrolled, rows, rolled) ==> all == goal)
            && (!BodyExact(s, unrolled, rows, rolled) ==> |all| < |goal|)
  {
    var body, counts := UnrolledBody(s, unrolled, rows), LoopCounts(rolled);
    var whole, tail := Hammers(Whole(c, body)), Hammers(Tail(c, body));
    LoopCountsExact(rolled);
    JumpsIfTwice(rolled);
    LoopsCount(Whole(c, body), Tail(c, body), counts);
    RepeatTimes(rolled, unrolled, Pairs(s, rows));
    if rolled > 0 {
      WholeBody(c, s, unrolled, rows);
      TailHammersLess(c, s, unrolled, rows);
      if BodyExact(s, unrolled, rows, rolled) {
        NoHammerLost(whole, tail, counts);
      } else {
        HammersLost(whole, tail, counts);
      }
    }
  }

  lemma RolledRefreshes(c: Config, s: Settings, unrolled: nat, rows: seq<nat>, rolled: nat)
    requires Runnable(c, s, unrolled, rows, rolled) && s.refresh
    ensures var all, goal := Refreshes(RolledTrace(c, s, unrolled, rows, rolled)), Times(BodySlots(s, unrolled, rows), rolled);
            all <= goal && (all == goal <==> BodyWhole(s, unrolled, rows, rolled))
  {
    var body, counts := UnrolledBody(s, unrolled, rows), LoopCounts(rolled);
    var whole, tail := Refreshes(Whole(c, body)), Refreshes(Tail(c, body));
    LoopCountsExact(rolled);
    JumpsIfTwice(rolled);
    LoopsCount(Whole(c, body), Tail(c, body), counts);
    TimesSwap(rolled, BodySlots(s, unrolled, rows));
    if rolled > 0 {
      WholeBody(c, s, unrolled, rows);
      TailRefreshesLess(c, s, unrolled, rows);
      if BodyWhole(s, unrolled, rows, rolled) {
        NoRefreshLost(whole, tail, counts);
      } else {
        RefreshesLost(whole, tail, counts);
      }
    }
  }

  lemma TimesSwap(m: nat, n: nat)
    ensures Times(m, n) == Times(n, m) && Times(0, n) == 0 && Times(m, 0) == 0
  {
  }

  lemma RolledSettled(c: Config, s: Settings, unrolled: nat, rows: seq<nat>, rolled: nat)
    requires Runnable(c, s, unrolled, rows, rolled)
    ensures Settled(RolledTrace(c, s, unrolled, rows, rolled), Needs(s))
  {
    var body := UnrolledBody(s, unrolled, rows);
    LoopsExist(rolled);
    if rolled > 0 {
      WholeBody(c, s, unrolled, rows);
      LoopBodySettled(s, Repeat(unrolled, rows));
      TailSettled(c, s, unrolled, rows);
    }
    LoopsSettled(Whole(c, body), Tail(c, body), LoopCounts(rolled), Needs(s));
  }

  // ------------------------------------------------------- The words of a payload

  lemma NoopRuns(c: Config, wait: nat)
    requires Noop(wait).Accepted()
    ensures var ws := Words(Noop(wait)); |ws| == 1 && BodyTrace(c, ws) == Quiet(if wait == 0 then 1 else wait)
    ensures wait > 0 ==> AllPlain(Words(Noop(wait)))
    ensures wait == 0 ==> Decode(Words(Noop(wait))[0]).Stop()
  {
    MainDecodes(Noop(wait));
    var w := Words(Noop(wait))[0];
    assert Words(Noop(wait)) == [w] && [w][1..] == [];
    assert BodyTrace(c, []) == [];
  }

  /** The fragments of a payload, one after the other. */
  lemma FourRun(c: Config, lead: seq<nat>, many: seq<nat>, once: seq<nat>, slot: seq<nat>)
    requires AllPlain(lead) && AllPlain(slot) && Nested(many) && Nested(once)
    ensures Nested(lead + many + once + slot)
    ensures RunTrace(c, lead + many + once + slot) ==
            BodyTrace(c, lead) + RunTrace(c, many) + RunTrace(c, once) + BodyTrace(c, slot)
  {
    RunAll(c, lead);
    RunAll(c, slot);
    RunConcat(c, lead, many);
    RunConcat(c, lead + many, once);
    RunConcat(c, lead + many + once, slot);
    NestedConcat(lead, many);
    NestedConcat(lead + many, once);
    NestedConcat(lead + many + once, slot);
  }

  lemma PartsLayout(lead: Instruction, many: seq<Instruction>, once: seq<Instruction>, slot: Instruction, stop: Instruction)
    ensures Layout([lead] + many + once + [slot, stop]) ==
            Words(lead) + Layout(many) + Layout(once) + Words(slot) + Words(stop)
  {
    LayoutOne(lead);
    LayoutTwo(slot, stop);
    LayoutConcat([lead] + many + once, [slot, stop]);
    LayoutConcat([lead] + many, once);
    LayoutConcat([lead], many);
    Associate(Layout([lead] + many + once), Words(slot), Words(stop));
  }

  lemma LastSlotRuns(c: Config, s: Settings)
    requires c.geometry == s.geometry
    ensures AllPlain(Words(Slot(s, 1))) && BodyTrace(c, Words(Slot(s, 1))) == InstrTrace(s.geometry, Slot(s, 1))
  {
    LastTwoAccepted(s);
    PlainWords(Slot(s, 1));
    WordsTrace(c, Slot(s, 1));
  }

  lemma PartsExecute(c: Config, s: Settings, many: seq<Instruction>, once: seq<Instruction>, p: seq<Instruction>)
    returns (stop: nat)
    requires p == [Noop(Lead(s))] + many + once + [Slot(s, 1), Noop(0)] && c.geometry == s.geometry
    requires Noop(Lead(s)).Accepted() && Nested(Layout(many)) && Nested(Layout(once))
    ensures WellNested(Layout(p), stop)
    ensures TraceFrom(c, Layout(p), stop, 0) ==
            PartsTrace(s, RunTrace(c, Layout(many)), RunTrace(c, Layout(once)))
  {
    var lead, slot, last := Words(Noop(Lead(s))), Words(Slot(s, 1)), Words(Noop(0));
    LastTwoAccepted(s);
    NoopRuns(c, Lead(s));
    NoopRuns(c, 0);
    LastSlotRuns(c, s);
    PartsLayout(Noop(Lead(s)), many, once, Slot(s, 1), Noop(0));
    FourRun(c, lead, Layout(many), Layout(once), slot);
    var front := lead + Layout(many) + Layout(once) + slot;
    assert Layout(p) == front + last;
    stop := |front|;
    RunProgram(c, front, front + last);
  }

  /** Where the first slot is not a STOP, the payload is its lead-in, both loops, the last slot and the STOP. */
  lemma FullRun(c: Config, s: Settings, rows: seq<nat>, r: nat, q: nat, m: nat) returns (stop: nat)
    requires Runnable(c, s, r, rows, q) && Runnable(c, s, 1, rows, m) && PartsOk(s, rows, r, q, m)
    ensures var ws := Layout(PayloadParts(s, rows, r, q, m));
            WellNested(ws, stop) && TraceFrom(c, ws, stop, 0) ==
                                    PartsTrace(s, RolledTrace(c, s, r, rows, q), RolledTrace(c, s, 1, rows, m))
  {
    RolledRuns(c, s, r, rows, q);
    RolledRuns(c, s, 1, rows, m);
    stop := PartsExecute(c, s, LoopProgram(s, r, rows, q), LoopProgram(s, 1, rows, m), PayloadParts(s, rows, r, q, m));
  }

  // ------------------------------------------------------- A STOP in the first slot

  lemma {:induction false} BlocksStart(body: seq<Instruction>, counts: seq<nat>)
    requires body != [] && counts != []
    ensures Blocks(body, counts) != [] && Blocks(body, counts)[0] == body[0]
  {
    if |counts| > 1 {
      BlocksStart(body, counts[..|counts| - 1]);
    } else {
      assert counts[..0] == [];
    }
  }

  /** The first loop starts right behind the lead-in. */
  lemma FirstOfLoops(lead: Instruction, many: seq<Instruction>, once: seq<Instruction>, rest: seq<Instruction>,
                     slot: Instruction)
    requires many != [] || once != []
    requires (many != [] ==> many[0] == slot) && (once != [] ==> once[0] == slot)
    ensures var p := [lead] + many + once + rest; |p| >= 2 && p[0] == lead && p[1] == slot
  {
  }

  lemma LoopStarts(s: Settings, unrolled: nat, rows: seq<nat>, rolled: nat)
    ensures var ps := LoopProgram(s, unrolled, rows, rolled);
            (ps == [] <==> rolled == 0) && (ps != [] ==> ps[0] == Slot(s, s.tRFC))
  {
    LoopsExist(rolled);
    if rolled > 0 {
      BlocksStart(UnrolledBody(s, unrolled, rows), LoopCounts(rolled));
    }
  }

  lemma StopFollows(s: Settings, rows: seq<nat>, r: nat, q: nat, m: nat)
    requires (q > 0 || m > 0) && !s.refresh && s.tRFC == 0
    ensures var p := PayloadParts(s, rows, r, q, m); |p| >= 2 && p[0] == Noop(Lead(s)) && p[1] == Noop(0)
  {
    LoopStarts(s, r, rows, q);
    LoopStarts(s, 1, rows, m);
    FirstOfLoops(Noop(Lead(s)), LoopProgram(s, r, rows, q), LoopProgram(s, 1, rows, m), [Slot(s, 1), Noop(0)], Noop(0));
  }

  /** A disabled refresh slot of no cycles is a STOP: no command is issued. */
  lemma CutShort(c: Config, s: Settings, rows: seq<nat>, r: nat, q: nat, m: nat) returns (stop: nat)
    requires PartsOk(s, rows, r, q, m) && (q > 0 || m > 0) && !s.refresh && s.tRFC == 0
    ensures var ws := Layout(PayloadParts(s, rows, r, q, m));
            WellNested(ws, stop) && TraceFrom(c, ws, stop, 0) == Quiet(Lead(s) + 1)
  {
    StopFollows(s, rows, r, q, m);
    stop := StopsSecond(c, PayloadParts(s, rows, r, q, m), Lead(s));
  }

  lemma StopsSecond(c: Config, p: seq<Instruction>, wait: nat) returns (stop: nat)
    requires |p| >= 2 && p[0] == Noop(wait) && p[1] == Noop(0) && wait > 0 && Noop(wait).Accepted()
    ensures WellNested(Layout(p), stop) && TraceFrom(c, Layout(p), stop, 0) == Quiet(wait + 1)
  {
    var lead := Words(Noop(wait));
    assert Noop(0).Accepted();
    NoopRuns(c, wait);
    NoopRuns(c, 0);
    TwoFirst(p, Noop(wait), Noop(0));
    RunAll(c, lead);
    stop := |lead|;
    RunProgram(c, lead, Layout(p));
    QuietSum(wait, 1);
  }

  lemma TwoFirst(p: seq<Instruction>, a: Instruction, b: Instruction)
    requires |p| >= 2 && p[0] == a && p[1] == b
    ensures |Words(a)| < |Layout(p)| && Layout(p)[..|Words(a)|] == Words(a) && Layout(p)[|Words(a)|] == Words(b)[0]
  {
    assert Layout(p) == Words(a) + (Words(b) + Layout(p[1..][1..]));
  }

  // ------------------------------------------------------- Quotient and remainder

  lemma QuotientZero(n: nat, r: nat)
    requires r > 0
    ensures n == 0 ==> n / r == 0 && n % r == 0
    ensures n > 0 ==> n / r > 0 || n % r > 0
    ensures n < r ==> n / r == 0
  {
    if n > 0 && n / r == 0 {
      DivMod(n, r);
    }
  }

  /** There is one first STOP. */
  lemma StopFirst(words: seq<nat>, stop: nat, k: nat)
    requires WellNested(words, stop) && k < |words| && Decode(words[k]).Stop()
    ensures stop <= k
  {
  }

  lemma StopUnique(words: seq<nat>, stop: nat, stop': nat)
    requires WellNested(words, stop) && WellNested(words, stop')
    ensures stop == stop'
  {
    StopFirst(words, stop, stop');
    StopFirst(words, stop', stop);
  }
}
