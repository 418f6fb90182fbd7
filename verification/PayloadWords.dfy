/** The words of a loop body: how many there are, and what the end of the body that a LOOP repeats lacks
    when instructions expand to several words. */
module PayloadWords {
  import opened Bits
  import opened Isa
  import opened Executor
  import opened Interpreter
  import opened Program
  import opened Layouts
  import opened Refinement
  import opened Traces
  import opened PayloadCompiler
  import opened PayloadTraces
  import opened PayloadResults
  import opened Wrappers

  // ------------------------------------------------------- How many words

  /** Words of a command with a timeslice. */
  function WordCount(timeslice: nat): nat { |Words(Dfi(REF, timeslice, None))| }

  function SlotWords(s: Settings): nat { if s.refresh then WordCount(s.tRFC) else 1 }

  /** Words of a loop body beyond one for each instruction. */
  function ExtraWords(s: Settings, unrolled: nat, rows: seq<nat>): nat {
    ExtraOf(s, BodySlots(s, unrolled, rows), Times(unrolled, |rows|))
  }

  function ExtraOf(s: Settings, slots: nat, pairs: nat): nat {
    Times(slots, SlotWords(s) - 1) + Times(pairs, WordCount(s.tRAS) - 1 + (WordCount(s.tRP) - 1))
  }

  /** Words of a loop body before its first activation. */
  function LeadingWords(s: Settings): nat {
    SlotWords(s) + if Due(s, s.tRFC + 1) then SlotWords(s) else 0
  }

  lemma WordsOf(s: Settings, row: nat)
    ensures |Words(Activate(s, row))| == WordCount(s.tRAS) && |Words(Precharge(s))| == WordCount(s.tRP)
    ensures |Words(Slot(s, s.tRFC))| == SlotWords(s)
  {
  }

  lemma ExtraStep(s: Settings, slots: nat, pairs: nat, due: bool)
    ensures ExtraOf(s, (if due then 1 else 0) + slots, pairs + 1) ==
            (if due then SlotWords(s) - 1 else 0) + (WordCount(s.tRAS) - 1) + (WordCount(s.tRP) - 1)
            + ExtraOf(s, slots, pairs)
    ensures ExtraOf(s, slots + 1, pairs) == SlotWords(s) - 1 + ExtraOf(s, slots, pairs)
  {
    TimesStep(slots, SlotWords(s) - 1);
    TimesStep(pairs, WordCount(s.tRAS) - 1 + (WordCount(s.tRP) - 1));
  }

  lemma TimesStep(m: nat, n: nat)
    ensures Times(m + 1, n) == n + Times(m, n)
  {
  }

  lemma ChunkWords(s: Settings, row: nat, accum: nat)
    ensures |Layout(Chunk(s, row, accum))| ==
            (if Due(s, accum) then SlotWords(s) else 0) + WordCount(s.tRAS) + WordCount(s.tRP)
  {
    var slots, pair := if Due(s, accum) then [Slot(s, s.tRFC)] else [], [Activate(s, row), Precharge(s)];
    LayoutConcat(slots, pair);
    LayoutTwo(Activate(s, row), Precharge(s));
    WordsOf(s, row);
    if Due(s, accum) {
      LayoutOne(Slot(s, s.tRFC));
    }
  }

  /** Words beyond one for each instruction. */
  function Excess(p: seq<Instruction>): int { |Layout(p)| - |p| }

  lemma ExcessConcat(a: seq<Instruction>, b: seq<Instruction>)
    ensures Excess(a + b) == Excess(a) + Excess(b)
  {
    LayoutConcat(a, b);
  }

  lemma ChunkExcess(s: Settings, row: nat, accum: nat)
    ensures Excess(Chunk(s, row, accum)) ==
            (if Due(s, accum) then SlotWords(s) - 1 else 0) + (WordCount(s.tRAS) - 1) + (WordCount(s.tRP) - 1)
  {
    ChunkWords(s, row, accum);
  }

  lemma {:induction false} BodyExcess(s: Settings, rows: seq<nat>, accum: nat)
    ensures Excess(Body(s, rows, accum)) == ExtraOf(s, Slots(s, rows, accum), |rows|)
  {
    if rows != [] {
      var next := NextAccum(s, accum);
      BodyExcess(s, rows[1..], next);
      ExcessConcat(Chunk(s, rows[0], accum), Body(s, rows[1..], next));
      ChunkExcess(s, rows[0], accum);
      ExtraStep(s, Slots(s, rows[1..], next), |rows| - 1, Due(s, accum));
    }
  }

  lemma SlotExcess(s: Settings)
    ensures Excess([Slot(s, s.tRFC)]) == SlotWords(s) - 1
  {
    LayoutOne(Slot(s, s.tRFC));
    WordsOf(s, 0);
  }

  lemma LoopBodyParts(s: Settings, stream: seq<nat>)
    ensures Excess(LoopBody(s, stream)) == SlotWords(s) - 1 + Excess(Body(s, stream, s.tRFC + 1))
  {
    ExcessConcat([Slot(s, s.tRFC)], Body(s, stream, s.tRFC + 1));
    SlotExcess(s);
  }

  lemma LoopBodyExcess(s: Settings, stream: seq<nat>)
    ensures Excess(LoopBody(s, stream)) == ExtraOf(s, 1 + Slots(s, stream, s.tRFC + 1), |stream|)
  {
    LoopBodyParts(s, stream);
    BodyExcess(s, stream, s.tRFC + 1);
    ExtraSlot(s, Slots(s, stream, s.tRFC + 1), |stream|);
  }

  lemma ExtraSlot(s: Settings, slots: nat, pairs: nat)
    ensures ExtraOf(s, 1 + slots, pairs) == SlotWords(s) - 1 + ExtraOf(s, slots, pairs)
  {
    TimesStep(slots, SlotWords(s) - 1);
  }

  lemma UnrolledExcess(s: Settings, unrolled: nat, rows: seq<nat>)
    ensures Excess(UnrolledBody(s, unrolled, rows)) == ExtraWords(s, unrolled, rows)
  {
    StreamLength(unrolled, rows);
    LoopBodyExcess(s, Repeat(unrolled, rows));
  }

  // ------------------------------------------------------- What a repeated end hammers

  function WordHammers(c: Config, ws: seq<nat>): seq<Bus> { Hammers(BodyTrace(c, ws)) }

  lemma WordHammersConcat(c: Config, a: seq<nat>, b: seq<nat>)
    ensures WordHammers(c, a + b) == WordHammers(c, a) + WordHammers(c, b)
  {
    BodyTraceConcat(c, a, b);
    HammersConcat(BodyTrace(c, a), BodyTrace(c, b));
  }

  /** The end of a body that starts with words without row commands and goes on with one. */
  lemma TailHammers(c: Config, lead: seq<nat>, rest: seq<nat>, lost: nat)
    requires WordHammers(c, lead) == [] && rest != [] && WordHammers(c, [rest[0]]) != []
    requires lost <= |lead + rest|
    ensures var whole, tail := WordHammers(c, lead + rest), WordHammers(c, (lead + rest)[lost..]);
            && |tail| <= |whole| && (lost <= |lead| ==> tail == whole) && (lost > |lead| ==> |tail| < |whole|)
  {
    var ws := lead + rest;
    assert ws == ws[..lost] + ws[lost..];
    WordHammersConcat(c, ws[..lost], ws[lost..]);
    if lost <= |lead| {
      assert lead == ws[..lost] + lead[lost..];
      WordHammersConcat(c, ws[..lost], lead[lost..]);
      assert [] + WordHammers(c, ws[lost..]) == WordHammers(c, ws[lost..]);
    } else {
      var more := rest[1..lost - |lead|];
      assert ws[..lost] == (lead + [rest[0]]) + more;
      WordHammersConcat(c, lead, [rest[0]]);
      WordHammersConcat(c, lead + [rest[0]], more);
    }
  }

  lemma PlainConcat(a: seq<Instruction>, b: seq<Instruction>)
    requires AllPlainInstr(a) && AllPlainInstr(b)
    ensures AllPlainInstr(a + b)
  {
  }

  lemma ChunkIsPlain(s: Settings, row: nat, accum: nat)
    requires AllAccepted(Chunk(s, row, accum)) && PlainInstr(Slot(s, s.tRFC))
    ensures AllPlainInstr(Chunk(s, row, accum))
  {
  }

  /** All instructions of a body are plain once its slots are not STOPs. */
  lemma {:induction false} BodyIsPlain(s: Settings, rows: seq<nat>, accum: nat)
    requires AllAccepted(Body(s, rows, accum)) && PlainInstr(Slot(s, s.tRFC))
    ensures AllPlainInstr(Body(s, rows, accum))
  {
    if rows != [] {
      var chunk, rest := Chunk(s, rows[0], accum), Body(s, rows[1..], NextAccum(s, accum));
      AcceptedConcat(chunk, rest);
      ChunkIsPlain(s, rows[0], accum);
      BodyIsPlain(s, rows[1..], NextAccum(s, accum));
      PlainConcat(chunk, rest);
    }
  }

  lemma SlotIsPlain(s: Settings)
    requires Slot(s, s.tRFC).Accepted() && (s.refresh || s.tRFC > 0)
    ensures AllPlainInstr([Slot(s, s.tRFC)])
  {
  }

  lemma LoopBodyIsPlain(s: Settings, stream: seq<nat>)
    requires AllAccepted(LoopBody(s, stream)) && (s.refresh || s.tRFC > 0)
    ensures AllPlainInstr(LoopBody(s, stream)) && PlainInstr(Slot(s, s.tRFC))
  {
    LoopBodyAccepted(s, stream);
    SlotIsPlain(s);
    assert PlainInstr([Slot(s, s.tRFC)][0]);
    BodyIsPlain(s, stream, s.tRFC + 1);
    PlainConcat([Slot(s, s.tRFC)], Body(s, stream, s.tRFC + 1));
  }

  lemma SlotWordsHammer(c: Config, s: Settings)
    requires c.geometry == s.geometry && PlainInstr(Slot(s, s.tRFC))
    ensures WordHammers(c, Words(Slot(s, s.tRFC))) == []
  {
    WordsTrace(c, Slot(s, s.tRFC));
    SlotCounts(s, s.tRFC);
  }

  lemma ActWordHammers(c: Config, s: Settings, row: nat)
    requires c.geometry == s.geometry && Fits(s, [row]) && PlainInstr(Activate(s, row))
    ensures WordHammers(c, [Words(Activate(s, row))[0]]) == [ActLine(s, row)]
  {
    var i, w := Activate(s, row), Words(Activate(s, row))[0];
    MainDecodes(i);
    RemainingSplits(i);
    ActDrives(s, row);
    FirstTrace(c, ACT, w, BaseTimeslice(s.tRAS), i.address.value);
    OneCommand(ActLine(s, row), BaseTimeslice(s.tRAS) - 1);
    assert [w][1..] == [];
    assert BodyTrace(c, []) == [];
    assert BodyTrace(c, [w]) == CommandTrace(c, Decode(w));
  }

  function LeadingSlots(s: Settings): seq<Instruction> {
    [Slot(s, s.tRFC)] + if Due(s, s.tRFC + 1) then [Slot(s, s.tRFC)] else []
  }

  function AfterSlots(s: Settings, stream: seq<nat>): seq<Instruction>
    requires stream != []
  {
    [Activate(s, stream[0]), Precharge(s)] + Body(s, stream[1..], NextAccum(s, s.tRFC + 1))
  }

  lemma BodySplits(s: Settings, stream: seq<nat>)
    requires stream != []
    ensures LoopBody(s, stream) == LeadingSlots(s) + AfterSlots(s, stream)
  {
  }

  lemma LeadingSlotsHammer(c: Config, s: Settings)
    requires c.geometry == s.geometry && PlainInstr(Slot(s, s.tRFC))
    ensures WordHammers(c, Layout(LeadingSlots(s))) == [] && |Layout(LeadingSlots(s))| == LeadingWords(s)
  {
    var slot := Slot(s, s.tRFC);
    SlotWordsHammer(c, s);
    WordsOf(s, 0);
    LayoutOne(slot);
    if Due(s, s.tRFC + 1) {
      assert LeadingSlots(s) == [slot, slot];
      LayoutTwo(slot, slot);
      WordHammersConcat(c, Words(slot), Words(slot));
    } else {
      assert LeadingSlots(s) == [slot];
    }
  }

  lemma FirstAct(s: Settings, stream: seq<nat>)
    requires stream != []
    ensures var acts := AfterSlots(s, stream);
            acts[0] == Activate(s, stream[0]) && Layout(acts) != [] && Layout(acts)[0] == Words(acts[0])[0]
  {
    var acts := AfterSlots(s, stream);
    assert Layout(acts) == Words(acts[0]) + Layout(acts[1..]);
  }

  /** The words of a body: its leading slots, and then an activation. */
  lemma BodyStarts(c: Config, s: Settings, stream: seq<nat>) returns (lead: seq<nat>, rest: seq<nat>)
    requires stream != [] && AllAccepted(LoopBody(s, stream)) && (s.refresh || s.tRFC > 0)
    requires c.geometry == s.geometry && Fits(s, stream)
    ensures Layout(LoopBody(s, stream)) == lead + rest && |lead| == LeadingWords(s)
    ensures WordHammers(c, lead) == [] && rest != [] && WordHammers(c, [rest[0]]) != []
  {
    lead, rest := Layout(LeadingSlots(s)), Layout(AfterSlots(s, stream));
    LoopBodyIsPlain(s, stream);
    BodySplits(s, stream);
    LayoutConcat(LeadingSlots(s), AfterSlots(s, stream));
    LeadingSlotsHammer(c, s);
    FirstAct(s, stream);
    assert LoopBody(s, stream)[|LeadingSlots(s)|] == Activate(s, stream[0]);
    assert Fits(s, [stream[0]]);
    ActWordHammers(c, s, stream[0]);
  }

  // ------------------------------------------------------- What a repeated end refreshes

  function WordRefreshes(c: Config, ws: seq<nat>): nat { Refreshes(BodyTrace(c, ws)) }

  lemma WordRefreshesConcat(c: Config, a: seq<nat>, b: seq<nat>)
    ensures WordRefreshes(c, a + b) == WordRefreshes(c, a) + WordRefreshes(c, b)
  {
    BodyTraceConcat(c, a, b);
    RefreshesConcat(BodyTrace(c, a), BodyTrace(c, b));
  }

  /** Without its first word, a refresh, a body refreshes less. */
  lemma TailRefreshes(c: Config, ws: seq<nat>, lost: nat)
    requires 0 < lost <= |ws| && WordRefreshes(c, [ws[0]]) > 0
    ensures WordRefreshes(c, ws[lost..]) < WordRefreshes(c, ws)
  {
    assert ws == [ws[0]] + ws[1..lost] + ws[lost..];
    WordRefreshesConcat(c, [ws[0]] + ws[1..lost], ws[lost..]);
    WordRefreshesConcat(c, [ws[0]], ws[1..lost]);
  }

  lemma SlotWordRefreshes(c: Config, s: Settings)
    requires c.geometry == s.geometry && s.refresh && Slot(s, s.tRFC).Accepted()
    ensures WordRefreshes(c, [Words(Slot(s, s.tRFC))[0]]) == 1
  {
    var i, w := Slot(s, s.tRFC), Words(Slot(s, s.tRFC))[0];
    MainDecodes(i);
    RemainingSplits(i);
    FirstTrace(c, REF, w, BaseTimeslice(s.tRFC), 0);
    OneCommand(Line(s.geometry, REF, 0), BaseTimeslice(s.tRFC) - 1);
    assert [w][1..] == [];
    assert BodyTrace(c, []) == [];
    assert BodyTrace(c, [w]) == CommandTrace(c, Decode(w));
  }

  lemma FirstSlot(s: Settings, stream: seq<nat>)
    ensures var ws := Layout(LoopBody(s, stream)); ws != [] && ws[0] == Words(Slot(s, s.tRFC))[0]
  {
    var body := LoopBody(s, stream);
    assert body[0] == Slot(s, s.tRFC);
    assert Layout(body) == Words(body[0]) + Layout(body[1..]);
  }
}
