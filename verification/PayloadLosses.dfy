/** Generated payloads that do not do what was asked, each at concrete settings. */
module PayloadLosses {
  import opened Bits
  import opened Isa
  import opened Program
  import opened Multiples
  import opened PayloadCompiler
  import opened PayloadTraces
  import opened PayloadSpacing
  import opened PayloadWords
  import opened PayloadCuts
  import opened RefreshGaps
  import opened PayloadExecution
  import opened PayloadDelivery
  import opened Wrappers

  // ------------------------------------------------------- Concrete payloads

  /** The body of a single row with time for it after the first slot. */
  lemma OneRow(s: Settings)
    requires s.tRFC + 1 + s.tRAS + s.tRP <= s.tREFI
    ensures UnrolledBody(s, 1, [0]) == [Slot(s, s.tRFC), Activate(s, 0), Precharge(s)]
    ensures BodySlots(s, 1, [0]) == 1 && LeadingWords(s) == SlotWords(s)
    ensures ExtraWords(s, 1, [0]) == SlotWords(s) - 1 + (WordCount(s.tRAS) - 1) + (WordCount(s.tRP) - 1)
  {
    assert Repeat(1, [0]) == [0] + Repeat(0, [0]) == [0];
    assert [0][1..] == [];
    assert Body(s, [0], s.tRFC + 1) == Chunk(s, 0, s.tRFC + 1) + Body(s, [], NextAccum(s, s.tRFC + 1));
    assert Slots(s, [0], s.tRFC + 1) == 0;
    OneRowExtra(s);
  }

  lemma OneRowExtra(s: Settings)
    ensures ExtraOf(s, 1, Times(1, 1)) == SlotWords(s) - 1 + (WordCount(s.tRAS) - 1) + (WordCount(s.tRP) - 1)
  {
    ExtraStep(s, 0, 0, false);
    ExtraStep(s, 0, 1, false);
    assert ExtraOf(s, 0, 0) == 0;
  }

  lemma WordsOfSmall(timeslice: nat)
    requires 0 < timeslice < 64 && timeslice != 32
    ensures WordCount(timeslice) == if timeslice < 32 then 1 else 3
  {
    if timeslice > 32 {
      assert Waits(32) == [28] + Waits(4);
    }
  }

  lemma OneRowOk(s: Settings)
    requires s.tRFC + 1 + s.tRAS + s.tRP <= s.tREFI < 0x2000_0000 && s.tRAS > 0 && s.tRP > 0 && s.tRFC > 0
    ensures LoopOk(UnrolledBody(s, 1, [0])) && Noop(Lead(s)).Accepted()
  {
    Powers();
    OneRow(s);
  }

  lemma OneRowParts(s: Settings, r: nat, q: nat, m: nat)
    requires LoopOk(UnrolledBody(s, 1, [0])) && Noop(Lead(s)).Accepted() && (q == 0 || r == 1)
    ensures PartsOk(s, [0], r, q, m)
  {
  }

  /** A payload of single passes, or of unrolled ones that are the same. */
  lemma OneRowGenerates(s: Settings, readCount: nat, r: nat)
    requires Repetitions(s, [0]) == Some(r) && LoopOk(UnrolledBody(s, 1, [0])) && Noop(Lead(s)).Accepted()
    requires r == 1 || readCount < r
    ensures Generate(s, [0], readCount).Some?
  {
    var q, m := Parted(s, [0], r, readCount);
    OneRowParts(s, r, q, m);
  }

  lemma OneRowRepetitions(s: Settings, r: nat)
    requires s.tRP + s.tRAS > 0 && s.tRFC <= s.tREFI
    requires (s.tREFI - s.tRFC) / (s.tRP + s.tRAS) == r && 0 < r < MAX_ACTS_IN_LOOP
    ensures Repetitions(s, [0]) == Some(r)
  {
    assert Gcd(r, 1) == Gcd(1, 0) == 1;
    assert Lcm(r, 1) == r;
  }

  lemma OneRowFits(s: Settings)
    requires s.geometry.Valid() && s.geometry.addrbits > 10 && s.rank == 0 && s.bank == 0
    ensures Fits(s, [0])
  {
  }

  /** Two passes over one row, with an activation that takes three words: the second pass starts behind it. */
  lemma LostActivation(g: Geometry) returns (s: Settings)
    requires g.Valid() && g.addrbits > 10
    ensures s == Settings(33, 5, 50, 1, g, 0, 0, false) && Fits(s, [0]) && Repetitions(s, [0]) == Some(1)
    ensures Generate(s, [0], 2).Some? && !Exact(s, [0], 1, 2)
  {
    s := Settings(33, 5, 50, 1, g, 0, 0, false);
    WordsOfSmall(33);
    WordsOfSmall(5);
    OneRow(s);
    OneRowFits(s);
    OneRowOk(s);
    OneRowRepetitions(s, 1);
    OneRowGenerates(s, 2, 1);
  }

  /** Two passes over one row, with a refresh that takes three words: every row is hammered, and the second
      pass starts behind the refresh. */
  lemma LostRefresh(g: Geometry) returns (s: Settings)
    requires g.Valid() && g.addrbits > 10
    ensures s == Settings(10, 5, 100, 44, g, 0, 0, true) && Fits(s, [0]) && Repetitions(s, [0]) == Some(3)
    ensures Generate(s, [0], 2).Some? && Exact(s, [0], 3, 2) && !NothingSkipped(s, [0], 3, 2)
  {
    s := Settings(10, 5, 100, 44, g, 0, 0, true);
    WordsOfSmall(44);
    WordsOfSmall(10);
    WordsOfSmall(5);
    OneRow(s);
    OneRowFits(s);
    OneRowOk(s);
    OneRowRepetitions(s, 3);
    OneRowGenerates(s, 2, 3);
  }

  // ------------------------------------------------------- Three passes in a body

  /** One more row in front of a body. */
  lemma RowBefore(s: Settings, rows: seq<nat>, accum: nat)
    ensures var next := NextAccum(s, accum);
            && Body(s, [0] + rows, accum) == Chunk(s, 0, accum) + Body(s, rows, next)
            && Slots(s, [0] + rows, accum) == (if Due(s, accum) then 1 else 0) + Slots(s, rows, next)
            && AccumAfter(s, [0] + rows, accum) == AccumAfter(s, rows, next)
  {
    assert ([0] + rows)[1..] == rows;
  }

  lemma ThreeRows(s: Settings, accum: nat, second: nat, third: nat)
    requires second == NextAccum(s, accum) && third == NextAccum(s, second)
    ensures Body(s, [0, 0, 0], accum) == Chunk(s, 0, accum) + Chunk(s, 0, second) + Chunk(s, 0, third)
    ensures Slots(s, [0, 0, 0], accum) ==
            (if Due(s, accum) then 1 else 0) + (if Due(s, second) then 1 else 0) + (if Due(s, third) then 1 else 0)
    ensures AccumAfter(s, [0, 0, 0], accum) == NextAccum(s, third)
  {
    RowBefore(s, [], third);
    RowBefore(s, [0], second);
    RowBefore(s, [0, 0], accum);
    assert [0] + [] == [0] && [0] + [0] == [0, 0] && [0] + [0, 0] == [0, 0, 0];
    assert Chunk(s, 0, third) + [] == Chunk(s, 0, third);
  }

  lemma ThreePasses()
    ensures Repeat(3, [0]) == [0, 0, 0]
  {
    assert Repeat(1, [0]) == [0] + Repeat(0, [0]) == [0];
    assert Repeat(2, [0]) == [0] + Repeat(1, [0]) == [0, 0];
  }

  lemma ThreeExtra(s: Settings, slots: nat)
    requires WordCount(s.tRAS) == 1 && WordCount(s.tRP) == 1 && SlotWords(s) == 3
    ensures ExtraOf(s, slots, Times(3, 1)) == 2 * slots
  {
  }

  /** A payload of unrolled bodies only. */
  lemma UnrolledGenerates(s: Settings, rows: seq<nat>, r: nat, q: nat)
    requires Repetitions(s, rows) == Some(r) && LoopOk(UnrolledBody(s, r, rows)) && Noop(Lead(s)).Accepted()
    ensures Generate(s, rows, Times(q, r)).Some?
    ensures Times(q, r) / r == q && Times(q, r) % r == 0
  {
    SplitAt(0, q, r);
  }

  lemma LeadOk(s: Settings)
    requires s.tRFC < 0x2000_0000 && s.tREFI < 0x2000_0000
    ensures Noop(Lead(s)).Accepted()
  {
    Powers();
  }

  // ------------------------------------------------------- A refresh that comes too late

  /** The body of `LateRefreshes`, and what its LOOP repeats: no refresh. */
  lemma LateBody(s: Settings)
    requires s.tRAS == 10 && s.tRP == 5 && s.tREFI == 100 && s.tRFC == 44 && s.refresh
    ensures LoopOk(UnrolledBody(s, 3, [0])) && RefreshesOf(Repeated(s, 3, [0])) == 0
  {
    var act, pre := Activate(s, 0), Precharge(s);
    var rest := [act, pre, act, pre, act, pre];
    ThreePasses();
    ThreeRows(s, 45, 60, 75);
    WordsOfSmall(44);
    WordsOfSmall(10);
    WordsOfSmall(5);
    ThreeExtra(s, 1);
    assert UnrolledBody(s, 3, [0]) == [Slot(s, 44)] + rest;
    CutFirst(Slot(s, 44), rest, 2);
    Rows(act, pre);
  }

  lemma CutFirst(i: Instruction, rest: seq<Instruction>, lost: nat)
    requires 0 < lost < |Words(i)|
    ensures Cut([i] + rest, lost) == [Noop(TimeLeft(Time(i), lost))] + rest
  {
    assert ([i] + rest)[1..] == rest;
  }

  lemma Rows(act: Instruction, pre: Instruction)
    requires !Refreshing(act) && !Refreshing(pre)
    ensures forall wait: nat :: RefreshesOf([Noop(wait)] + [act, pre, act, pre, act, pre]) == 0
  {
    forall wait: nat
      ensures RefreshesOf([Noop(wait)] + [act, pre, act, pre, act, pre]) == 0
    {
      NoneRefresh([Noop(wait)] + [act, pre, act, pre, act, pre]);
    }
  }

  lemma {:induction false} NoneRefresh(p: seq<Instruction>)
    requires forall k :: 0 <= k < |p| ==> !Refreshing(p[k])
    ensures RefreshesOf(p) == 0
  {
    if p != [] {
      NoneRefresh(p[1..]);
    }
  }

  /** A generated payload that exceeds the refresh interval and a jump: forty runs of a body whose refresh takes
      three words, of which the jumps skip two. */
  lemma LateRefreshes(g: Geometry) returns (s: Settings)
    requires g.Valid() && g.addrbits > 10
    ensures s == Settings(10, 5, 100, 44, g, 0, 0, true) && Fits(s, [0]) && Repetitions(s, [0]) == Some(3)
    ensures Generate(s, [0], 120).Some? && !InTime(s, [0], 3, 120, s.tREFI + ACROSS)
  {
    s := Settings(10, 5, 100, 44, g, 0, 0, true);
    OneRowFits(s);
    OneRowRepetitions(s, 3);
    LateBody(s);
    LeadOk(s);
    UnrolledGenerates(s, [0], 3, 40);
    MulMonotone(ACROSS, ACROSS + TimeOf(Repeated(s, 3, [0])), 39);
  }

  // ------------------------------------------------------- Skipped words and refreshes in time

  lemma EarlyInstrs(s: Settings) returns (front: seq<Instruction>, rest: seq<Instruction>)
    requires s.tRAS == 10 && s.tRP == 10 && s.tREFI == 100 && s.tRFC == 40 && s.refresh
    ensures front == [Slot(s, 40), Activate(s, 0)]
    ensures rest == [Precharge(s), Activate(s, 0), Precharge(s)] + [Slot(s, 40), Activate(s, 0), Precharge(s)]
    ensures UnrolledBody(s, 3, [0]) == front + rest
    ensures BodySlots(s, 3, [0]) == 2 && BehindLast(s, Repeat(3, [0])) == 60
  {
    front, rest := [Slot(s, 40), Activate(s, 0)],
                   [Precharge(s), Activate(s, 0), Precharge(s)] + [Slot(s, 40), Activate(s, 0), Precharge(s)];
    ThreePasses();
    ThreeRows(s, 41, 61, 81);
  }

  lemma EarlyBody(s: Settings)
    requires s.tRAS == 10 && s.tRP == 10 && s.tREFI == 100 && s.tRFC == 40 && s.refresh
    ensures LoopOk(UnrolledBody(s, 3, [0])) && ExtraWords(s, 3, [0]) == 4 && BehindLast(s, Repeat(3, [0])) == 60
    ensures RefreshesOf(Repeated(s, 3, [0])) > 0 && TimeUntil(Repeated(s, 3, [0])) == 30
  {
    var front, rest := EarlyInstrs(s);
    WordsOfSmall(40);
    WordsOfSmall(10);
    ThreeExtra(s, 2);
    WordsOf(s, 0);
    CutTwo(front[0], front[1], rest);
    UntilThird(Precharge(s), Activate(s, 0), Precharge(s), [Slot(s, 40), Activate(s, 0), Precharge(s)]);
  }

  lemma CutTwo(i: Instruction, j: Instruction, rest: seq<Instruction>)
    requires |Words(i)| == 3 && |Words(j)| == 1
    ensures Cut([i, j] + rest, 4) == rest
  {
    assert ([i, j] + rest)[1..] == [j] + rest && ([j] + rest)[1..] == rest;
    assert Cut([j] + rest, 1) == Cut(rest, 0) == rest;
    assert Cut([i, j] + rest, 4) == Cut([j] + rest, 1);
  }

  lemma UntilBehind(i: Instruction, rest: seq<Instruction>)
    requires !Refreshing(i)
    ensures RefreshesOf([i] + rest) == RefreshesOf(rest) && TimeUntil([i] + rest) == Time(i) + TimeUntil(rest)
  {
    assert ([i] + rest)[1..] == rest;
  }

  lemma UntilThird(a: Instruction, b: Instruction, c: Instruction, rest: seq<Instruction>)
    requires !Refreshing(a) && !Refreshing(b) && !Refreshing(c) && rest != [] && Refreshing(rest[0])
    ensures RefreshesOf([a, b, c] + rest) > 0 && TimeUntil([a, b, c] + rest) == Time(a) + Time(b) + Time(c)
  {
    UntilBehind(c, rest);
    UntilBehind(b, [c] + rest);
    UntilBehind(a, [b] + ([c] + rest));
    assert [a, b, c] + rest == [a] + ([b] + ([c] + rest));
  }

  /** A generated payload whose jumps skip a refresh and an activation, and that still refreshes in time. */
  lemma EarlyRefreshes(g: Geometry) returns (s: Settings)
    requires g.Valid() && g.addrbits > 10
    ensures s == Settings(10, 10, 100, 40, g, 0, 0, true) && Fits(s, [0]) && Repetitions(s, [0]) == Some(3)
    ensures Generate(s, [0], 6).Some? && !NothingSkipped(s, [0], 3, 6) && InTime(s, [0], 3, 6, s.tREFI + ACROSS)
  {
    s := Settings(10, 10, 100, 40, g, 0, 0, true);
    OneRowFits(s);
    OneRowRepetitions(s, 3);
    EarlyBody(s);
    LeadOk(s);
    UnrolledGenerates(s, [0], 3, 2);
  }
}
