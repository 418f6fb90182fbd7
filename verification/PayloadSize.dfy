/** How many words a generated payload has, against the number of instructions that the source compares with
    the memory. */
module PayloadSize {
  import opened Bits
  import opened Isa
  import opened Layouts
  import opened Program
  import opened PayloadCompiler
  import opened PayloadTraces
  import opened PayloadResults
  import opened PayloadWords
  import opened PayloadExecution
  import opened PayloadLosses
  import opened Wrappers

  lemma {:induction false} BlocksExcess(body: seq<Instruction>, counts: seq<nat>, extra: nat)
    requires Excess(body) == extra
    ensures Excess(Blocks(body, counts)) == Times(|counts|, extra)
  {
    if counts != [] {
      var n := |counts| - 1;
      BlocksExcess(body, counts[..n], extra);
      ExcessConcat(Blocks(body, counts[..n]), OneLoop(body, counts[n]));
      BlockExcess(body, counts[n]);
      TimesAdd(n, 1, extra);
    }
  }

  lemma {:induction false} BlocksLength(body: seq<Instruction>, counts: seq<nat>)
    ensures |Blocks(body, counts)| == Times(|counts|, |body| + 1)
  {
    if counts != [] {
      var n := |counts| - 1;
      BlocksLength(body, counts[..n]);
      TimesAdd(n, 1, |body| + 1);
    }
  }

  lemma BlockExcess(body: seq<Instruction>, count: nat)
    ensures Excess(OneLoop(body, count)) == Excess(body)
  {
    ExcessConcat(body, [Loop(count, |body|)]);
    LayoutOne(Loop(count, |body|));
  }

  /** Words beyond one for each instruction in the loops over one body. */
  function ExtraOfLoops(s: Settings, unrolled: nat, rows: seq<nat>, rolled: nat): nat {
    Times(|LoopCounts(rolled)|, ExtraWords(s, unrolled, rows))
  }

  /** Instructions of the loops over one body: the body with its LOOP, once for each loop. */
  function InstrsOfLoops(s: Settings, unrolled: nat, rows: seq<nat>, rolled: nat): nat {
    Times(|LoopCounts(rolled)|, 2 * Times(unrolled, |rows|) + BodySlots(s, unrolled, rows) + 1)
  }

  lemma LoopsExcess(s: Settings, unrolled: nat, rows: seq<nat>, rolled: nat)
    ensures Excess(LoopProgram(s, unrolled, rows, rolled)) == ExtraOfLoops(s, unrolled, rows, rolled)
  {
    UnrolledExcess(s, unrolled, rows);
    BlocksExcess(UnrolledBody(s, unrolled, rows), LoopCounts(rolled), ExtraWords(s, unrolled, rows));
  }

  lemma LoopsLength(s: Settings, unrolled: nat, rows: seq<nat>, rolled: nat)
    ensures |LoopProgram(s, unrolled, rows, rolled)| == InstrsOfLoops(s, unrolled, rows, rolled)
  {
    JumpCoversBody(s, unrolled, rows);
    BlocksLength(UnrolledBody(s, unrolled, rows), LoopCounts(rolled));
  }

  lemma EndsExcess(s: Settings)
    ensures Excess([Noop(Lead(s))]) == 0 && Excess([Slot(s, 1), Noop(0)]) == 0
  {
    LayoutOne(Noop(Lead(s)));
    LayoutTwo(Slot(s, 1), Noop(0));
  }

  lemma PartsSize(s: Settings, rows: seq<nat>, r: nat, q: nat, m: nat)
    ensures Excess(PayloadParts(s, rows, r, q, m)) == ExtraOfLoops(s, r, rows, q) + ExtraOfLoops(s, 1, rows, m)
    ensures |PayloadParts(s, rows, r, q, m)| == 3 + InstrsOfLoops(s, r, rows, q) + InstrsOfLoops(s, 1, rows, m)
  {
    var lead, many, once, last := [Noop(Lead(s))], LoopProgram(s, r, rows, q), LoopProgram(s, 1, rows, m), [Slot(s, 1), Noop(0)];
    EndsExcess(s);
    LoopsExcess(s, r, rows, q);
    LoopsExcess(s, 1, rows, m);
    LoopsLength(s, r, rows, q);
    LoopsLength(s, 1, rows, m);
    ExcessConcat(lead, many);
    ExcessConcat(lead + many, once);
    ExcessConcat(lead + many + once, last);
  }

  lemma NoneExtraIff(s: Settings, unrolled: nat, rows: seq<nat>, rolled: nat)
    ensures ExtraOfLoops(s, unrolled, rows, rolled) == 0 <==> rolled == 0 || ExtraWords(s, unrolled, rows) == 0
  {
    LoopsExist(rolled);
    ProductZero(|LoopCounts(rolled)|, ExtraWords(s, unrolled, rows));
  }

  lemma ProductZero(m: nat, n: nat)
    ensures Times(m, n) == 0 <==> m == 0 || n == 0
  {
  }

  /** The instructions and the words of a generated payload, for the `q` runs of the unrolled body and the `m` single
      passes of its read count; they are as many exactly when no loop body expands. */
  lemma GeneratedSize(s: Settings, rows: seq<nat>, readCount: nat, r: nat, p: seq<Instruction>) returns (q: nat, m: nat)
    requires Repetitions(s, rows) == Some(r) && Generate(s, rows, readCount) == Some(p)
    ensures readCount == q * r + m && m < r
    ensures |p| == 3 + InstrsOfLoops(s, r, rows, q) + InstrsOfLoops(s, 1, rows, m)
    ensures |Layout(p)| == |p| + ExtraOfLoops(s, r, rows, q) + ExtraOfLoops(s, 1, rows, m)
    ensures |Layout(p)| == |p| <==>
            (q == 0 || ExtraWords(s, r, rows) == 0) && (m == 0 || ExtraWords(s, 1, rows) == 0)
  {
    q, m := Shares(s, rows, r, readCount);
    PartsSize(s, rows, r, q, m);
    NoneExtraIff(s, r, rows, q);
    NoneExtraIff(s, 1, rows, m);
  }

  lemma Shares(s: Settings, rows: seq<nat>, r: nat, readCount: nat) returns (q: nat, m: nat)
    requires r > 0
    ensures readCount == q * r + m && m < r && Payload(s, rows, r, readCount) == PayloadParts(s, rows, r, q, m)
  {
    q, m := readCount / r, readCount % r;
  }

  lemma OneLoopSize(s: Settings)
    requires s.tRAS == 10 && s.tRP == 5 && s.tREFI == 100 && s.tRFC == 44 && s.refresh
    ensures InstrsOfLoops(s, 1, [0], 2) == 4 && ExtraOfLoops(s, 1, [0], 2) == 2
    ensures InstrsOfLoops(s, 3, [0], 0) == 0 && ExtraOfLoops(s, 3, [0], 0) == 0
  {
    WordsOfSmall(44);
    WordsOfSmall(10);
    WordsOfSmall(5);
    OneRow(s);
    assert |LoopCounts(2)| == 1 && |LoopCounts(0)| == 0;
  }

  /** Two passes over one row whose refresh takes three words: seven instructions and nine words. The source accepts
      it for a memory of eight words. */
  lemma TooLong(g: Geometry) returns (s: Settings, p: seq<Instruction>)
    requires g.Valid() && g.addrbits > 10
    ensures Repetitions(s, [0]) == Some(3) && Generate(s, [0], 2) == Some(p) && |p| == 7 && |Layout(p)| == 9
  {
    s := LostRefresh(g);
    p := Generate(s, [0], 2).value;
    var q, m := GeneratedSize(s, [0], 2, 3, p);
    OneLoopSize(s);
  }
}
