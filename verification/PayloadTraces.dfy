/** The bus cycles of a payload in terms of those of its loop bodies. A jump of a LOOP repeats the end of
    its body: the whole of it, unless instructions take several words. */
module PayloadTraces {
  import opened Bits
  import opened Isa
  import opened Executor
  import opened Interpreter
  import opened Program
  import opened Layouts
  import opened PayloadCompiler

  /** Rank, bank and rows fit their fields, and bit 10 of the address lines exists. */
  ghost predicate Fits(s: Settings, rows: seq<nat>) {
    && s.geometry.Valid() && s.geometry.addrbits > 10
    && s.rank < Pow2(s.geometry.rankbits) && s.bank < Pow2(s.geometry.bankbits)
    && forall k :: 0 <= k < |rows| ==> rows[k] < Pow2(s.geometry.addrbits)
  }

  /** The jumps of a LOOP, each with its bubbles, and the LOOP that falls through. */
  function JumpsTrace(tail: seq<Bus>, count: nat): seq<Bus> {
    Repeat(count, Quiet(1 + PIPELINE_DELAY) + tail) + Quiet(1)
  }

  /** Loops over one body: its cycles, and those of the end that is repeated. */
  function LoopsTrace(whole: seq<Bus>, tail: seq<Bus>, counts: seq<nat>): seq<Bus> {
    if counts == [] then []
    else
      var n := |counts| - 1;
      LoopsTrace(whole, tail, counts[..n]) + (whole + JumpsTrace(tail, counts[n]))
  }

  predicate NoJumps(counts: seq<nat>) { forall k :: 0 <= k < |counts| ==> counts[k] == 0 }

  /** Lead-in, unrolled loops, single passes, last slot, STOP. */
  function PartsTrace(s: Settings, many: seq<Bus>, once: seq<Bus>): seq<Bus> {
    Quiet(Lead(s)) + many + once + InstrTrace(s.geometry, Slot(s, 1)) + Quiet(1)
  }

  /** Without jumps it does not matter what they would repeat. */
  lemma {:induction false} TailUnused(whole: seq<Bus>, tail: seq<Bus>, counts: seq<nat>)
    requires NoJumps(counts)
    ensures LoopsTrace(whole, tail, counts) == LoopsTrace(whole, whole, counts)
  {
    if counts != [] {
      TailUnused(whole, tail, counts[..|counts| - 1]);
    }
  }

  lemma LoopsExist(rolled: nat)
    ensures LoopCounts(rolled) == [] <==> rolled == 0
  {
  }

  /** A body jumps exactly when it runs more than once. */
  lemma JumpsIfTwice(rolled: nat)
    ensures NoJumps(LoopCounts(rolled)) <==> rolled <= 1
  {
    var counts := LoopCounts(rolled);
    if rolled > 1 {
      if rolled % (COUNT_MAX + 1) == 1 {
        assert counts[1] == CountOf(rolled, 1);
      } else {
        assert counts[0] == CountOf(rolled, 0);
      }
    }
  }

  /** The jumps of the loops with these counts. */
  function Jumps(counts: seq<nat>): nat {
    if counts == [] then 0 else Jumps(counts[..|counts| - 1]) + counts[|counts| - 1]
  }

  /** Every run of a body but the first of each loop is a jump. */
  lemma {:induction false} JumpsAreRuns(counts: seq<nat>)
    ensures Jumps(counts) + |counts| == BodyRuns(counts)
  {
    if counts != [] {
      JumpsAreRuns(counts[..|counts| - 1]);
    }
  }

  /** The jumps of `rolled` runs: all but the first run of each loop. */
  function JumpsOf(rolled: nat): nat {
    if |LoopCounts(rolled)| <= rolled then rolled - |LoopCounts(rolled)| else 0
  }

  lemma JumpsOfRuns(rolled: nat)
    ensures Jumps(LoopCounts(rolled)) == JumpsOf(rolled)
  {
    JumpsAreRuns(LoopCounts(rolled));
    LoopCountsExact(rolled);
  }

  /** The jumps of a payload. */
  function JumpsIn(r: nat, readCount: nat): nat
    requires r > 0
  {
    JumpsOf(readCount / r) + JumpsOf(readCount % r)
  }

  /** How often the longest of the loops for `rolled` runs jumps back. */
  function MostJumps(rolled: nat): nat { if rolled == 0 then 0 else if rolled <= COUNT_MAX then rolled - 1 else COUNT_MAX }

  lemma MostIsMost(rolled: nat)
    requires rolled > 0
    ensures var counts := LoopCounts(rolled); counts != [] && counts[|counts| - 1] == MostJumps(rolled)
    ensures forall k :: 0 <= k < |LoopCounts(rolled)| ==> LoopCounts(rolled)[k] <= MostJumps(rolled)
  {
  }
}
