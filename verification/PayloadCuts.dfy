/** What a LOOP repeats when its body has more words than instructions, again as instructions: the words it
    skips take whole instructions away, and leave of the next one only the rest of its timeslice. */
module PayloadCuts {
  import opened Isa
  import opened Executor
  import opened Interpreter
  import opened Program
  import opened Layouts
  import opened Refinement
  import opened Traces
  import opened PayloadResults
  import opened Wrappers

  // ------------------------------------------------------- Words and cycles of an instruction

  /** Cycles left when the first `n` words are skipped: the command, then NOOPs of 28 cycles. */
  function TimeLeft(timeslice: nat, n: nat): nat {
    var gone := if n == 0 then 0 else BaseTimeslice(timeslice) + 28 * (n - 1);
    if gone <= timeslice then timeslice - gone else 0
  }

  lemma {:induction false} WaitCount(remaining: nat)
    ensures |Waits(remaining)| == (remaining + 27) / 28
  {
    if remaining > 28 {
      WaitCount(remaining - 28);
    }
  }

  /** The number of words from the timeslice. */
  lemma WordsOfTimeslice(op: nat, timeslice: nat, address: Option<nat>)
    requires timeslice > 0
    ensures |Words(Dfi(op, timeslice, address))| == 1 + (timeslice - BaseTimeslice(timeslice) + 27) / 28
  {
    WaitCount(timeslice - BaseTimeslice(timeslice));
  }

  lemma {:induction false} WaitsLeft(remaining: nat, k: nat)
    requires k < |Waits(remaining)|
    ensures 28 * k <= remaining && Sum(Waits(remaining)[k..]) == remaining - 28 * k
  {
    if k == 0 {
      WaitsConserve(remaining);
      assert Waits(remaining)[0..] == Waits(remaining);
    } else {
      assert remaining > 28;
      WaitsLeft(remaining - 28, k - 1);
      assert Waits(remaining)[k..] == Waits(remaining - 28)[k - 1..];
    }
  }

  lemma WaitsBehind(first: nat, waits: seq<nat>, n: nat)
    requires 0 < n <= |waits|
    ensures ([first] + NoopWords(waits))[n..] == NoopWords(waits[n - 1..])
  {
  }

  lemma WaitsTrace(c: Config, remaining: nat, k: nat)
    requires k < |Waits(remaining)|
    ensures 28 * k <= remaining && BodyTrace(c, NoopWords(Waits(remaining)[k..])) == Quiet(remaining - 28 * k)
  {
    WaitsConserve(remaining);
    WaitsLeft(remaining, k);
    NoopsTrace(c, Waits(remaining)[k..]);
  }

  lemma LeftOf(i: Instruction, n: nat)
    requires n > 0 && |Waits(Remaining(i))| >= n && 28 * (n - 1) <= Remaining(i)
    ensures i.Dfi? && TimeLeft(i.timeslice, n) == Remaining(i) - 28 * (n - 1)
  {
  }

  /** The words behind a command are idle for the rest of its timeslice. */
  lemma RestTrace(c: Config, first: nat, remaining: nat, n: nat)
    requires 0 < n <= |Waits(remaining)|
    ensures 28 * (n - 1) <= remaining
    ensures BodyTrace(c, ([first] + NoopWords(Waits(remaining)))[n..]) == Quiet(remaining - 28 * (n - 1))
  {
    WaitsBehind(first, Waits(remaining), n);
    WaitsTrace(c, remaining, n - 1);
  }

  // ------------------------------------------------------- Cutting

  function Time(i: Instruction): nat { if i.Loop? then 0 else i.timeslice }

  /** Instructions without the first `lost` of their words. */
  function Cut(p: seq<Instruction>, lost: nat): seq<Instruction> {
    if lost == 0 || p == [] then p
    else if lost >= |Words(p[0])| then Cut(p[1..], lost - |Words(p[0])|)
    else [Noop(TimeLeft(Time(p[0]), lost))] + p[1..]
  }

  lemma CutInside(c: Config, p: seq<Instruction>, lost: nat)
    requires AllPlainInstr(p) && p != [] && 0 < lost < |Words(p[0])|
    ensures BodyTrace(c, Layout(p)[lost..]) == InstrsTrace(c.geometry, Cut(p, lost))
  {
    var first, rest := Words(p[0]), Layout(p[1..]);
    var left := Noop(TimeLeft(Time(p[0]), lost));
    DropConcat(first, rest, lost);
    BodyTraceConcat(c, first[lost..], rest);
    RestTrace(c, Pack(MainParts(p[0])), Remaining(p[0]), lost);
    LeftOf(p[0], lost);
    LayoutTrace(c, p[1..]);
    InstrsTraceConcat(c.geometry, [left], p[1..]);
    TraceOfOne(c.geometry, left);
  }

  lemma WordsBehind(first: seq<nat>, rest: seq<nat>, all: seq<nat>, lost: nat, less: nat)
    requires all == first + rest && lost == |first| + less <= |all|
    ensures less <= |rest| && all[lost..] == rest[less..]
  {
  }

  lemma CutBehind(p: seq<Instruction>, lost: nat, less: nat)
    requires p != [] && lost == |Words(p[0])| + less
    ensures Cut(p, lost) == Cut(p[1..], less)
  {
  }

  lemma NoneDropped(ws: seq<nat>)
    ensures ws[0..] == ws
  {
  }

  /** The words behind the skipped ones run like the cut instructions. */
  lemma {:induction false} CutTrace(c: Config, p: seq<Instruction>, lost: nat)
    requires AllPlainInstr(p) && lost <= |Layout(p)|
    ensures BodyTrace(c, Layout(p)[lost..]) == InstrsTrace(c.geometry, Cut(p, lost))
  {
    if lost == 0 {
      NoneDropped(Layout(p));
      LayoutTrace(c, p);
    } else if lost < |Words(p[0])| {
      CutInside(c, p, lost);
    } else {
      var less := lost - |Words(p[0])|;
      WordsBehind(Words(p[0]), Layout(p[1..]), Layout(p), lost, less);
      CutBehind(p, lost, less);
      CutTrace(c, p[1..], less);
    }
  }

  /** What is left of plain instructions holds the bus as they do. */
  predicate Steady(i: Instruction) { i.Noop? || (i.Dfi? && i.timeslice > 0 && i.op != NOOP) }

  predicate AllSteady(p: seq<Instruction>) { forall k :: 0 <= k < |p| ==> Steady(p[k]) }

  lemma PlainSteady(p: seq<Instruction>)
    requires AllPlainInstr(p)
    ensures AllSteady(p)
  {
  }

  lemma {:induction false} CutSteady(p: seq<Instruction>, lost: nat)
    requires AllSteady(p)
    ensures AllSteady(Cut(p, lost))
  {
    if lost != 0 && p != [] && lost >= |Words(p[0])| {
      CutSteady(p[1..], lost - |Words(p[0])|);
    }
  }

  // ------------------------------------------------------- Measures of instructions

  predicate Refreshing(i: Instruction) { i.Dfi? && i.op == REF }

  /** Cycles of the instructions. */
  function TimeOf(p: seq<Instruction>): nat { if p == [] then 0 else Time(p[0]) + TimeOf(p[1..]) }

  /** Refreshes among them. */
  function RefreshesOf(p: seq<Instruction>): nat {
    if p == [] then 0 else (if Refreshing(p[0]) then 1 else 0) + RefreshesOf(p[1..])
  }

  /** Cycles before the first refresh, or all of them. */
  function TimeUntil(p: seq<Instruction>): nat {
    if p == [] || Refreshing(p[0]) then 0 else Time(p[0]) + TimeUntil(p[1..])
  }

  lemma OneMeasured(g: Geometry, i: Instruction)
    requires Steady(i)
    ensures var t := InstrTrace(g, i);
            && |t| == Time(i) && Refreshes(t) == (if Refreshing(i) then 1 else 0)
            && Until(t) == if Refreshing(i) then 0 else Time(i)
  {
    if i.Noop? {
      RefreshesQuiet(i.timeslice);
      UntilQuiet(i.timeslice);
    } else {
      var b := Line(g, i.op, if i.address.Some? then i.address.value else 0);
      OneCommand(b, i.timeslice - 1);
      UntilQuiet(i.timeslice - 1);
      assert ([b] + Quiet(i.timeslice - 1))[1..] == Quiet(i.timeslice - 1);
    }
  }

  /** The measures are those of the bus cycles. */
  lemma {:induction false} Measured(g: Geometry, p: seq<Instruction>)
    requires AllSteady(p)
    ensures var t := InstrsTrace(g, p); |t| == TimeOf(p) && Refreshes(t) == RefreshesOf(p) && Until(t) == TimeUntil(p)
  {
    if p != [] {
      Measured(g, p[1..]);
      OneMeasured(g, p[0]);
      RefreshesConcat(InstrTrace(g, p[0]), InstrsTrace(g, p[1..]));
      UntilConcat(InstrTrace(g, p[0]), InstrsTrace(g, p[1..]));
    }
  }
}
