/** Payloads as lists of instructions: their words, and the bus cycles of each. */
module Layouts {
  import opened Isa
  import opened Executor
  import opened Interpreter
  import opened Program
  import opened Wrappers

  predicate PlainInstr(i: Instruction) { i.Accepted() && !i.Loop? && i != Noop(0) }

  predicate AllPlainInstr(p: seq<Instruction>) { forall k :: 0 <= k < |p| ==> PlainInstr(p[k]) }

  function Line(g: Geometry, op: nat, address: nat): Bus {
    Drive(g, Decoded(op, 0, address % 0x100_0000, 0, 0))
  }

  /** The cycles of a plain instruction, however many words it takes. */
  function InstrTrace(g: Geometry, i: Instruction): seq<Bus> {
    match i
    case Noop(timeslice) => Quiet(timeslice)
    case Dfi(op, timeslice, address) =>
      if timeslice == 0 then []
      else [Line(g, op, if address.Some? then address.value else 0)] + Quiet(timeslice - 1)
    case Loop(_, _) => []
  }

  function InstrsTrace(g: Geometry, p: seq<Instruction>): seq<Bus> {
    if p == [] then [] else InstrTrace(g, p[0]) + InstrsTrace(g, p[1..])
  }

  // ------------------------------------------------------- Words

  lemma LayoutOne(i: Instruction)
    ensures Layout([i]) == Words(i)
  {
    assert [i][1..] == [];
    assert Layout([]) == [];
  }

  lemma LayoutTwo(i: Instruction, j: Instruction)
    ensures Layout([i, j]) == Words(i) + Words(j)
  {
    assert [i, j] == [i] + [j];
    LayoutConcat([i], [j]);
    LayoutOne(i);
    LayoutOne(j);
  }

  lemma {:induction false} LayoutGrows(p: seq<Instruction>)
    ensures |p| <= |Layout(p)|
  {
    if p != [] {
      LayoutGrows(p[1..]);
    }
  }

  /** The one word of a LOOP. */
  lemma LoopWord(count: nat, jump: nat) returns (w: nat)
    requires Loop(count, jump).Accepted() && jump < 0x2_0000
    ensures Words(Loop(count, jump)) == [w]
    ensures Decode(w).op == LOOP && Decode(w).count == count && Decode(w).jump == jump
  {
    Powers();
    LoopRoundTrip(count, jump);
    w := Words(Loop(count, jump))[0];
  }

  lemma PlainWords(i: Instruction)
    requires PlainInstr(i)
    ensures AllPlain(Words(i))
  {
    if i.Dfi? {
      SplitKeepsDelay(i);
    } else {
      MainDecodes(i);
    }
  }

  lemma {:induction false} PlainLayout(p: seq<Instruction>)
    requires AllPlainInstr(p)
    ensures AllPlain(Layout(p))
  {
    if p != [] {
      PlainLayout(p[1..]);
      PlainWords(p[0]);
      BothPlain(Words(p[0]), Layout(p[1..]));
    }
  }

  lemma BothPlain(a: seq<nat>, b: seq<nat>)
    requires AllPlain(a) && AllPlain(b)
    ensures AllPlain(a + b)
  {
  }

  // ------------------------------------------------------- Traces

  lemma {:induction false} BodyTraceConcat(c: Config, a: seq<nat>, b: seq<nat>)
    ensures BodyTrace(c, a + b) == BodyTrace(c, a) + BodyTrace(c, b)
  {
    if a == [] {
      assert a + b == b;
    } else {
      BodyTraceConcat(c, a[1..], b);
      FirstOfConcat(a, b);
      Associate(CommandTrace(c, Decode(a[0])), BodyTrace(c, a[1..]), BodyTrace(c, b));
    }
  }

  lemma QuietSum(m: nat, n: nat)
    ensures Quiet(m) + Quiet(n) == Quiet(m + n)
  {
  }

  lemma {:induction false} NoopsTrace(c: Config, waits: seq<nat>)
    requires forall k :: 0 <= k < |waits| ==> 1 <= waits[k] <= 28
    ensures BodyTrace(c, NoopWords(waits)) == Quiet(Sum(waits))
  {
    if waits != [] {
      NoopDecodes(waits[0]);
      NoopsTrace(c, waits[1..]);
      assert NoopWords(waits)[1..] == NoopWords(waits[1..]);
      assert CommandTrace(c, Decode(NoopWord(waits[0]))) == Quiet(waits[0]);
      QuietSum(waits[0], Sum(waits[1..]));
    }
  }

  lemma FirstTrace(c: Config, op: nat, word: nat, base: nat, address: nat)
    requires Decode(word).op == op && Decode(word).timeslice == base && base >= 1
    requires Decode(word).address == address % 0x100_0000
    ensures CommandTrace(c, Decode(word)) == [Line(c.geometry, op, address)] + Quiet(base - 1)
  {
  }

  /** However it is split, an instruction drives its command once and then waits. */
  lemma WordsTrace(c: Config, i: Instruction)
    requires PlainInstr(i)
    ensures BodyTrace(c, Words(i)) == InstrTrace(c.geometry, i)
  {
    var first, waits := Pack(MainParts(i)), Waits(Remaining(i));
    WaitsConserve(Remaining(i));
    NoopsTrace(c, waits);
    BodyTraceConcat(c, [first], NoopWords(waits));
    assert Words(i) == [first] + NoopWords(waits);
    assert BodyTrace(c, [first]) == CommandTrace(c, Decode(first)) by {
      assert [first][1..] == [];
      assert BodyTrace(c, []) == [];
    }
    MainDecodes(i);
    if i.Dfi? {
      var base := BaseTimeslice(i.timeslice);
      RemainingSplits(i);
      FirstTrace(c, i.op, first, base, if i.address.Some? then i.address.value else 0);
      QuietSum(base - 1, Remaining(i));
    } else {
      assert Words(i) == [first] && CommandTrace(c, Decode(first)) == Quiet(i.timeslice);
    }
  }

  lemma {:induction false} LayoutTrace(c: Config, p: seq<Instruction>)
    requires AllPlainInstr(p)
    ensures BodyTrace(c, Layout(p)) == InstrsTrace(c.geometry, p)
  {
    if p != [] {
      LayoutTrace(c, p[1..]);
      WordsTrace(c, p[0]);
      BodyTraceConcat(c, Words(p[0]), Layout(p[1..]));
    }
  }
}
