/** Word sequences that run into what follows them: composing programs word by word, also where a LOOP
    jumps into the middle of an instruction's words. */
module Fragments {
  import opened Isa
  import opened Executor
  import opened Interpreter
  import opened Program
  import opened Layouts
  import opened Wrappers

  /** No STOP, and every LOOP jumps over plain words of the fragment. */
  predicate Nested(ws: seq<nat>) { forall i :: 0 <= i < |ws| ==> Plain(ws[i]) || LoopOverPlain(ws, i) }

  /** The last `n` words, or all of them if there are fewer. */
  function LastOf(ws: seq<nat>, n: nat): seq<nat> { if n <= |ws| then ws[|ws| - n..] else ws }

  /** The cycles of one word behind others. */
  function WordTrace(c: Config, front: seq<nat>, w: nat): seq<Bus> {
    var d := Decode(w);
    if d.op == LOOP then LoopTrace(c, d.count, LastOf(front, d.jump)) else CommandTrace(c, d)
  }

  /** The trace of a fragment. */
  function RunTrace(c: Config, ws: seq<nat>): seq<Bus> {
    if ws == [] then []
    else
      var n := |ws| - 1;
      RunTrace(c, ws[..n]) + WordTrace(c, ws[..n], ws[n])
  }

  lemma NestedConcat(a: seq<nat>, b: seq<nat>)
    requires Nested(a) && Nested(b)
    ensures Nested(a + b)
  {
    var ws := a + b;
    forall i | 0 <= i < |ws|
      ensures Plain(ws[i]) || LoopOverPlain(ws, i)
    {
      if i < |a| {
        SameLoop(a, i, ws, i);
      } else {
        SameLoop(b, i - |a|, ws, i);
      }
    }
  }

  /** A LOOP with the same words before it behaves the same. */
  lemma SameLoop(ws: seq<nat>, i: nat, vs: seq<nat>, j: nat)
    requires i < |ws| && i <= j < |vs| && forall k :: 0 <= k <= i ==> ws[k] == vs[j - i + k]
    ensures LoopOverPlain(ws, i) ==> LoopOverPlain(vs, j)
    ensures LoopOverPlain(ws, i) ==> var d := Decode(ws[i]); vs[j - d.jump..j] == ws[i - d.jump..i]
  {
    if LoopOverPlain(ws, i) {
      var d := Decode(ws[i]);
      assert vs[j - d.jump..j] == ws[i - d.jump..i];
    }
  }

  /** A word that is no LOOP, or does not jump over more than `k` words. */
  predicate Reaches(w: nat, k: nat) { Decode(w).op == LOOP ==> Decode(w).jump <= k }

  lemma LastOfSecond(a: seq<nat>, b: seq<nat>, n: nat)
    requires n <= |b|
    ensures LastOf(a + b, n) == LastOf(b, n)
  {
  }

  /** A word runs the same with more words in front of it. */
  lemma SameWord(c: Config, a: seq<nat>, b: seq<nat>, w: nat)
    requires Reaches(w, |b|)
    ensures WordTrace(c, a + b, w) == WordTrace(c, b, w)
  {
    if Decode(w).op == LOOP {
      LastOfSecond(a, b, Decode(w).jump);
    }
  }

  /** One more word. */
  lemma RunSnoc(c: Config, front: seq<nat>, w: nat)
    ensures RunTrace(c, front + [w]) == RunTrace(c, front) + WordTrace(c, front, w)
  {
    LastOfConcat(front, w);
  }

  lemma NestedFront(ws: seq<nat>, n: nat)
    requires Nested(ws) && |ws| == n + 1
    ensures Nested(ws[..n]) && Reaches(ws[n], n)
  {
    assert Plain(ws[n]) || LoopOverPlain(ws, n);
    forall i | 0 <= i < n
      ensures Plain(ws[..n][i]) || LoopOverPlain(ws[..n], i)
    {
      assert Plain(ws[i]) || LoopOverPlain(ws, i);
      if LoopOverPlain(ws, i) {
        var d := Decode(ws[i]);
        assert ws[..n][i - d.jump..i] == ws[i - d.jump..i];
      }
    }
  }

  /** Fragments compose. */
  lemma {:induction false} RunConcat(c: Config, a: seq<nat>, b: seq<nat>)
    requires Nested(b)
    ensures RunTrace(c, a + b) == RunTrace(c, a) + RunTrace(c, b)
  {
    if b == [] {
      assert a + b == a;
    } else {
      var n := |b| - 1;
      var front, w := b[..n], b[n];
      NestedFront(b, n);
      RunConcat(c, a, front);
      RunSnoc(c, a + front, w);
      SameWord(c, a, front, w);
      SplitLast(a, b);
      Associate(RunTrace(c, a), RunTrace(c, front), WordTrace(c, front, w));
    }
  }

  /** A LOOP behind a fragment. */
  lemma RunLoop(c: Config, front: seq<nat>, w: nat)
    requires Decode(w).op == LOOP
    ensures RunTrace(c, front + [w]) ==
            RunTrace(c, front) + LoopTrace(c, Decode(w).count, LastOf(front, Decode(w).jump))
  {
    RunSnoc(c, front, w);
  }

  lemma NestedLoop(front: seq<nat>, w: nat)
    requires Nested(front) && Decode(w).op == LOOP && Decode(w).jump <= |front|
    requires AllPlain(LastOf(front, Decode(w).jump))
    ensures Nested(front + [w])
  {
    var ws, n := front + [w], |front|;
    assert ws[n - Decode(w).jump..n] == LastOf(front, Decode(w).jump);
    forall i | 0 <= i <= n
      ensures Plain(ws[i]) || LoopOverPlain(ws, i)
    {
      if i < n {
        SameLoop(front, i, ws, i);
      }
    }
  }

  lemma {:induction false} RunAll(c: Config, ws: seq<nat>)
    requires AllPlain(ws)
    ensures Nested(ws) && RunTrace(c, ws) == BodyTrace(c, ws)
  {
    if ws != [] {
      var n := |ws| - 1;
      assert ws[..n + 1] == ws;
      RunAll(c, ws[..n]);
      BodySnoc(c, ws[..n], ws[n]);
      PrefixNext(ws, n);
    }
  }

  lemma BodySnoc(c: Config, front: seq<nat>, w: nat)
    ensures BodyTrace(c, front + [w]) == BodyTrace(c, front) + CommandTrace(c, Decode(w))
  {
    BodyTraceConcat(c, front, [w]);
    assert [w][1..] == [];
    assert BodyTrace(c, []) == [];
    assert BodyTrace(c, [w]) == CommandTrace(c, Decode(w));
  }

  /** A fragment with a STOP behind it is a program. */
  lemma ProgramNested(ws: seq<nat>, program: seq<nat>)
    requires Nested(ws) && |ws| < |program| && ws == program[..|ws|] && Decode(program[|ws|]).Stop()
    ensures WellNested(program, |ws|)
  {
    forall i | 0 <= i < |ws|
      ensures Plain(program[i]) || LoopOverPlain(program, i)
    {
      SameLoop(ws, i, program, i);
    }
  }

  /** A word of a program runs as in a fragment. */
  lemma TraceStep(c: Config, program: seq<nat>, stop: nat, k: nat)
    requires WellNested(program, stop) && k < stop
    ensures TraceFrom(c, program, stop, k) == WordTrace(c, program[..k], program[k]) + TraceFrom(c, program, stop, k + 1)
  {
    assert Plain(program[k]) || LoopOverPlain(program, k);
    var d := Decode(program[k]);
    if d.op == LOOP {
      assert LastOf(program[..k], d.jump) == program[k - d.jump..k];
    }
  }

  lemma RunStart(c: Config, program: seq<nat>, all: seq<Bus>)
    ensures all == RunTrace(c, program[..0]) + all
  {
    assert program[..0] == [];
  }

  /** From one prefix of the words to the next. */
  lemma RunNext(c: Config, program: seq<nat>, k: nat, all: seq<Bus>, rest: seq<Bus>)
    requires k < |program| && all == RunTrace(c, program[..k]) + (WordTrace(c, program[..k], program[k]) + rest)
    ensures all == RunTrace(c, program[..k + 1]) + rest
  {
    PrefixNext(program, k);
    RunSnoc(c, program[..k], program[k]);
    Associate(RunTrace(c, program[..k]), WordTrace(c, program[..k], program[k]), rest);
  }

  lemma {:induction false} RunUpTo(c: Config, program: seq<nat>, stop: nat, k: nat)
    requires WellNested(program, stop) && k <= stop
    ensures TraceFrom(c, program, stop, 0) == RunTrace(c, program[..k]) + TraceFrom(c, program, stop, k)
  {
    if k == 0 {
      RunStart(c, program, TraceFrom(c, program, stop, 0));
    } else {
      RunUpTo(c, program, stop, k - 1);
      TraceStep(c, program, stop, k - 1);
      RunNext(c, program, k - 1, TraceFrom(c, program, stop, 0), TraceFrom(c, program, stop, k));
    }
  }

  lemma RunProgram(c: Config, ws: seq<nat>, program: seq<nat>)
    requires Nested(ws) && |ws| < |program| && ws == program[..|ws|] && Decode(program[|ws|]).Stop()
    ensures WellNested(program, |ws|)
    ensures TraceFrom(c, program, |ws|, 0) == RunTrace(c, ws) + Quiet(1)
  {
    ProgramNested(ws, program);
    RunUpTo(c, program, |ws|, |ws|);
  }
}
