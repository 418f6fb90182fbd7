/** STOP-terminated programs whose loops do not overlap, and the bus trace they unroll to. */
module Program {
  import opened Isa
  import opened Executor
  import opened Interpreter
  import opened Refinement
  import opened Wrappers

  predicate Plain(word: nat) { Decode(word).op != LOOP && !Decode(word).Stop() }

  /** The first STOP is at `stop`, and every LOOP before it jumps to plain words only. */
  predicate WellNested(words: seq<nat>, stop: nat) {
    && stop < |words| && Decode(words[stop]).Stop()
    && forall i :: 0 <= i < stop ==> Plain(words[i]) || LoopOverPlain(words, i)
  }

  predicate LoopOverPlain(words: seq<nat>, i: nat)
    requires i < |words|
  {
    var d := Decode(words[i]);
    d.op == LOOP && d.jump <= i && AllPlain(words[i - d.jump..i])
  }

  predicate AllPlain(words: seq<nat>) {
    forall k :: 0 <= k < |words| ==> Plain(words[k])
  }

  predicate Loaded(c: Config, words: seq<nat>) {
    2 <= |c.mem| && words <= c.mem
  }

  function BodyTrace(c: Config, words: seq<nat>): seq<Bus> {
    if words == [] then [] else CommandTrace(c, Decode(words[0])) + BodyTrace(c, words[1..])
  }

  function Repeat<T>(n: nat, xs: seq<T>): seq<T> {
    if n == 0 then [] else xs + Repeat(n - 1, xs)
  }

  lemma {:induction false} RepeatLength<T>(n: nat, xs: seq<T>)
    ensures |Repeat(n, xs)| == n * |xs|
  {
    if n > 0 {
      RepeatLength(n - 1, xs);
      assert n * |xs| == (n - 1) * |xs| + |xs|;
    }
  }

  /** A LOOP at the end of `body`: each taken jump costs the instruction and the bubbles. */
  function LoopTrace(c: Config, count: nat, body: seq<nat>): seq<Bus> {
    Repeat(count, Quiet(1 + PIPELINE_DELAY) + BodyTrace(c, body)) + Quiet(1)
  }

  /** The unrolled program from word `k` on, in cycles. */
  function TraceFrom(c: Config, words: seq<nat>, stop: nat, k: nat): seq<Bus>
    requires WellNested(words, stop) && k <= stop
    decreases stop - k
  {
    var d := Decode(words[k]);
    if k == stop then Quiet(1)
    else if d.op == LOOP then
      assert LoopOverPlain(words, k);
      LoopTrace(c, d.count, words[k - d.jump..k]) + TraceFrom(c, words, stop, k + 1)
    else CommandTrace(c, d) + TraceFrom(c, words, stop, k + 1)
  }

  lemma PlainRuns(c: Config, words: seq<nat>, k: nat, loop: nat)
    requires Loaded(c, words) && k + 1 < |words| && loop < 4096 && Plain(words[k])
    ensures Runs(c, Running(k, loop), CommandTrace(c, Decode(words[k])), Running(k + 1, loop))
  {
    assert c.mem[k] == words[k];
    RunsOne(c, Running(k, loop));
  }

  lemma {:induction false} StraightRuns(c: Config, words: seq<nat>, a: nat, b: nat, loop: nat)
    requires Loaded(c, words) && a <= b < |words| && loop < 4096 && AllPlain(words[a..b])
    ensures Runs(c, Running(a, loop), BodyTrace(c, words[a..b]), Running(b, loop))
    decreases b - a
  {
    if a == b {
      RunsNone(c, Running(a, loop));
    } else {
      assert words[a..b][0] == words[a] && words[a..b][1..] == words[a + 1..b];
      PlainRuns(c, words, a, loop);
      StraightRuns(c, words, a + 1, b, loop);
      RunsTrans(c, Running(a, loop), CommandTrace(c, Decode(words[a])), Running(a + 1, loop),
                BodyTrace(c, words[a + 1..b]), Running(b, loop));
    }
  }

  lemma JumpRuns(c: Config, words: seq<nat>, k: nat, loop: nat)
    requires Loaded(c, words) && k + 1 < |words| && LoopOverPlain(words, k) && loop < Decode(words[k]).count
    ensures Runs(c, Running(k, loop), Quiet(1 + PIPELINE_DELAY), Running(k - Decode(words[k]).jump, loop + 1))
  {
    assert c.mem[k] == words[k];
    var target := k - Decode(words[k]).jump;
    ModUnique(target, 0, target, |c.mem|);
    RunsOne(c, Running(k, loop));
  }

  lemma {:induction false} LoopRuns(c: Config, words: seq<nat>, k: nat, loop: nat)
    requires Loaded(c, words) && k + 1 < |words| && LoopOverPlain(words, k) && loop <= Decode(words[k]).count
    ensures var d := Decode(words[k]);
            Runs(c, Running(k, loop), LoopTrace(c, d.count - loop, words[k - d.jump..k]), Running(k + 1, 0))
    decreases Decode(words[k]).count - loop
  {
    var d := Decode(words[k]);
    var target, body := k - d.jump, words[k - d.jump..k];
    if loop == d.count {
      assert c.mem[k] == words[k];
      RunsOne(c, Running(k, loop));
      assert [] + Quiet(1) == Quiet(1);
    } else {
      var turn, rest := Quiet(1 + PIPELINE_DELAY) + BodyTrace(c, body), LoopTrace(c, d.count - loop - 1, body);
      JumpRuns(c, words, k, loop);
      StraightRuns(c, words, target, k, loop + 1);
      RunsTrans(c, Running(k, loop), Quiet(1 + PIPELINE_DELAY), Running(target, loop + 1),
                BodyTrace(c, body), Running(k, loop + 1));
      LoopRuns(c, words, k, loop + 1);
      RunsTrans(c, Running(k, loop), turn, Running(k, loop + 1), rest, Running(k + 1, 0));
      Associate(turn, Repeat(d.count - loop - 1, turn), Quiet(1));
    }
  }

  /** The interpreter runs a well-nested program to its STOP along exactly the unrolled trace and
      leaves the loop counter at 0 for the next run. */
  lemma {:induction false} ProgramRuns(c: Config, words: seq<nat>, stop: nat, k: nat)
    requires Loaded(c, words) && WellNested(words, stop) && k <= stop
    ensures Runs(c, Running(k, 0), TraceFrom(c, words, stop, k), Halted(0))
    decreases stop - k
  {
    assert c.mem[k] == words[k];
    if k == stop {
      RunsOne(c, Running(k, 0));
    } else {
      ProgramRuns(c, words, stop, k + 1);
      var d := Decode(words[k]);
      if d.op == LOOP {
        assert LoopOverPlain(words, k);
        LoopRuns(c, words, k, 0);
        RunsTrans(c, Running(k, 0), LoopTrace(c, d.count, words[k - d.jump..k]), Running(k + 1, 0),
                  TraceFrom(c, words, stop, k + 1), Halted(0));
      } else {
        PlainRuns(c, words, k, 0);
        RunsTrans(c, Running(k, 0), CommandTrace(c, d), Running(k + 1, 0),
                  TraceFrom(c, words, stop, k + 1), Halted(0));
      }
    }
  }

  /** The gateware executes a loaded well-nested program: after the handover it registers
      PIPELINE_DELAY + 1 idle cycles and the unrolled trace, then is ready again with the loop counter at 0. */
  lemma ProgramOnGateware(c: Config, s: State, words: seq<nat>, stop: nat, ins: seq<Input>)
    requires Loaded(c, words) && WellNested(words, stop)
    requires Inv(c, s) && s.core.fsm == WAIT_DFI && s.switch.payload && s.core.loop == 0
    requires |ins| == 1 + PIPELINE_DELAY + |TraceFrom(c, words, stop, 0)|
    ensures Issued(c, s, ins) == Quiet(1 + PIPELINE_DELAY) + TraceFrom(c, words, stop, 0)
    ensures var e := After(c, s, ins); Inv(c, e) && e.core.fsm == READY && e.core.loop == 0
    ensures Busy(c, Step(c, s, ins[0]), ins[1..])
  {
    ProgramRuns(c, words, stop, 0);
    var n: nat :| ExecMany(c, Running(0, 0), n) == (Halted(0), TraceFrom(c, words, stop, 0));
    LaunchRefines(c, s, n, ins);
    Reachable(c, s, ins);
  }

  /** At the end of that run, and with any number of later cycles until the next start pulse, the time registers differ
      by the pipeline fill plus the trace. */
  lemma ProgramTime(c: Config, s: State, words: seq<nat>, stop: nat, ins: seq<Input>, more: seq<Input>)
    requires Loaded(c, words) && WellNested(words, stop)
    requires Inv(c, s) && s.core.fsm == WAIT_DFI && s.switch.payload && s.core.loop == 0
    requires |ins| == 1 + PIPELINE_DELAY + |TraceFrom(c, words, stop, 0)|
    requires (forall i :: i in ins + more ==> !i.start) && s.core.timers.cycle + |ins| < WIDE
    ensures var t := After(c, s, ins + more).core.timers;
            t.execStop - t.execStart == PIPELINE_DELAY + |TraceFrom(c, words, stop, 0)|
  {
    ProgramRuns(c, words, stop, 0);
    var n: nat :| ExecMany(c, Running(0, 0), n) == (Halted(0), TraceFrom(c, words, stop, 0));
    forall i | i in ins ensures !i.start { assert i in ins + more; }
    ExecutionTime(c, s, n, ins);
    ProgramOnGateware(c, s, words, stop, ins);
    TimeStays(c, s, ins, more);
  }

  /** Later cycles without a start pulse change nothing about the time registers. */
  lemma TimeStays(c: Config, s: State, ins: seq<Input>, more: seq<Input>)
    requires |c.mem| >= 2 && InRange(c, s.core.fetch)
    requires Inv(c, After(c, s, ins)) && After(c, s, ins).core.fsm == READY && forall i :: i in ins + more ==> !i.start
    ensures var t, u := After(c, s, ins).core.timers, After(c, s, ins + more).core.timers;
            t.execStart == u.execStart && t.execStop == u.execStop
  {
    Compose(c, s, ins, more);
    forall i | i in more ensures !i.start { assert i in ins + more; }
    Rests(c, After(c, s, ins), more);
  }
}
