/** The clocked pipeline refines the interpreter: same commands, same order, same cycles. */
module Refinement {
  import opened Isa
  import opened Executor
  import opened Interpreter

  lemma Multiple(q: int, d: nat)
    requires q >= 1
    ensures q * d >= d
  {
    assert (q - 1) * d >= 0;
  }

  lemma ModUnique(x: int, q: int, r: int, d: nat)
    requires d > 0 && 0 <= r < d && x == q * d + r
    ensures x % d == r
  {
    var q', r' := x / d, x % d;
    assert (q - q') * d == r' - r && (q' - q) * d == r - r';
    if q > q' {
      Multiple(q - q', d);
    } else if q < q' {
      Multiple(q' - q, d);
    }
  }

  lemma ModAdd(a: int, k: int, d: nat)
    requires d > 0
    ensures (a % d + k) % d == (a + k) % d
  {
    var q, p, r := a / d, (a % d + k) / d, (a % d + k) % d;
    assert a + k == (q + p) * d + r;
    ModUnique(a + k, q + p, r, d);
  }

  /** RUN on slot `ip`: the instruction, the prefetched word and both program counters. */
  predicate InSlot(c: Config, core: Core, ip: nat, loop: nat) {
    var depth := |c.mem|;
    && depth >= 2 && ip < depth && loop < 4096
    && core.fsm == RUN && core.loop == loop
    && core.fetch == Fetch((ip + 2) % depth, (ip + 1) % depth, (ip + 1) % depth, c.mem[ip])
  }

  predicate Matches(c: Config, core: Core, st: Status) {
    match st
    case Running(ip, loop) => InSlot(c, core, ip, loop)
    case Halted(loop) => core.fsm == READY && core.loop == loop
  }

  /** Waiting out a timeslice with slot `ip` already fetched. */
  predicate Waiting(c: Config, core: Core, ip: nat, loop: nat) {
    core.fsm == IDLE && InSlot(c, core.(fsm := RUN), ip, loop)
  }

  /** One cycle of a non-jumping RUN step advances the fetcher by one slot. */
  lemma FetchAdvances(c: Config, ip: nat)
    requires |c.mem| >= 2 && ip + 1 < |c.mem|
    ensures var depth := |c.mem|;
            NextFetch(c, Fetch((ip + 2) % depth, (ip + 1) % depth, (ip + 1) % depth, c.mem[ip]), false, false, false)
            == Fetch((ip + 3) % depth, (ip + 2) % depth, (ip + 2) % depth, c.mem[ip + 1])
  {
    ModUnique(ip + 1, 0, ip + 1, |c.mem|);
    ModAdd(ip + 2, 1, |c.mem|);
  }

  /** Two cycles with `pc` on slot `t` bring that slot into the instruction register. */
  lemma FetchRefills(c: Config, f: Fetch, t: nat)
    requires |c.mem| >= 2 && t < |c.mem| && InRange(c, f) && f.pc == t
    ensures var depth := |c.mem|;
            NextFetch(c, NextFetch(c, f, false, false, false), false, false, false)
            == Fetch((t + 2) % depth, (t + 1) % depth, (t + 1) % depth, c.mem[t])
  {
    ModAdd(t + 1, 1, |c.mem|);
  }

  /** A taken jump on slot `ip`: the fetcher's `pc`, two slots ahead, goes to the target. */
  lemma JumpTarget(c: Config, ip: nat)
    requires |c.mem| >= 2 && ip < |c.mem|
    ensures var depth := |c.mem|; var jump := Decode(c.mem[ip]).jump;
            NextFetch(c, Fetch((ip + 2) % depth, (ip + 1) % depth, (ip + 1) % depth, c.mem[ip]), false, true, false).pc
            == (ip - jump) % depth
  {
    ModAdd(ip + 2, 0 - Decode(c.mem[ip]).jump - PIPELINE_DELAY, |c.mem|);
  }

  lemma SlotTerminates(c: Config, core: Core, ip: nat, loop: nat)
    requires InSlot(c, core, ip, loop)
    ensures core.Terminate() <==> Halts(c, ip, loop)
  {
    var depth := |c.mem|;
    if ip == depth - 1 {
      ModUnique(ip + 2, 1, 1, depth);
    } else if ip + 2 < depth {
      ModUnique(ip + 2, 0, ip + 2, depth);
    } else {
      ModUnique(ip + 2, 1, 0, depth);
    }
  }

  lemma {:induction false} WaitOut(c: Config, s: State, ip: nat, loop: nat, ins: seq<Input>)
    requires Waiting(c, s.core, ip, loop) && |ins| == s.core.idle + 1
    ensures Issued(c, s, ins) == Quiet(|ins|)
    ensures InSlot(c, After(c, s, ins).core, ip, loop)
    ensures Busy(c, s, ins)
    decreases s.core.idle
  {
    var s' := Step(c, s, ins[0]);
    assert s'.core.bus == Inactive && s'.core.fetch == s.core.fetch;
    if s.core.idle == 0 {
      assert ins[1..] == [];
      assert Issued(c, s, ins) == [Inactive] + Issued(c, s', []) == [Inactive];
      assert After(c, s', []) == s';
    } else {
      WaitOut(c, s', ip, loop, ins[1..]);
      assert Quiet(|ins|) == [Inactive] + Quiet(|ins| - 1);
    }
  }

  /** Two bubbles and the fetch they perform. */
  lemma {:induction false} Bubbles(c: Config, s: State, ins: seq<Input>)
    requires |c.mem| >= 2 && InRange(c, s.core.fetch)
    requires s.core.fsm == BUBBLE && s.core.idle == 1 && |ins| == 2
    ensures Issued(c, s, ins) == Quiet(2) && Busy(c, s, ins)
    ensures var core := After(c, s, ins).core;
            && core.fsm == RUN && core.loop == s.core.loop
            && core.fetch == NextFetch(c, NextFetch(c, s.core.fetch, false, false, false), false, false, false)
  {
    var s1 := Step(c, s, ins[0]);
    var s2 := Step(c, s1, ins[1]);
    assert s1.core.fsm == BUBBLE && s1.core.idle == 0 && s1.core.bus == Inactive;
    assert s2.core.fsm == RUN && s2.core.bus == Inactive;
    assert ins == [ins[0]] + [ins[1]] && ins[1..] == [ins[1]] && ins[1..][1..] == [];
    assert After(c, s, ins) == After(c, s1, [ins[1]]) == After(c, s2, []);
    assert Issued(c, s1, [ins[1]]) == [Inactive] + Issued(c, s2, []);
  }

  /** One clock edge in RUN. */
  lemma RunEdge(c: Config, s: State, ip: nat, loop: nat, i: Input)
    requires InSlot(c, s.core, ip, loop)
    ensures var d := Decode(c.mem[ip]); var core := Step(c, s, i).core;
            if Halts(c, ip, loop) then
              core.fsm == READY && core.loop == loop && core.bus == Inactive
            else if d.op == LOOP && d.count != loop then
              && core.fsm == BUBBLE && core.idle == 1 && core.loop == (loop + 1) % 4096 && core.bus == Inactive
              && core.fetch == NextFetch(c, s.core.fetch, false, true, false)
            else if d.op == LOOP then
              InSlot(c, core, ip + 1, 0) && core.bus == Inactive
            else
              && core.bus == Drive(c.geometry, d)
              && if d.timeslice <= 1 then InSlot(c, core, ip + 1, loop)
                 else Waiting(c, core, ip + 1, loop) && core.idle == d.timeslice - 2
  {
    SlotTerminates(c, s.core, ip, loop);
    if !Halts(c, ip, loop) {
      if ip + 1 < |c.mem| {
        FetchAdvances(c, ip);
      }
    }
  }

  lemma Unit(c: Config, s: State, ins: seq<Input>)
    requires |c.mem| >= 2 && InRange(c, s.core.fetch) && |ins| == 1
    ensures After(c, s, ins) == Step(c, s, ins[0])
    ensures Issued(c, s, ins) == [Step(c, s, ins[0]).core.bus]
    ensures Busy(c, s, ins) <==> s.core.Executing()
  {
    var s' := Step(c, s, ins[0]);
    assert ins[1..] == [];
    assert Issued(c, s', []) == [] && After(c, s', []) == s';
  }

  lemma JumpRefines(c: Config, s: State, ip: nat, loop: nat, ins: seq<Input>)
    requires InSlot(c, s.core, ip, loop) && !Halts(c, ip, loop)
    requires Decode(c.mem[ip]).op == LOOP && Decode(c.mem[ip]).count != loop && |ins| == 3
    ensures Issued(c, s, ins) == Quiet(3) && Busy(c, s, ins)
    ensures InSlot(c, After(c, s, ins).core, (ip - Decode(c.mem[ip]).jump) % |c.mem|, (loop + 1) % 4096)
  {
    var s1 := Step(c, s, ins[0]);
    RunEdge(c, s, ip, loop, ins[0]);
    Unit(c, s, ins[..1]);
    assert ins == ins[..1] + ins[1..];
    Compose(c, s, ins[..1], ins[1..]);
    JumpTarget(c, ip);
    FetchRefills(c, s1.core.fetch, (ip - Decode(c.mem[ip]).jump) % |c.mem|);
    Bubbles(c, s1, ins[1..]);
  }

  lemma CommandRefines(c: Config, s: State, ip: nat, loop: nat, ins: seq<Input>)
    requires InSlot(c, s.core, ip, loop) && !Halts(c, ip, loop)
    requires Decode(c.mem[ip]).op != LOOP && |ins| == |CommandTrace(c, Decode(c.mem[ip]))|
    ensures Issued(c, s, ins) == CommandTrace(c, Decode(c.mem[ip])) && Busy(c, s, ins)
    ensures InSlot(c, After(c, s, ins).core, ip + 1, loop)
  {
    var s1 := Step(c, s, ins[0]);
    RunEdge(c, s, ip, loop, ins[0]);
    Unit(c, s, ins[..1]);
    assert ins == ins[..1] + ins[1..];
    Compose(c, s, ins[..1], ins[1..]);
    if Decode(c.mem[ip]).timeslice <= 1 {
      assert After(c, s1, []) == s1 && Issued(c, s1, []) == [];
    } else {
      WaitOut(c, s1, ip + 1, loop, ins[1..]);
    }
  }

  /** Every instruction of the interpreter is matched by exactly its cycles in the pipeline. */
  lemma {:induction false} StepRefines(c: Config, s: State, st: Status, ins: seq<Input>)
    requires |c.mem| >= 2 && InRange(c, s.core.fetch) && Sane(c, st)
    requires st.Running? && Matches(c, s.core, st) && |ins| == |Exec(c, st).1|
    ensures Issued(c, s, ins) == Exec(c, st).1
    ensures Matches(c, After(c, s, ins).core, Exec(c, st).0)
    ensures Busy(c, s, ins)
  {
    var ip, loop, d := st.ip, st.loop, Decode(c.mem[st.ip]);
    if !Halts(c, ip, loop) && d.op == LOOP && d.count != loop {
      JumpRefines(c, s, ip, loop, ins);
    } else if !Halts(c, ip, loop) && d.op != LOOP {
      CommandRefines(c, s, ip, loop, ins);
    } else {
      RunEdge(c, s, ip, loop, ins[0]);
      Unit(c, s, ins);
    }
  }

  /** Whole runs: for any number of instructions the pipeline registers exactly the interpreter's
      bus trace, cycle by cycle, and ends in the matching state. */
  lemma {:induction false} RunRefines(c: Config, s: State, st: Status, n: nat, ins: seq<Input>)
    requires |c.mem| >= 2 && InRange(c, s.core.fetch) && Sane(c, st)
    requires Matches(c, s.core, st) && |ins| == |ExecMany(c, st, n).1|
    ensures Issued(c, s, ins) == ExecMany(c, st, n).1
    ensures Matches(c, After(c, s, ins).core, ExecMany(c, st, n).0)
    ensures Busy(c, s, ins)
    decreases n
  {
    if n > 0 {
      if st.Halted? {
        RunRefines(c, s, st, n - 1, ins);
      } else {
        var first, rest := Exec(c, st), ExecMany(c, Exec(c, st).0, n - 1);
        var k := |first.1|;
        assert ExecMany(c, st, n) == (rest.0, first.1 + rest.1);
        assert ins == ins[..k] + ins[k..];
        StepRefines(c, s, st, ins[..k]);
        RunRefines(c, After(c, s, ins[..k]), first.0, n - 1, ins[k..]);
        Compose(c, s, ins[..k], ins[k..]);
      }
    }
  }

  // ------------------------------------------------------- From reset

  /** What holds in every reachable state of executor and switch together. */
  predicate Inv(c: Config, s: State) {
    && |c.mem| >= 2 && InRange(c, s.core.fetch) && s.core.loop < 4096
    && (s.core.Executing() ==> s.switch.payload && s.switch.wantsDfi)
    && (s.core.fsm == READY ==> !s.switch.wantsDfi)
    && (s.core.fsm == WAIT_DFI ==>
          s.switch.wantsDfi && s.core.fetch.pc == 0 && s.core.fetch.pcOld == 0 && s.core.timers.execStart == 0)
    && (s.core.bus != Inactive ==> s.switch.payload && s.core.fsm in {RUN, IDLE})
  }

  lemma InvStep(c: Config, s: State, i: Input)
    requires Inv(c, s)
    ensures Inv(c, Step(c, s, i))
  {
  }

  /** From any such state, whatever the start pulses, the memory controller and at_refresh do: the executor
      runs only while the switch is in PAYLOAD-EXECUTION and still wanted, and a registered command
      always reaches the DRAM, because `ext_dfi_sel` is high whenever the lines are not idle. */
  lemma {:induction false} Reachable(c: Config, s: State, ins: seq<Input>)
    requires Inv(c, s)
    ensures Inv(c, After(c, s, ins))
    ensures var e := After(c, s, ins);
            e.core.bus != Inactive ==> forall mc :: Master(e, mc) == e.core.bus
    decreases |ins|
  {
    if ins != [] {
      InvStep(c, s, ins[0]);
      Reachable(c, Step(c, s, ins[0]), ins[1..]);
    }
  }

  lemma ResetSatisfies(c: Config)
    requires c.Valid()
    ensures |c.mem| >= 2 && Inv(c, Reset())
  {
    DepthAtLeastTwo(c);
  }

  /** Over every run from reset. */
  lemma ReachableFromReset(c: Config, ins: seq<Input>)
    requires c.Valid()
    ensures |c.mem| >= 2 && Inv(c, Reset()) && Inv(c, After(c, Reset(), ins))
    ensures var e := After(c, Reset(), ins);
            e.core.bus != Inactive ==> forall mc :: Master(e, mc) == e.core.bus
  {
    ResetSatisfies(c);
    Reachable(c, Reset(), ins);
  }

  // ------------------------------------------------------- Before and after a run

  predicate TakesOver(c: Config, s: State, i: Input)
    requires |c.mem| >= 2 && InRange(c, s.core.fetch)
  {
    !s.switch.payload && Step(c, s, i).switch.payload
  }

  /** A start pulse clears the time registers and asks for the bus. */
  lemma Starts(c: Config, s: State, i: Input)
    requires Inv(c, s) && s.core.fsm == READY && i.start
    ensures var s1 := Step(c, s, i);
            && Inv(c, s1) && s1.core.fsm == WAIT_DFI && s1.core.loop == s.core.loop && s1.core.bus == Inactive
            && !s1.switch.payload && s1.switch.wantsDfi && s1.core.timers.execStart == 0 && s1.core.timers.execStop == 0
  {
    InvStep(c, s, i);
  }

  /** The switch takes over from a waiting executor: at once, or with refresh on at a refresh that is the awaited
      one if one is awaited. */
  lemma TakesOverIff(c: Config, s: State, i: Input)
    requires Inv(c, s)
    ensures TakesOver(c, s, i) <==>
            && s.core.fsm == WAIT_DFI && !s.switch.payload
            && (!c.withRefresh || (IsRefresh(i.mc) && (i.atRefresh == 0 || i.atRefresh == s.switch.refreshes + 1)))
  {
  }

  predicate NeverTaken(c: Config, s: State, ins: seq<Input>)
    requires |c.mem| >= 2 && InRange(c, s.core.fetch)
    decreases |ins|
  {
    ins == [] || (!TakesOver(c, s, ins[0]) && NeverTaken(c, Step(c, s, ins[0]), ins[1..]))
  }

  /** Until then the executor waits and the memory controller keeps the bus. */
  lemma {:induction false} StaysWaiting(c: Config, s: State, ins: seq<Input>)
    requires Inv(c, s) && s.core.fsm == WAIT_DFI && !s.switch.payload && NeverTaken(c, s, ins)
    ensures var e := After(c, s, ins);
            && Inv(c, e) && e.core.fsm == WAIT_DFI && !e.switch.payload && e.core.loop == s.core.loop
            && forall mc :: Master(e, mc) == mc
    decreases |ins|
  {
    if ins != [] {
      InvStep(c, s, ins[0]);
      StaysWaiting(c, Step(c, s, ins[0]), ins[1..]);
    }
  }

  lemma RestStep(c: Config, s: State, i: Input)
    requires Inv(c, s) && s.core.fsm == READY && !i.start
    ensures var s1 := Step(c, s, i);
            && Inv(c, s1) && s1.core.fsm == READY && s1.core.loop == s.core.loop && s1.core.bus == Inactive
            && s1.core.timers.execStart == s.core.timers.execStart && s1.core.timers.execStop == s.core.timers.execStop
            && !s1.switch.payload
  {
    InvStep(c, s, i);
  }

  /** A ready executor without a start pulse keeps its time registers and its loop counter for any number of
      cycles, and after one of them the memory controller has the bus again. */
  lemma {:induction false} Rests(c: Config, s: State, ins: seq<Input>)
    requires Inv(c, s) && s.core.fsm == READY && forall i :: i in ins ==> !i.start
    ensures var e := After(c, s, ins);
            && Inv(c, e) && e.core.fsm == READY && e.core.loop == s.core.loop
            && e.core.timers.execStart == s.core.timers.execStart && e.core.timers.execStop == s.core.timers.execStop
            && (ins != [] ==> forall mc :: Master(e, mc) == mc)
    decreases |ins|
  {
    if ins != [] {
      assert ins[0] in ins;
      RestStep(c, s, ins[0]);
      Rests(c, Step(c, s, ins[0]), ins[1..]);
    }
  }

  /** The cycles between the switch handing over and the first instruction. */
  lemma Launch(c: Config, s: State, ins: seq<Input>)
    requires Inv(c, s) && s.core.fsm == WAIT_DFI && s.switch.payload && |ins| == 1 + PIPELINE_DELAY
    ensures Issued(c, s, ins) == Quiet(1 + PIPELINE_DELAY)
    ensures InSlot(c, After(c, s, ins).core, 0, s.core.loop)
    ensures Busy(c, Step(c, s, ins[0]), ins[1..])
  {
    var s1 := Step(c, s, ins[0]);
    assert s1.core.fetch == Fetch(0, 0, 0, s.core.fetch.instruction);
    Unit(c, s, ins[..1]);
    assert ins == ins[..1] + ins[1..];
    Compose(c, s, ins[..1], ins[1..]);
    Bubbles(c, s1, ins[1..]);
    FetchRefills(c, s1.core.fetch, 0);
  }

  /** The processor theorem. From any state reached by any history, with whatever loop counter is
      left over, a launched payload registers PIPELINE_DELAY + 1 idle cycles and then exactly the
      interpreter's trace from slot 0, for every memory content and any number of instructions. */
  lemma LaunchRefines(c: Config, s: State, n: nat, ins: seq<Input>)
    requires Inv(c, s) && s.core.fsm == WAIT_DFI && s.switch.payload
    requires |ins| == 1 + PIPELINE_DELAY + |ExecMany(c, Running(0, s.core.loop), n).1|
    ensures var r := ExecMany(c, Running(0, s.core.loop), n);
            && Issued(c, s, ins) == Quiet(1 + PIPELINE_DELAY) + r.1
            && Matches(c, After(c, s, ins).core, r.0)
            && Busy(c, Step(c, s, ins[0]), ins[1..])
  {
    var k := 1 + PIPELINE_DELAY;
    var s1, s3 := Step(c, s, ins[0]), After(c, s, ins[..k]);
    assert ins == ins[..k] + ins[k..] && ins[1..] == ins[1..k] + ins[k..] && ins[..k][1..] == ins[1..k];
    Launch(c, s, ins[..k]);
    Compose(c, s, ins[..k], ins[k..]);
    RunRefines(c, s3, Running(0, s.core.loop), n, ins[k..]);
    assert ins[..k] == ins[..1] + ins[1..k];
    Unit(c, s, ins[..1]);
    Compose(c, s, ins[..1], ins[1..k]);
    Compose(c, s1, ins[1..k], ins[k..]);
  }

  /** At every cycle, not only at instruction boundaries, what has been registered is a prefix of
      the interpreter's trace, as long as the program has not halted. */
  lemma {:induction false} EveryCycle(c: Config, s: State, st: Status, ins: seq<Input>)
    requires |c.mem| >= 2 && InRange(c, s.core.fetch) && Sane(c, st)
    requires Matches(c, s.core, st) && ExecMany(c, st, |ins|).0.Running?
    ensures |ins| <= |ExecMany(c, st, |ins|).1|
    ensures Issued(c, s, ins) == ExecMany(c, st, |ins|).1[..|ins|]
  {
    var trace := ExecMany(c, st, |ins|).1;
    TraceGrows(c, st, |ins|);
    var padding := seq(|trace| - |ins|, _ => Input(false, Inactive, 0));
    RunRefines(c, s, st, |ins|, ins + padding);
    Compose(c, s, ins, padding);
  }

  lemma {:induction false} TraceGrows(c: Config, st: Status, n: nat)
    requires |c.mem| >= 2 && Sane(c, st) && ExecMany(c, st, n).0.Running?
    ensures |ExecMany(c, st, n).1| >= n
    decreases n
  {
    if n > 0 {
      if st.Halted? {
        HaltedStays(c, st, n);
        assert false;
      } else {
        TraceGrows(c, Exec(c, st).0, n - 1);
      }
    }
  }

  lemma {:induction false} HaltedStays(c: Config, st: Status, n: nat)
    requires |c.mem| >= 2 && Sane(c, st) && st.Halted?
    ensures ExecMany(c, st, n).0 == st
    decreases n
  {
    if n > 0 {
      HaltedStays(c, st, n - 1);
    }
  }

  // ------------------------------------------------------- Execution time

  predicate Timed(s: State, t0: nat) {
    s.core.timers.execStart == t0 && s.core.timers.execStop == s.core.timers.cycle
  }

  lemma StepTimed(c: Config, s: State, t0: nat, i: Input)
    requires |c.mem| >= 2 && InRange(c, s.core.fetch) && s.core.Executing() && !i.start
    requires 0 < t0 && Timed(s, t0) && s.core.timers.cycle + 1 < WIDE
    ensures Timed(Step(c, s, i), t0) && Step(c, s, i).core.timers.cycle == s.core.timers.cycle + 1
  {
  }

  lemma {:induction false} BusyTimed(c: Config, s: State, t0: nat, ins: seq<Input>)
    requires |c.mem| >= 2 && InRange(c, s.core.fetch) && Busy(c, s, ins)
    requires 0 < t0 && Timed(s, t0)
    requires s.core.timers.cycle + |ins| < WIDE
    requires forall i :: i in ins ==> !i.start
    ensures Timed(After(c, s, ins), t0)
    ensures After(c, s, ins).core.timers.cycle == s.core.timers.cycle + |ins|
    decreases |ins|
  {
    if ins != [] {
      assert ins[0] in ins;
      StepTimed(c, s, t0, ins[0]);
      BusyTimed(c, Step(c, s, ins[0]), t0, ins[1..]);
    }
  }

  /** The first two cycles set `exec_start`. */
  lemma StartTimed(c: Config, s: State, a: Input, b: Input)
    requires Inv(c, s) && s.core.fsm == WAIT_DFI && s.switch.payload && !a.start && !b.start
    requires Step(c, s, a).core.Executing() && s.core.timers.cycle + 2 < WIDE
    ensures var s2 := Step(c, Step(c, s, a), b);
            Timed(s2, s.core.timers.cycle + 1) && s2.core.timers.cycle == s.core.timers.cycle + 2
  {
  }

  /** A run of the executor from the handover on, timed by its registers. */
  lemma TimedRun(c: Config, s: State, ins: seq<Input>)
    requires Inv(c, s) && s.core.fsm == WAIT_DFI && s.switch.payload && |ins| >= 2
    requires Busy(c, Step(c, s, ins[0]), ins[1..])
    requires forall i :: i in ins ==> !i.start
    requires s.core.timers.cycle + |ins| < WIDE
    ensures var t := After(c, s, ins).core.timers; t.execStop - t.execStart == |ins| - 1
  {
    var s1, s2 := Step(c, s, ins[0]), Step(c, Step(c, s, ins[0]), ins[1]);
    assert ins[0] in ins && ins[1] in ins;
    assert ins[1..][0] == ins[1] && ins[1..][1..] == ins[2..];
    assert After(c, s, ins) == After(c, s1, ins[1..]) == After(c, s2, ins[2..]);
    StartTimed(c, s, ins[0], ins[1]);
    BusyTimed(c, s2, s.core.timers.cycle + 1, ins[2..]);
  }

  /** With the start pulse low during the run and the 64-bit cycle counter short of wrapping, the
      two status registers differ by exactly the pipeline fill plus the interpreter's cycles. */
  lemma ExecutionTime(c: Config, s: State, n: nat, ins: seq<Input>)
    requires Inv(c, s) && s.core.fsm == WAIT_DFI && s.switch.payload
    requires |ins| == 1 + PIPELINE_DELAY + |ExecMany(c, Running(0, s.core.loop), n).1|
    requires forall i :: i in ins ==> !i.start
    requires s.core.timers.cycle + |ins| < WIDE
    ensures var t := After(c, s, ins).core.timers;
            t.execStop - t.execStart == PIPELINE_DELAY + |ExecMany(c, Running(0, s.core.loop), n).1|
  {
    LaunchRefines(c, s, n, ins);
    TimedRun(c, s, ins);
  }

  // ------------------------------------------------------- Handover

  /** Until its first command the executor finds the refresh counter at at_refresh. */
  predicate Synced(c: Config, s: State, atRefresh: nat) {
    Inv(c, s) && (s.core.fsm == WAIT_DFI && s.switch.payload ==> s.switch.refreshes == atRefresh)
  }

  /** With refresh on and a nonzero at_refresh held, in every run the switch hands over only on a
      REF of the memory controller, and the executor starts with the counter at at_refresh. */
  lemma {:induction false} HandoverAtRefresh(c: Config, s: State, atRefresh: nat, ins: seq<Input>)
    requires c.withRefresh && 0 < atRefresh < WIDE && Synced(c, s, atRefresh)
    requires forall i :: i in ins ==> i.atRefresh == atRefresh
    ensures Synced(c, After(c, s, ins), atRefresh)
    ensures forall k :: 0 <= k < |ins| && TakesOver(c, After(c, s, ins[..k]), ins[k]) ==>
              IsRefresh(ins[k].mc) && Step(c, After(c, s, ins[..k]), ins[k]).switch.refreshes == atRefresh
    decreases |ins|
  {
    if ins != [] {
      assert ins[0] in ins;
      var s1 := Step(c, s, ins[0]);
      InvStep(c, s, ins[0]);
      HandoverAtRefresh(c, s1, atRefresh, ins[1..]);
      forall k | 0 <= k < |ins| && TakesOver(c, After(c, s, ins[..k]), ins[k])
        ensures IsRefresh(ins[k].mc) && Step(c, After(c, s, ins[..k]), ins[k]).switch.refreshes == atRefresh
      {
        if k > 0 {
          assert ins[..k][1..] == ins[1..][..k - 1] && ins[k] == ins[1..][k - 1];
        }
      }
    }
  }

  /** The lines the DRAM sees in each cycle, from whichever side is connected. */
  function MasterTrace(c: Config, s: State, ins: seq<Input>): seq<Bus>
    requires |c.mem| >= 2 && InRange(c, s.core.fetch)
    decreases |ins|
  {
    if ins == [] then [] else [Master(s, ins[0].mc)] + MasterTrace(c, Step(c, s, ins[0]), ins[1..])
  }

  function Refreshes(bs: seq<Bus>): nat {
    if bs == [] then 0 else (if IsRefresh(bs[0]) then 1 else 0) + Refreshes(bs[1..])
  }

  lemma StepCounts(c: Config, s: State, i: Input)
    requires |c.mem| >= 2 && InRange(c, s.core.fetch)
    ensures Step(c, s, i).switch.refreshes ==
            if IsRefresh(Master(s, i.mc)) then (s.switch.refreshes + 1) % WIDE else s.switch.refreshes
  {
  }

  lemma SumWraps(a: nat, b: nat)
    ensures ((a + 1) % WIDE + b) % WIDE == (a + (1 + b)) % WIDE
  {
  }

  /** The refresh counter counts the refreshes of both masters, modulo its 64 bits. */
  lemma {:induction false} RefreshCount(c: Config, s: State, ins: seq<Input>)
    requires |c.mem| >= 2 && InRange(c, s.core.fetch) && s.switch.refreshes < WIDE
    ensures After(c, s, ins).switch.refreshes == (s.switch.refreshes + Refreshes(MasterTrace(c, s, ins))) % WIDE
    decreases |ins|
  {
    if ins != [] {
      var s1, rest := Step(c, s, ins[0]), MasterTrace(c, Step(c, s, ins[0]), ins[1..]);
      StepCounts(c, s, ins[0]);
      RefreshCount(c, s1, ins[1..]);
      assert MasterTrace(c, s, ins) == [Master(s, ins[0].mc)] + rest;
      RefreshesOne(Master(s, ins[0].mc), rest);
      SumWraps(s.switch.refreshes, Refreshes(rest));
    }
  }

  lemma RefreshesOne(b: Bus, rest: seq<Bus>)
    ensures Refreshes([b] + rest) == (if IsRefresh(b) then 1 else 0) + Refreshes(rest)
  {
    assert ([b] + rest)[1..] == rest;
  }
}
