/** Whole runs of the DMA reader: which reads it asks for, and which errors it counts and shows. */
module ReaderRuns {
  import opened Wrappers
  import opened Pattern
  import opened BistReader

  /** What an observer writes down: the requests and answers since the last start, the errors found since
      reset and before the last start, and the errors the host has acknowledged. */
  datatype Log = Log(asked: seq<nat>, answers: seq<int>, before: seq<Report>, found: seq<Report>, shown: seq<Report>)

  function Nothing(): Log { Log([], [], [], [], []) }

  function NextLog(s: State, l: Log, i: Input): Log {
    var started := s.comparer.fsm == READY && i.start;
    var asked, answers, before := if started then [] else l.asked, if started then [] else l.answers,
                                  if started then l.found else l.before;
    Log(if Requests(s.asker, i) then asked + [s.asker.dramAddr] else asked,
        if Takes(s.comparer, i) then answers + [i.data] else answers,
        before,
        if Takes(s.comparer, i) && Differs(s.comparer, i)
        then l.found + [Report(Head(s, i), i.data, s.comparer.pipe.data)] else l.found,
        if Acknowledges(s.shower, i) then l.shown + [s.shower.report] else l.shown)
  }

  function Held(e: Shower): seq<Report> { if e.valid then [e.report] else [] }
  function Waiting(p: Comparer): seq<Report> { if p.fsm == WR_ERR then [p.found] else [] }

  /** Errors on their way to the host: held in the register, queued, and waiting to be queued. */
  function Backlog(s: State): seq<Report> { Held(s.shower) + s.errors + Waiting(s.comparer) }

  /** The errors found are those shown and those on their way, in order. */
  predicate Conserved(s: State, l: Log) { l.found == l.shown + Backlog(s) }

  /** The error FSM moves reports from the queue to the host. */
  lemma ShowerMoves(e: Shower, errors: seq<Report>, i: Input)
    requires (i.errorValid ==> errors != []) && !i.skip
    ensures var acknowledged := if Acknowledges(e, i) then [e.report] else [];
            var left := if Pops(e, i) then Tail(errors) else errors;
            Held(e) + errors == acknowledged + Held(NextShower(e, errors, i)) + left
  {
    if Pops(e, i) {
      assert errors == [errors[0]] + errors[1..];
    }
  }

  /** The pattern FSM moves them from the comparison to the queue. */
  lemma ComparerMoves(w: Widths, c: Setup, p: Comparer, head: nat, i: Input)
    requires Valid(w, c) && p.memAddr < |c.words| && !i.skip
    ensures var added := if Takes(p, i) && Differs(p, i) then [Report(head, i.data, p.pipe.data)] else [];
            var queued := if Reports(p, i) then [p.found] else [];
            Waiting(p) + added == queued + Waiting(NextComparer(w, c, p, head, i))
  {
  }

  lemma Regroup<T>(shown: seq<T>, held: seq<T>, errors: seq<T>, waiting: seq<T>, added: seq<T>,
                   acknowledged: seq<T>, held': seq<T>, left: seq<T>, queued: seq<T>, waiting': seq<T>)
    requires held + errors == acknowledged + held' + left && waiting + added == queued + waiting'
    ensures (shown + (held + errors + waiting)) + added == (shown + acknowledged) + (held' + (left + queued) + waiting')
  {
    assert (shown + (held + errors + waiting)) + added == shown + (held + errors) + (waiting + added);
    assert (shown + acknowledged) + (held' + (left + queued) + waiting')
        == shown + (acknowledged + held' + left) + (queued + waiting');
  }

  /** No error is lost, duplicated or overtaken while `skip` is low. */
  lemma StepConserves(w: Widths, c: Setup, s: State, l: Log, i: Input)
    requires Valid(w, c) && InRange(w, c, s) && Fair(s, i) && Conserved(s, l) && !i.skip
    ensures Conserved(Step(w, c, s, i), NextLog(s, l, i))
  {
    var s', l' := Step(w, c, s, i), NextLog(s, l, i);
    var added := if Takes(s.comparer, i) && Differs(s.comparer, i)
                 then [Report(Head(s, i), i.data, s.comparer.pipe.data)] else [];
    var acknowledged := if Acknowledges(s.shower, i) then [s.shower.report] else [];
    var left := if Pops(s.shower, i) then Tail(s.errors) else s.errors;
    var queued := if Reports(s.comparer, i) then [s.comparer.found] else [];
    ShowerMoves(s.shower, s.errors, i);
    ComparerMoves(w, c, s.comparer, Head(s, i), i);
    Regroup(l.shown, Held(s.shower), s.errors, Waiting(s.comparer), added,
            acknowledged, Held(s'.shower), left, queued, Waiting(s'.comparer));
    assert l'.found == l.found + added && l'.shown == l.shown + acknowledged;
  }

  // ------------------------------------------------------- What is found

  /** The log of the current transfer: requests and answers so far, and the mismatches among them. */
  predicate LogInv(w: Widths, c: Setup, s: State, l: Log)
    requires Valid(w, c)
  {
    && |l.before| <= |l.found| && s.comparer.errorCount == |l.found| - |l.before|
    && (s.comparer.fsm != READY ==>
          && l.asked == Addresses(w, c, 0, s.asker.counter) && |l.answers| == s.comparer.counter
          && l.found == l.before + Mismatches(w, c, l.answers))
  }

  lemma AskedStep(w: Widths, c: Setup, asked: seq<nat>, n: nat)
    requires Valid(w, c) && asked == Addresses(w, c, 0, n)
    ensures asked + [AddressOf(w, c, n)] == Addresses(w, c, 0, n + 1)
  {
  }

  lemma AnswerStep(w: Widths, c: Setup, answers: seq<int>, data: int)
    requires Valid(w, c)
    ensures Mismatches(w, c, answers + [data]) == Mismatches(w, c, answers) + Mismatch(w, c, |answers|, data)
  {
    assert (answers + [data])[..|answers|] == answers;
  }

  /** In RD_DATA the inverter has settled: the read is compared with the word of the pattern. */
  lemma ComparesExpected(w: Widths, c: Setup, s: State, i: Input)
    requires Valid(w, c) && Inv(w, c, s) && s.comparer.fsm == RD_DATA
    ensures Head(s, i) == AddressOf(w, c, s.comparer.counter)
    ensures s.comparer.pipe.data == Expected(w, c, s.comparer.counter)
  {
    assert s.addresses[0] == AddressOf(w, c, s.comparer.counter + 0);
  }

  function Mismatch(w: Widths, c: Setup, k: nat, data: int): seq<Report>
    requires Valid(w, c)
  {
    if data != Expected(w, c, k) then [Report(AddressOf(w, c, k), data, Expected(w, c, k))] else []
  }

  lemma LogsMismatch(w: Widths, c: Setup, s: State, l: Log, i: Input)
    requires Valid(w, c) && Inv(w, c, s) && Takes(s.comparer, i)
    ensures s.comparer.counter < c.count && (Differs(s.comparer, i) <==> Mismatch(w, c, s.comparer.counter, i.data) != [])
    ensures var l' := NextLog(s, l, i);
            && l'.before == l.before && l'.answers == l.answers + [i.data]
            && l'.found == l.found + Mismatch(w, c, s.comparer.counter, i.data)
  {
    ComparesExpected(w, c, s, i);
  }

  lemma StepAsks(w: Widths, c: Setup, s: State, l: Log, i: Input)
    requires Valid(w, c) && Inv(w, c, s) && Fair(s, i) && s.comparer.fsm != READY
    requires l.asked == Addresses(w, c, 0, s.asker.counter)
    ensures NextLog(s, l, i).asked == Addresses(w, c, 0, NextAsker(w, c, s.asker, i).counter)
  {
    AskerStep(w, c, s.asker, i);
    if Requests(s.asker, i) {
      AskedStep(w, c, l.asked, s.asker.counter);
    }
  }

  lemma ErrorCountStep(w: Widths, c: Setup, p: Comparer, head: nat, i: Input)
    requires Valid(w, c) && p.memAddr < |c.words| && p.fsm != READY && p.errorCount < c.count
    ensures NextComparer(w, c, p, head, i).errorCount ==
            p.errorCount + if Takes(p, i) && Differs(p, i) then 1 else 0
  {
  }

  lemma StepFinds(w: Widths, c: Setup, s: State, l: Log, i: Input)
    requires Valid(w, c) && Inv(w, c, s) && Fair(s, i) && s.comparer.fsm != READY
    requires |l.answers| == s.comparer.counter && l.found == l.before + Mismatches(w, c, l.answers)
    requires s.comparer.errorCount == |l.found| - |l.before|
    ensures var l', p' := NextLog(s, l, i), NextComparer(w, c, s.comparer, Head(s, i), i);
            && l'.before == l.before && |l'.answers| == p'.counter
            && l'.found == l'.before + Mismatches(w, c, l'.answers)
            && p'.errorCount == |l'.found| - |l'.before|
  {
    CompareStep(w, c, s, i);
    if Takes(s.comparer, i) {
      ErrorCountStep(w, c, s.comparer, Head(s, i), i);
      LogsMismatch(w, c, s, l, i);
      AnswerStep(w, c, l.answers, i.data);
      Associate(l.before, Mismatches(w, c, l.answers), Mismatch(w, c, s.comparer.counter, i.data));
    }
  }

  /** The log keeps its meaning; a transfer that ends has asked for and compared exactly `count` reads. */
  lemma StepLogs(w: Widths, c: Setup, s: State, l: Log, i: Input)
    requires Valid(w, c) && Inv(w, c, s) && Fair(s, i) && LogInv(w, c, s, l)
    ensures LogInv(w, c, Step(w, c, s, i), NextLog(s, l, i))
    ensures s.comparer.fsm != READY && Step(w, c, s, i).comparer.fsm == READY ==> Complete(w, c, NextLog(s, l, i))
  {
    if s.comparer.fsm != READY {
      StepAsks(w, c, s, l, i);
      StepFinds(w, c, s, l, i);
    }
  }

  predicate Complete(w: Widths, c: Setup, l: Log)
    requires Valid(w, c)
  {
    && l.asked == Addresses(w, c, 0, c.count) && |l.answers| == c.count
    && l.found == l.before + Mismatches(w, c, l.answers)
  }

  // ------------------------------------------------------- Reachable states

  /** A cycle: the CSRs of the transfer, and the inputs. */
  datatype Cycle = Cycle(setup: Setup, input: Input)

  /** The CSRs change only while `ready` is high; `c` are those of the cycle before. */
  predicate Admissible(w: Widths, c: Setup, s: State, run: seq<Cycle>)
    requires Valid(w, c) && InRange(w, c, s)
    decreases |run|
  {
    run == [] ||
    (var c', i := run[0].setup, run[0].input;
     && Valid(w, c') && (s.comparer.fsm != READY ==> c' == c) && Fair(s, i)
     && Admissible(w, c', Step(w, c', s, i), run[1..]))
  }

  /** The state, the log and the CSRs after a run. */
  function Reach(w: Widths, c: Setup, s: State, l: Log, run: seq<Cycle>): (r: (Setup, State, Log))
    requires Valid(w, c) && InRange(w, c, s) && Admissible(w, c, s, run)
    ensures Valid(w, r.0) && InRange(w, r.0, r.1)
    decreases |run|
  {
    if run == [] then (c, s, l)
    else
      var c', i := run[0].setup, run[0].input;
      Reach(w, c', Step(w, c', s, i), NextLog(s, l, i), run[1..])
  }

  predicate SkipLow(run: seq<Cycle>) { forall k :: 0 <= k < |run| ==> !run[k].input.skip }

  /** One cycle, with CSRs that may have changed if the reader was idle. */
  lemma CycleKeeps(w: Widths, c: Setup, c': Setup, s: State, l: Log, i: Input)
    requires Valid(w, c) && Valid(w, c') && Inv(w, c, s) && LogInv(w, c, s, l) && (s.comparer.fsm != READY ==> c' == c)
    requires Fair(s, i)
    ensures Inv(w, c', Step(w, c', s, i)) && LogInv(w, c', Step(w, c', s, i), NextLog(s, l, i))
    ensures Conserved(s, l) && !i.skip ==> Conserved(Step(w, c', s, i), NextLog(s, l, i))
  {
    NewSetup(w, c, c', s, l);
    StepKeeps(w, c', s, i);
    StepLogs(w, c', s, l, i);
    if Conserved(s, l) && !i.skip {
      StepConserves(w, c', s, l, i);
    }
  }

  lemma {:induction false} ReachKeeps(w: Widths, c: Setup, s: State, l: Log, run: seq<Cycle>)
    requires Valid(w, c) && Inv(w, c, s) && LogInv(w, c, s, l) && Admissible(w, c, s, run)
    ensures var (c', s', l') := Reach(w, c, s, l, run); Inv(w, c', s') && LogInv(w, c', s', l')
    ensures var (_, s', l') := Reach(w, c, s, l, run); Conserved(s, l) && SkipLow(run) ==> Conserved(s', l')
    decreases |run|
  {
    if run != [] {
      var c', i := run[0].setup, run[0].input;
      CycleKeeps(w, c, c', s, l, i);
      ReachKeeps(w, c', Step(w, c', s, i), NextLog(s, l, i), run[1..]);
    }
  }

  /** An idle reader does not care about the CSRs. */
  lemma NewSetup(w: Widths, c: Setup, c': Setup, s: State, l: Log)
    requires Valid(w, c) && Valid(w, c') && Inv(w, c, s) && LogInv(w, c, s, l) && (s.comparer.fsm != READY ==> c' == c)
    ensures Inv(w, c', s) && LogInv(w, c', s, l)
  {
  }

  /** `ready` means that the address FSM is idle and nothing is queued or in flight; otherwise the FIFO
      level is the difference of the counters, and its head is the address of the oldest read in flight. */
  predicate Safe(w: Widths, c: Setup, s: State)
    requires Valid(w, c)
  {
    var a, p := s.asker, s.comparer;
    && |s.addresses| <= FIFO_DEPTH
    && if p.fsm == READY then a.fsm == A_READY && s.addresses == [] && s.flight == []
       else
         && p.counter <= a.counter <= c.count
         && |s.addresses| == a.counter - p.counter + (if a.fsm == PUSH_TO_DMA then 1 else 0)
         && |s.flight| == a.counter - p.counter && s.flight <= s.addresses
         && (s.addresses != [] ==> s.addresses[0] == AddressOf(w, c, p.counter))
  }

  lemma InvIsSafe(w: Widths, c: Setup, s: State)
    requires Valid(w, c) && Inv(w, c, s)
    ensures Safe(w, c, s)
  {
    if s.comparer.fsm != READY {
      var first := s.comparer.counter;
      forall k | 0 <= k < |s.addresses|
        ensures s.addresses[k] == AddressOf(w, c, first + k)
      {
        assert Addresses(w, c, first, |s.addresses|)[k] == AddressOf(w, c, first + k);
      }
      forall k | 0 <= k < |s.flight|
        ensures s.flight[k] == s.addresses[k]
      {
        assert Addresses(w, c, first, |s.flight|)[k] == AddressOf(w, c, first + k);
      }
    }
  }

  /** In every reachable state, over any number of transfers and for any DMA latency. */
  lemma ReaderSafe(w: Widths, c: Setup, run: seq<Cycle>)
    requires Valid(w, c) && Admissible(w, c, Reset(), run)
    ensures var (c', s, l) := Reach(w, c, Reset(), Nothing(), run); Safe(w, c', s)
  {
    ReachKeeps(w, c, Reset(), Nothing(), run);
    var (c', s, l) := Reach(w, c, Reset(), Nothing(), run);
    InvIsSafe(w, c', s);
  }

  /** In every reachable state the error count is that of the errors found since the last start, which are
      the mismatching reads; while
      `skip` stays low, every error found since reset is either acknowledged, held, queued or waiting, in
      this order and once. */
  lemma ErrorsConserved(w: Widths, c: Setup, run: seq<Cycle>)
    requires Valid(w, c) && Admissible(w, c, Reset(), run)
    ensures var (c', s, l) := Reach(w, c, Reset(), Nothing(), run);
            && s.comparer.errorCount == |l.found| - |l.before|
            && (s.comparer.fsm != READY ==>
                  l.found == l.before + Mismatches(w, c', l.answers)
                  && s.comparer.errorCount == |Mismatches(w, c', l.answers)|)
            && (SkipLow(run) ==>
                  && l.found == l.shown + Held(s.shower) + s.errors + Waiting(s.comparer)
                  && |l.before| + s.comparer.errorCount ==
                     |l.shown| + |Held(s.shower)| + |s.errors| + |Waiting(s.comparer)|)
  {
    ReachKeeps(w, c, Reset(), Nothing(), run);
    var (c', s, l) := Reach(w, c, Reset(), Nothing(), run);
    if SkipLow(run) {
      Associate(l.shown, Held(s.shower), s.errors);
      Associate(l.shown, Held(s.shower) + s.errors, Waiting(s.comparer));
    }
  }

  // ------------------------------------------------------- Progress

  /** Nobody outside keeps the reader waiting longer than the queues force them to. */
  predicate Responsive(s: State, i: Input) {
    && (|s.addresses| < FIFO_DEPTH ==> i.fifoReady) && (s.addresses != [] ==> i.fifoValid)
    && i.requestReady && (s.flight != [] ==> i.dataValid) && (i.errorReady || i.skip)
  }

  function AskerWork(c: Setup, a: Asker): int {
    var left := 5 * (c.count - a.counter);
    match a.fsm
    case A_READY => 0
    case A_COMPUTE_MEM_ADDR => left + 1
    case A_WAIT_FOR_DRAM_ADDR => left
    case A_COMPUTE_DRAM_ADDR => left - 1
    case PUSH_TO_FIFO => left - 2
    case PUSH_TO_DMA => left - 3
  }

  function ComparerWork(c: Setup, p: Comparer): int {
    var left := 7 * (c.count - p.counter);
    match p.fsm
    case READY => 0
    case COMPUTE_MEM_ADDR => left + 1
    case WAIT_FOR_DRAM_ADDR => left
    case INVERT_COMPUTE => left - 1 - p.waitCounter
    case RD_DATA => left - 4
    case WR_ERR => left + 2
  }

  function Work(c: Setup, s: State): int { AskerWork(c, s.asker) + ComparerWork(c, s.comparer) }

  lemma AskerWorks(w: Widths, c: Setup, s: State, i: Input)
    requires Valid(w, c) && Inv(w, c, s) && s.comparer.fsm != READY && Fair(s, i)
    ensures AskerWork(c, NextAsker(w, c, s.asker, i)) <= AskerWork(c, s.asker)
    ensures Responsive(s, i) && s.asker.fsm != A_READY && !(s.asker.fsm == PUSH_TO_FIFO && |s.addresses| == FIFO_DEPTH) ==>
              AskerWork(c, NextAsker(w, c, s.asker, i)) < AskerWork(c, s.asker)
    ensures AskerWork(c, s.asker) >= 0
  {
    AskerStep(w, c, s.asker, i);
  }

  predicate Starved(s: State) {
    || (s.comparer.fsm == WAIT_FOR_DRAM_ADDR && s.addresses == [])
    || (s.comparer.fsm == RD_DATA && s.flight == [])
  }

  lemma ComparerMovesOn(w: Widths, c: Setup, p: Comparer, head: nat, i: Input)
    requires Valid(w, c) && p.memAddr < |c.words| && p.fsm != READY && p.counter <= c.count
    requires p.fsm in {WAIT_FOR_DRAM_ADDR, INVERT_COMPUTE, RD_DATA} ==> p.counter < c.count
    requires p.fsm == INVERT_COMPUTE ==> p.waitCounter <= 2
    ensures ComparerWork(c, p) > 0
    ensures var waits := (p.fsm == WAIT_FOR_DRAM_ADDR && !i.fifoValid) || (p.fsm == RD_DATA && !i.dataValid)
                         || (p.fsm == WR_ERR && !i.errorReady && !i.skip);
            ComparerWork(c, NextComparer(w, c, p, head, i)) <= ComparerWork(c, p) - if waits then 0 else 1
  {
  }

  lemma ComparerWorks(w: Widths, c: Setup, s: State, i: Input)
    requires Valid(w, c) && Inv(w, c, s) && s.comparer.fsm != READY && Fair(s, i)
    ensures var p' := NextComparer(w, c, s.comparer, Head(s, i), i);
            && ComparerWork(c, p') <= ComparerWork(c, s.comparer)
            && (Responsive(s, i) && !Starved(s) ==> ComparerWork(c, p') < ComparerWork(c, s.comparer))
    ensures ComparerWork(c, s.comparer) > 0
  {
    ComparerMovesOn(w, c, s.comparer, Head(s, i), i);
  }

  /** The FSMs never wait for each other in a circle. */
  lemma WorkStep(w: Widths, c: Setup, s: State, i: Input)
    requires Valid(w, c) && Inv(w, c, s) && s.comparer.fsm != READY && Fair(s, i)
    ensures Work(c, Step(w, c, s, i)) <= Work(c, s) - (if Responsive(s, i) then 1 else 0)
    ensures Work(c, s) > 0
  {
    AskerWorks(w, c, s, i);
    ComparerWorks(w, c, s, i);
  }

  /** `ready` is low in all these cycles. */
  predicate Busy(w: Widths, c: Setup, s: State, ins: seq<Input>)
    requires Valid(w, c) && InRange(w, c, s)
    decreases |ins|
  {
    ins == [] || (s.comparer.fsm != READY && Fair(s, ins[0]) && Busy(w, c, Step(w, c, s, ins[0]), ins[1..]))
  }

  function Delays(w: Widths, c: Setup, s: State, ins: seq<Input>): nat
    requires Valid(w, c) && InRange(w, c, s) && Busy(w, c, s, ins)
    decreases |ins|
  {
    if ins == [] then 0
    else (if Responsive(s, ins[0]) then 0 else 1) + Delays(w, c, Step(w, c, s, ins[0]), ins[1..])
  }

  function LogAfter(w: Widths, c: Setup, s: State, l: Log, ins: seq<Input>): (State, Log)
    requires Valid(w, c) && InRange(w, c, s) && Busy(w, c, s, ins)
    decreases |ins|
  {
    if ins == [] then (s, l) else LogAfter(w, c, Step(w, c, s, ins[0]), NextLog(s, l, ins[0]), ins[1..])
  }

  lemma {:induction false} BusyKeeps(w: Widths, c: Setup, s: State, l: Log, ins: seq<Input>)
    requires Valid(w, c) && Inv(w, c, s) && LogInv(w, c, s, l) && Busy(w, c, s, ins)
    requires s.comparer.fsm == READY ==> Complete(w, c, l)
    ensures ins != [] ==> |ins| <= Work(c, s) + Delays(w, c, s, ins)
    ensures LogAfter(w, c, s, l, ins).0.comparer.fsm == READY ==> Complete(w, c, LogAfter(w, c, s, l, ins).1)
    decreases |ins|
  {
    if ins != [] {
      var i := ins[0];
      StepKeeps(w, c, s, i);
      StepLogs(w, c, s, l, i);
      WorkStep(w, c, s, i);
      BusyKeeps(w, c, Step(w, c, s, i), NextLog(s, l, i), ins[1..]);
    }
  }

  /** A transfer ends: after a start the reader is busy for at most twelve cycles a read, two more, and the
      cycles in which somebody outside keeps it waiting; then it has asked for exactly the addresses of the
      pattern in order, and reported exactly the mismatches. */
  lemma ReaderEnds(w: Widths, c: Setup, s: State, l: Log, start: Input, ins: seq<Input>)
    requires Valid(w, c) && Inv(w, c, s) && LogInv(w, c, s, l) && Fair(s, start) && start.start
    requires Busy(w, c, Step(w, c, s, start), ins)
    ensures var s', l' := Step(w, c, s, start), NextLog(s, l, start);
            && |ins| <= 12 * c.count + 2 + Delays(w, c, s', ins)
            && (LogAfter(w, c, s', l', ins).0.comparer.fsm == READY ==> Complete(w, c, LogAfter(w, c, s', l', ins).1))
  {
    StepKeeps(w, c, s, start);
    StepLogs(w, c, s, l, start);
    BusyKeeps(w, c, Step(w, c, s, start), NextLog(s, l, start), ins);
  }
}
