/** The DMA reader: three FSMs that run concurrently and communicate through two FIFOs and a DMA of
    arbitrary latency. */
module BistReader {
  import opened Bits
  import opened Pattern

  datatype AddressFsm = A_READY | A_COMPUTE_MEM_ADDR | A_WAIT_FOR_DRAM_ADDR | A_COMPUTE_DRAM_ADDR
                      | PUSH_TO_FIFO | PUSH_TO_DMA

  datatype PatternFsm = READY | COMPUTE_MEM_ADDR | WAIT_FOR_DRAM_ADDR | INVERT_COMPUTE | RD_DATA | WR_ERR

  const FIFO_DEPTH: nat := 4

  /** The registers of the address FSM, with the output register of the address memory. */
  datatype Asker = Asker(fsm: AddressFsm, counter: nat, memAddr: nat, dramAddr: nat, addressRead: nat)

  /** What is shown of a mismatching read. */
  datatype Report = Report(offset: nat, data: int, expected: int)

  /** The registers of the pattern FSM, with the output register of the data memory. */
  datatype Comparer = Comparer(fsm: PatternFsm, counter: nat, memAddr: nat, waitCounter: nat, wordRead: nat,
                               pipe: Pipe, errorCount: nat, found: Report)

  /** The error register shown to the host, and its FSM: VALID or INVALID. */
  datatype Shower = Shower(valid: bool, report: Report)

  /** `flight` are the addresses of the reads that the DMA has taken and not yet answered. */
  datatype State = State(asker: Asker, comparer: Comparer, shower: Shower,
                         addresses: seq<nat>, flight: seq<nat>, errors: seq<Report>)

  /** Inputs of a cycle: the host's lines, and the handshakes of the queues and the DMA. `idle` is what an
      empty address FIFO happens to show. */
  datatype Input = Input(start: bool, skip: bool, acknowledge: bool, fifoReady: bool, fifoValid: bool, idle: nat,
                         requestReady: bool, dataValid: bool, data: int, errorReady: bool, errorValid: bool)

  function Reset(): State {
    var none := Report(0, 0, 0);
    State(Asker(A_READY, 0, 0, 0, 0), Comparer(READY, 0, 0, 0, 0, Pipe(0, false, 0), 0, none), Shower(false, none),
          [], [], [])
  }

  /** A transfer is started only when `ready` is high; queues take an item only when they have room, show
      one only when they hold one; the DMA answers only reads taken in an earlier cycle. */
  predicate Fair(s: State, i: Input) {
    && (i.start ==> s.comparer.fsm == READY)
    && (i.fifoReady ==> |s.addresses| < FIFO_DEPTH) && (i.fifoValid ==> s.addresses != [])
    && (i.dataValid ==> s.flight != []) && (i.errorValid ==> s.errors != [])
  }

  // ------------------------------------------------------- The wires of a cycle

  predicate Pushes(s: State, i: Input) { s.asker.fsm == PUSH_TO_FIFO && i.fifoReady }
  predicate Requests(a: Asker, i: Input) { a.fsm == PUSH_TO_DMA && i.requestReady }
  predicate Takes(p: Comparer, i: Input) { p.fsm == RD_DATA && i.dataValid }
  predicate Differs(p: Comparer, i: Input) { i.data != p.pipe.data }
  predicate Reports(p: Comparer, i: Input) { p.fsm == WR_ERR && i.errorReady }
  predicate Pops(e: Shower, i: Input) { i.errorValid && (e.valid ==> i.acknowledge) }
  predicate Acknowledges(e: Shower, i: Input) { e.valid && i.acknowledge }

  function Head(s: State, i: Input): nat { if s.addresses == [] then i.idle else s.addresses[0] }

  function Tail<T>(q: seq<T>): seq<T> { if q == [] then [] else q[1..] }

  // ------------------------------------------------------- One clock edge

  predicate InRange(w: Widths, c: Setup, s: State) {
    && s.asker.memAddr < |c.addresses| && s.comparer.memAddr < |c.words|
  }

  function NextAsker(w: Widths, c: Setup, a: Asker, i: Input): (a': Asker)
    requires Valid(w, c) && a.memAddr < |c.addresses|
    ensures a'.memAddr < |c.addresses|
  {
    var read := c.addresses[a.memAddr];
    match a.fsm
    case A_READY =>
      if i.start then Asker(A_COMPUTE_MEM_ADDR, 0, 0, a.dramAddr, read) else a.(addressRead := read)
    case A_COMPUTE_MEM_ADDR =>
      BitAndBound(a.counter % Pow2(w.index), c.dataMask);
      a.(memAddr := if c.modulo then a.memAddr else BitAnd(a.counter % Pow2(w.index), c.dataMask), addressRead := read,
         fsm := if a.counter >= c.count then A_READY else A_WAIT_FOR_DRAM_ADDR)
    case A_WAIT_FOR_DRAM_ADDR => a.(fsm := A_COMPUTE_DRAM_ADDR, addressRead := read)
    case A_COMPUTE_DRAM_ADDR =>
      a.(fsm := PUSH_TO_FIFO, addressRead := read,
         dramAddr := (a.addressRead + BitAnd(a.counter, c.memMask)) % Pow2(w.address))
    case PUSH_TO_FIFO => a.(fsm := if i.fifoReady then PUSH_TO_DMA else PUSH_TO_FIFO, addressRead := read)
    case PUSH_TO_DMA =>
      if !i.requestReady then a.(addressRead := read)
      else a.(fsm := A_COMPUTE_MEM_ADDR, counter := Increment(a.counter), addressRead := read,
              memAddr := if c.modulo then NextIndex(w, c, a.memAddr) else a.memAddr)
  }

  /** The pattern FSM; `head` is the address at the output of the address FIFO. */
  function NextComparer(w: Widths, c: Setup, p: Comparer, head: nat, i: Input): (p': Comparer)
    requires Valid(w, c) && p.memAddr < |c.words|
    ensures p'.memAddr < |c.words|
  {
    var q := p.(wordRead := c.words[p.memAddr], pipe := Advance(w, c, p.pipe, head, p.wordRead));
    match p.fsm
    case READY => if i.start then q.(fsm := COMPUTE_MEM_ADDR, counter := 0, memAddr := 0, errorCount := 0) else q
    case COMPUTE_MEM_ADDR =>
      BitAndBound(p.counter, c.dataMask);
      q.(memAddr := if c.modulo then p.memAddr else BitAnd(p.counter, c.dataMask),
         fsm := if p.counter >= c.count then READY else WAIT_FOR_DRAM_ADDR)
    case WAIT_FOR_DRAM_ADDR => if i.fifoValid then q.(fsm := INVERT_COMPUTE, waitCounter := 0) else q
    case INVERT_COMPUTE =>
      q.(fsm := if p.waitCounter == 2 then RD_DATA else INVERT_COMPUTE, waitCounter := (p.waitCounter + 1) % 4)
    case RD_DATA =>
      if !i.dataValid then q
      else if !Differs(p, i) then q.(fsm := COMPUTE_MEM_ADDR, counter := Increment(p.counter))
      else q.(fsm := if i.skip then COMPUTE_MEM_ADDR else WR_ERR, counter := Increment(p.counter),
              errorCount := Increment(p.errorCount), found := Report(head, i.data, p.pipe.data))
    case WR_ERR => if i.errorReady || i.skip then q.(fsm := COMPUTE_MEM_ADDR) else q
  }

  /** The error FSM; with `skip` high it drops what it takes. */
  function NextShower(e: Shower, errors: seq<Report>, i: Input): Shower
    requires i.errorValid ==> errors != []
  {
    if Pops(e, i) then (if i.skip then e.(valid := false) else Shower(true, errors[0]))
    else if Acknowledges(e, i) then e.(valid := false)
    else e
  }

  function Step(w: Widths, c: Setup, s: State, i: Input): (s': State)
    requires Valid(w, c) && InRange(w, c, s) && Fair(s, i)
    ensures InRange(w, c, s')
  {
    State(NextAsker(w, c, s.asker, i), NextComparer(w, c, s.comparer, Head(s, i), i), NextShower(s.shower, s.errors, i),
          NextAddresses(s, i), NextFlight(s, i), NextErrors(s, i))
  }

  function NextAddresses(s: State, i: Input): seq<nat> {
    (if Takes(s.comparer, i) then Tail(s.addresses) else s.addresses) + (if Pushes(s, i) then [s.asker.dramAddr] else [])
  }

  function NextFlight(s: State, i: Input): seq<nat> {
    (if Takes(s.comparer, i) then Tail(s.flight) else s.flight) + (if Requests(s.asker, i) then [s.asker.dramAddr] else [])
  }

  function NextErrors(s: State, i: Input): seq<Report> {
    (if Pops(s.shower, i) then Tail(s.errors) else s.errors) + (if Reports(s.comparer, i) then [s.comparer.found] else [])
  }

  /** The registers as an object; the FIFOs and the DMA are the queues it is connected to. */
  class Reader {
    const widths: Widths
    var setup: Setup
    var asker: Asker
    var comparer: Comparer
    var shower: Shower
    var addresses: seq<nat>
    var flight: seq<nat>
    var errors: seq<Report>

    ghost function Current(): State
      reads this
    {
      State(asker, comparer, shower, addresses, flight, errors)
    }

    ghost predicate Legal()
      reads this
    {
      Valid(widths, setup) && InRange(widths, setup, Current())
    }

    constructor (widths: Widths, setup: Setup)
      requires Valid(widths, setup)
      ensures Legal() && this.widths == widths && this.setup == setup && Current() == Reset()
    {
      this.widths, this.setup := widths, setup;
      asker, comparer := Asker(A_READY, 0, 0, 0, 0), Comparer(READY, 0, 0, 0, 0, Pipe(0, false, 0), 0, Report(0, 0, 0));
      shower, addresses, flight, errors := Shower(false, Report(0, 0, 0)), [], [], [];
    }

    method ClockAsker(i: Input)
      requires Legal()
      modifies `asker
      ensures asker == NextAsker(widths, setup, old(asker), i)
    {
      var read := setup.addresses[asker.memAddr];
      match asker.fsm {
        case A_READY =>
          if i.start { asker := asker.(counter := 0, memAddr := 0, fsm := A_COMPUTE_MEM_ADDR); }
        case A_COMPUTE_MEM_ADDR =>
          if !setup.modulo {
            asker := asker.(memAddr := BitAnd(asker.counter % Pow2(widths.index), setup.dataMask));
          }
          asker := asker.(fsm := if asker.counter >= setup.count then A_READY else A_WAIT_FOR_DRAM_ADDR);
        case A_WAIT_FOR_DRAM_ADDR =>
          asker := asker.(fsm := A_COMPUTE_DRAM_ADDR);
        case A_COMPUTE_DRAM_ADDR =>
          var address := (asker.addressRead + BitAnd(asker.counter, setup.memMask)) % Pow2(widths.address);
          asker := asker.(dramAddr := address, fsm := PUSH_TO_FIFO);
        case PUSH_TO_FIFO =>
          if i.fifoReady { asker := asker.(fsm := PUSH_TO_DMA); }
        case PUSH_TO_DMA =>
          if i.requestReady {
            if setup.modulo { asker := asker.(memAddr := NextIndex(widths, setup, asker.memAddr)); }
            asker := asker.(counter := Increment(asker.counter), fsm := A_COMPUTE_MEM_ADDR);
          }
      }
      asker := asker.(addressRead := read);
    }

    method ClockComparer(head: nat, i: Input)
      requires Legal()
      modifies `comparer
      ensures comparer == NextComparer(widths, setup, old(comparer), head, i)
    {
      var read := setup.words[comparer.memAddr];
      var pipe := Advance(widths, setup, comparer.pipe, head, comparer.wordRead);
      match comparer.fsm {
        case READY =>
          if i.start { comparer := comparer.(counter := 0, memAddr := 0, errorCount := 0, fsm := COMPUTE_MEM_ADDR); }
        case COMPUTE_MEM_ADDR =>
          if !setup.modulo { comparer := comparer.(memAddr := BitAnd(comparer.counter, setup.dataMask)); }
          comparer := comparer.(fsm := if comparer.counter >= setup.count then READY else WAIT_FOR_DRAM_ADDR);
        case WAIT_FOR_DRAM_ADDR =>
          if i.fifoValid { comparer := comparer.(waitCounter := 0, fsm := INVERT_COMPUTE); }
        case INVERT_COMPUTE =>
          if comparer.waitCounter == 2 { comparer := comparer.(fsm := RD_DATA); }
          comparer := comparer.(waitCounter := (comparer.waitCounter + 1) % 4);
        case RD_DATA =>
          if i.dataValid {
            var expected := comparer.pipe.data;
            comparer := comparer.(counter := Increment(comparer.counter), fsm := COMPUTE_MEM_ADDR);
            if i.data != expected {
              comparer := comparer.(errorCount := Increment(comparer.errorCount), found := Report(head, i.data, expected));
              if !i.skip { comparer := comparer.(fsm := WR_ERR); }
            }
          }
        case WR_ERR =>
          if i.errorReady || i.skip { comparer := comparer.(fsm := COMPUTE_MEM_ADDR); }
      }
      comparer := comparer.(wordRead := read, pipe := pipe);
    }

    method ClockShower(errors: seq<Report>, i: Input)
      requires i.errorValid ==> errors != []
      modifies `shower
      ensures shower == NextShower(old(shower), errors, i)
    {
      if !shower.valid {
        if i.errorValid && !i.skip { shower := Shower(true, errors[0]); }
      } else if i.acknowledge && i.errorValid {
        shower := if i.skip then shower.(valid := false) else Shower(true, errors[0]);
      } else if i.acknowledge {
        shower := shower.(valid := false);
      }
    }

    /** The FIFOs and the DMA. */
    method ClockQueues(i: Input)
      modifies `addresses, `flight, `errors
      ensures addresses == NextAddresses(old(Current()), i)
      ensures flight == NextFlight(old(Current()), i) && errors == NextErrors(old(Current()), i)
    {
      if comparer.fsm == RD_DATA && i.dataValid { addresses, flight := Tail(addresses), Tail(flight); }
      if i.errorValid && (!shower.valid || i.acknowledge) { errors := Tail(errors); }
      if asker.fsm == PUSH_TO_FIFO && i.fifoReady { addresses := addresses + [asker.dramAddr]; }
      if asker.fsm == PUSH_TO_DMA && i.requestReady { flight := flight + [asker.dramAddr]; }
      if comparer.fsm == WR_ERR && i.errorReady { errors := errors + [comparer.found]; }
    }

    /** One rising edge: all FSMs and queues move at once. */
    method Clock(i: Input)
      requires Legal() && Fair(Current(), i)
      modifies `asker, `comparer, `shower, `addresses, `flight, `errors
      ensures Legal() && Current() == Step(widths, setup, old(Current()), i)
    {
      var head := if addresses == [] then i.idle else addresses[0];
      var queued := errors;
      ClockQueues(i);
      ClockShower(queued, i);
      ClockAsker(i);
      ClockComparer(head, i);
    }
  }

  // ------------------------------------------------------- The expected reads

  function ExpectedIndex(c: Setup, k: nat): nat { if c.modulo then 0 else BitAnd(k, c.dataMask) }

  /** What the reader compares read `k` with: in modulo mode its data index stays 0. */
  function Expected(w: Widths, c: Setup, k: nat): int
    requires Valid(w, c)
  {
    BitAndBound(k, c.dataMask);
    Stored(w, c, c.words[ExpectedIndex(c, k)], AddressOf(w, c, k))
  }

  /** What a read is compared with is the pattern word, with all bits flipped in the rows of the selection mask. */
  lemma ExpectedBits(w: Widths, c: Setup, k: nat, bit: nat)
    requires Valid(w, c) && bit < w.data && forall i :: 0 <= i < |c.words| ==> c.words[i] < Pow2(w.data)
    ensures ExpectedIndex(c, k) < |c.words| && 0 <= Expected(w, c, k) < Pow2(w.data)
    ensures Bit(Expected(w, c, k), bit) != Bit(c.words[ExpectedIndex(c, k)], bit) <==>
            Bit(c.selectionMask, MaskedRow(w, c, AddressOf(w, c, k))) == 1
  {
    BitAndBound(k, c.dataMask);
    StoredBits(w, c, c.words[ExpectedIndex(c, k)], AddressOf(w, c, k), bit);
  }

  /** The addresses of `n` reads from read `first` on. */
  function Addresses(w: Widths, c: Setup, first: nat, n: nat): (s: seq<nat>)
    requires Valid(w, c)
    ensures |s| == n
  {
    seq<nat>(n, k requires 0 <= k < n => AddressOf(w, c, first + k))
  }

  /** The mismatches among the first reads, in order. */
  function Mismatches(w: Widths, c: Setup, got: seq<int>): (r: seq<Report>)
    requires Valid(w, c)
    ensures |r| <= |got|
  {
    if got == [] then []
    else
      var k := |got| - 1;
      var e := Expected(w, c, k);
      Mismatches(w, c, got[..k]) + (if got[k] != e then [Report(AddressOf(w, c, k), got[k], e)] else [])
  }

  // ------------------------------------------------------- What every cycle keeps

  predicate AskerInv(w: Widths, c: Setup, a: Asker)
    requires Valid(w, c)
  {
    && a.memAddr < |c.addresses| && a.counter <= c.count
    && (a.fsm !in {A_READY, A_COMPUTE_MEM_ADDR} ==> a.counter < c.count && a.memAddr == Index(c, a.counter))
    && (a.fsm == A_COMPUTE_MEM_ADDR && c.modulo ==> a.memAddr == Index(c, a.counter))
    && (a.fsm == A_COMPUTE_DRAM_ADDR ==> a.addressRead == c.addresses[a.memAddr])
    && (a.fsm in {PUSH_TO_FIFO, PUSH_TO_DMA} ==> a.dramAddr == AddressOf(w, c, a.counter))
    && (a.fsm == A_READY ==> a.counter == c.count)
  }

  /** `head` is the address of the read that is compared next. */
  predicate ComparerInv(w: Widths, c: Setup, p: Comparer, head: nat)
    requires Valid(w, c)
  {
    && p.memAddr < |c.words| && p.counter <= c.count
    && (p.fsm in {WAIT_FOR_DRAM_ADDR, INVERT_COMPUTE, RD_DATA} ==>
          p.counter < c.count && p.memAddr == ExpectedIndex(c, p.counter))
    && (c.modulo ==> p.memAddr == 0)
    && (p.fsm in {INVERT_COMPUTE, RD_DATA} ==> p.wordRead == c.words[p.memAddr])
    && (p.fsm == INVERT_COMPUTE ==> p.waitCounter <= 2 && Settled(w, c, p.pipe, head, p.wordRead, p.waitCounter))
    && (p.fsm == RD_DATA ==> Settled(w, c, p.pipe, head, p.wordRead, 3))
  }

  /** The queues hold what the two counters say. */
  predicate QueueInv(w: Widths, c: Setup, s: State)
    requires Valid(w, c)
  {
    var done, asked := s.comparer.counter, s.asker.counter;
    && done <= asked
    && |s.addresses| == asked - done + (if s.asker.fsm == PUSH_TO_DMA then 1 else 0)
    && |s.flight| == asked - done
    && s.addresses == Addresses(w, c, done, |s.addresses|) && s.flight == Addresses(w, c, done, |s.flight|)
    && (s.comparer.fsm in {INVERT_COMPUTE, RD_DATA} ==> s.addresses != [])
  }

  predicate Idle(s: State) { s.asker.fsm == A_READY && s.addresses == [] && s.flight == [] }

  function First(q: seq<nat>): nat { if q == [] then 0 else q[0] }

  predicate Inv(w: Widths, c: Setup, s: State)
    requires Valid(w, c)
  {
    && InRange(w, c, s) && |s.addresses| <= FIFO_DEPTH
    && if s.comparer.fsm == READY then Idle(s)
       else
         && AskerInv(w, c, s.asker) && QueueInv(w, c, s)
         && ComparerInv(w, c, s.comparer, First(s.addresses))
  }

  lemma AskerStep(w: Widths, c: Setup, a: Asker, i: Input)
    requires Valid(w, c) && AskerInv(w, c, a) && !i.start
    ensures AskerInv(w, c, NextAsker(w, c, a, i))
    ensures NextAsker(w, c, a, i).counter == a.counter + if Requests(a, i) then 1 else 0
  {
    if a.counter < c.count {
      StepIndex(w, c, a.counter);
    }
  }

  /** A comparer that keeps looking at the same address. */
  lemma ComparerStep(w: Widths, c: Setup, p: Comparer, head: nat, i: Input)
    requires Valid(w, c) && ComparerInv(w, c, p, head) && p.fsm != READY && !Takes(p, i)
    ensures ComparerInv(w, c, NextComparer(w, c, p, head, i), head)
    ensures NextComparer(w, c, p, head, i).counter == p.counter
  {
    if p.fsm == RD_DATA {
      AdvanceSettles(w, c, p.pipe, head, p.wordRead, 3);
    } else if p.fsm == INVERT_COMPUTE {
      AdvanceSettles(w, c, p.pipe, head, p.wordRead, p.waitCounter);
    }
  }

  /** A comparer that takes a read leaves the address behind. */
  lemma ComparerTakes(w: Widths, c: Setup, p: Comparer, head: nat, i: Input, next: nat)
    requires Valid(w, c) && ComparerInv(w, c, p, head) && Takes(p, i)
    ensures ComparerInv(w, c, NextComparer(w, c, p, head, i), next)
    ensures NextComparer(w, c, p, head, i).counter == p.counter + 1
  {
  }

  /** A queue of consecutive addresses that loses its first and gains the next one. */
  lemma QueueMoves(w: Widths, c: Setup, q: seq<nat>, first: nat, take: bool, push: bool, address: nat)
    requires Valid(w, c) && q == Addresses(w, c, first, |q|)
    requires (take ==> q != []) && (push ==> address == AddressOf(w, c, first + |q|))
    ensures var q' := (if take then q[1..] else q) + (if push then [address] else []);
            q' == Addresses(w, c, first + (if take then 1 else 0), |q'|)
  {
    var q' := (if take then q[1..] else q) + (if push then [address] else []);
    forall k | 0 <= k < |q'|
      ensures q'[k] == AddressOf(w, c, first + (if take then 1 else 0) + k)
    {
      if take && k < |q| - 1 {
        assert q'[k] == q[k + 1];
      } else if !take && k < |q| {
        assert q'[k] == q[k];
      } else {
        assert q'[k] == address;
      }
    }
  }

  /** The levels and contents of both queues in terms of the counters. */
  lemma QueueCounts(w: Widths, c: Setup, s: State, i: Input)
    requires Valid(w, c) && InRange(w, c, s) && Fair(s, i) && s.comparer.fsm != READY && QueueInv(w, c, s)
    ensures Takes(s.comparer, i) ==> s.addresses != [] && s.flight != []
    ensures |NextAddresses(s, i)| ==
            |s.addresses| - (if Takes(s.comparer, i) then 1 else 0) + (if Pushes(s, i) then 1 else 0)
    ensures |NextFlight(s, i)| ==
            |s.flight| - (if Takes(s.comparer, i) then 1 else 0) + (if Requests(s.asker, i) then 1 else 0)
  {
  }

  lemma QueueStep(w: Widths, c: Setup, s: State, i: Input)
    requires Valid(w, c) && InRange(w, c, s) && Fair(s, i) && s.comparer.fsm != READY
    requires s.asker.fsm in {PUSH_TO_FIFO, PUSH_TO_DMA} ==> s.asker.dramAddr == AddressOf(w, c, s.asker.counter)
    requires QueueInv(w, c, s)
    requires Step(w, c, s, i).comparer.counter == s.comparer.counter + if Takes(s.comparer, i) then 1 else 0
    requires Step(w, c, s, i).asker.counter == s.asker.counter + if Requests(s.asker, i) then 1 else 0
    ensures QueueInv(w, c, Step(w, c, s, i))
  {
    var done, s' := s.comparer.counter, Step(w, c, s, i);
    QueueCounts(w, c, s, i);
    QueueMoves(w, c, s.addresses, done, Takes(s.comparer, i), Pushes(s, i), s.asker.dramAddr);
    QueueMoves(w, c, s.flight, done, Takes(s.comparer, i), Requests(s.asker, i), s.asker.dramAddr);
    assert s'.addresses == NextAddresses(s, i) && s'.flight == NextFlight(s, i);
  }

  lemma HeadFree(w: Widths, c: Setup, p: Comparer, head: nat, other: nat)
    requires Valid(w, c) && p.fsm !in {INVERT_COMPUTE, RD_DATA} && ComparerInv(w, c, p, head)
    ensures ComparerInv(w, c, p, other)
  {
  }

  lemma CompareStep(w: Widths, c: Setup, s: State, i: Input)
    requires Valid(w, c) && Inv(w, c, s) && Fair(s, i) && s.comparer.fsm != READY
    ensures ComparerInv(w, c, Step(w, c, s, i).comparer, First(Step(w, c, s, i).addresses))
    ensures Step(w, c, s, i).comparer.counter == s.comparer.counter + if Takes(s.comparer, i) then 1 else 0
  {
    var p, head := s.comparer, Head(s, i);
    var next := First(Step(w, c, s, i).addresses);
    if s.addresses == [] {
      HeadFree(w, c, p, 0, head);
    }
    if Takes(p, i) {
      ComparerTakes(w, c, p, head, i, next);
    } else {
      ComparerStep(w, c, p, head, i);
      if s.addresses == [] {
        HeadFree(w, c, NextComparer(w, c, p, head, i), head, next);
      }
    }
  }

  /** Every cycle of a transfer keeps the invariant; in particular `ready` rises only when the address FSM
      is idle and nothing is queued or in flight. */
  lemma StepKeeps(w: Widths, c: Setup, s: State, i: Input)
    requires Valid(w, c) && Inv(w, c, s) && Fair(s, i)
    ensures Inv(w, c, Step(w, c, s, i))
  {
    if s.comparer.fsm != READY {
      AskerStep(w, c, s.asker, i);
      CompareStep(w, c, s, i);
      QueueStep(w, c, s, i);
    }
  }
}
