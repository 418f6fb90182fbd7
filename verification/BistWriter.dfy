/** The DMA writer: one FSM, two counters, and a data path of three registers whose delay is covered
    by a counted number of wait states. */
module BistWriter {
  import opened Bits
  import opened Pattern

  datatype Fsm = READY | COMPUTE_MEM_ADDR | WAIT_FOR_DRAM_ADDR | COMPUTE_DRAM_ADDR | INVERT_COMPUTE | SEND

  /** `addressRead` and `wordRead` are the output registers of the pattern memory ports. */
  datatype Registers = Registers(fsm: Fsm, cmdCounter: nat, memAddr: nat, dramAddr: nat, waitCounter: nat,
                                 addressRead: nat, wordRead: nat, pipe: Pipe)

  /** Inputs of a cycle: the start pulse, and whether the DMA takes a transfer. */
  datatype Input = Input(start: bool, sinkReady: bool)

  datatype Transfer = Transfer(address: nat, data: int)

  predicate InRange(c: Setup, r: Registers) { r.memAddr < |c.addresses| == |c.words| }

  function Reset(): Registers { Registers(READY, 0, 0, 0, 0, 0, 0, Pipe(0, false, 0)) }

  predicate Sends(r: Registers, i: Input) { r.fsm == SEND && i.sinkReady }

  function NextFsm(c: Setup, r: Registers, i: Input): Fsm {
    match r.fsm
    case READY => if i.start then COMPUTE_MEM_ADDR else READY
    case COMPUTE_MEM_ADDR => if r.cmdCounter >= c.count then READY else WAIT_FOR_DRAM_ADDR
    case WAIT_FOR_DRAM_ADDR => COMPUTE_DRAM_ADDR
    case COMPUTE_DRAM_ADDR => INVERT_COMPUTE
    case INVERT_COMPUTE => if r.waitCounter == 2 then SEND else INVERT_COMPUTE
    case SEND => if i.sinkReady then COMPUTE_MEM_ADDR else SEND
  }

  function NextMemAddr(w: Widths, c: Setup, r: Registers, i: Input): nat {
    if r.fsm == READY && i.start then 0
    else if r.fsm == COMPUTE_MEM_ADDR && !c.modulo then BitAnd(r.cmdCounter % Pow2(w.index), c.dataMask)
    else if Sends(r, i) && c.modulo then NextIndex(w, c, r.memAddr)
    else r.memAddr
  }

  function Step(w: Widths, c: Setup, r: Registers, i: Input): (r': Registers)
    requires Valid(w, c) && InRange(c, r)
    ensures InRange(c, r')
  {
    BitAndBound(r.cmdCounter % Pow2(w.index), c.dataMask);
    Registers(NextFsm(c, r, i),
              if r.fsm == READY && i.start then 0
              else if Sends(r, i) then Increment(r.cmdCounter) else r.cmdCounter,
              NextMemAddr(w, c, r, i),
              if r.fsm == COMPUTE_DRAM_ADDR then (r.addressRead + BitAnd(r.cmdCounter, c.memMask)) % Pow2(w.address)
              else r.dramAddr,
              if r.fsm == COMPUTE_DRAM_ADDR then 0
              else if r.fsm == INVERT_COMPUTE then (r.waitCounter + 1) % 4 else r.waitCounter,
              c.addresses[r.memAddr], c.words[r.memAddr],
              Advance(w, c, r.pipe, r.dramAddr, r.wordRead))
  }

  /** The transfers the DMA has taken since the last start. */
  function NextSent(r: Registers, sent: seq<Transfer>, i: Input): seq<Transfer> {
    if r.fsm == READY && i.start then []
    else if Sends(r, i) then sent + [Transfer(r.dramAddr, r.pipe.data)]
    else sent
  }

  class Writer {
    const widths: Widths
    var setup: Setup
    var fsm: Fsm
    var cmdCounter: nat
    var memAddr: nat
    var dramAddr: nat
    var waitCounter: nat
    var addressRead: nat
    var wordRead: nat
    var pipe: Pipe

    ghost function State(): Registers
      reads this
    {
      Registers(fsm, cmdCounter, memAddr, dramAddr, waitCounter, addressRead, wordRead, pipe)
    }

    ghost predicate Legal()
      reads this
    {
      Valid(widths, setup) && InRange(setup, State())
    }

    constructor (widths: Widths, setup: Setup)
      requires Valid(widths, setup)
      ensures Legal() && this.widths == widths && this.setup == setup && State() == Reset()
    {
      this.widths, this.setup := widths, setup;
      fsm, cmdCounter, memAddr, dramAddr, waitCounter := READY, 0, 0, 0, 0;
      addressRead, wordRead, pipe := 0, 0, Pipe(0, false, 0);
    }

    /** The FSM with the registers it assigns. */
    method ClockFsm(i: Input)
      requires Legal()
      modifies `fsm, `cmdCounter, `memAddr, `dramAddr, `waitCounter
      ensures var r, r' := old(State()), Step(widths, setup, old(State()), i);
              && fsm == r'.fsm && cmdCounter == r'.cmdCounter && memAddr == r'.memAddr
              && dramAddr == r'.dramAddr && waitCounter == r'.waitCounter
    {
      match fsm {
        case READY =>
          if i.start {
            cmdCounter, memAddr, fsm := 0, 0, COMPUTE_MEM_ADDR;
          }
        case COMPUTE_MEM_ADDR =>
          if !setup.modulo {
            memAddr := BitAnd(cmdCounter % Pow2(widths.index), setup.dataMask);
          }
          fsm := if cmdCounter >= setup.count then READY else WAIT_FOR_DRAM_ADDR;
        case WAIT_FOR_DRAM_ADDR =>
          fsm := COMPUTE_DRAM_ADDR;
        case COMPUTE_DRAM_ADDR =>
          waitCounter := 0;
          dramAddr := (addressRead + BitAnd(cmdCounter, setup.memMask)) % Pow2(widths.address);
          fsm := INVERT_COMPUTE;
        case INVERT_COMPUTE =>
          if waitCounter == 2 { fsm := SEND; }
          waitCounter := (waitCounter + 1) % 4;
        case SEND =>
          if i.sinkReady {
            cmdCounter := Increment(cmdCounter);
            if setup.modulo { memAddr := NextIndex(widths, setup, memAddr); }
            fsm := COMPUTE_MEM_ADDR;
          }
      }
    }

    /** One rising edge; `valid` and the transfer are what the DMA sees before it. */
    method Clock(i: Input) returns (valid: bool, transfer: Transfer)
      requires Legal()
      modifies `fsm, `cmdCounter, `memAddr, `dramAddr, `waitCounter, `addressRead, `wordRead, `pipe
      ensures Legal() && State() == Step(widths, setup, old(State()), i)
      ensures valid == (old(fsm) == SEND) && transfer == old(Transfer(dramAddr, pipe.data))
    {
      valid, transfer := fsm == SEND, Transfer(dramAddr, pipe.data);
      var address, word := setup.addresses[memAddr], setup.words[memAddr];
      var data := Advance(widths, setup, pipe, dramAddr, wordRead);
      ClockFsm(i);
      addressRead, wordRead, pipe := address, word, data;
    }
  }

  // ------------------------------------------------------- What is sent

  function TransferOf(w: Widths, c: Setup, k: nat): Transfer
    requires Valid(w, c)
  {
    IndexInRange(w, c, k);
    Transfer(AddressOf(w, c, k), Stored(w, c, c.words[Index(c, k)], AddressOf(w, c, k)))
  }

  /** The data of a transfer is its pattern word, with all bits flipped in the rows of the selection mask. */
  lemma TransferBits(w: Widths, c: Setup, k: nat, bit: nat)
    requires Valid(w, c) && bit < w.data && forall i :: 0 <= i < |c.words| ==> c.words[i] < Pow2(w.data)
    ensures Index(c, k) < |c.words|
    ensures var t, word := TransferOf(w, c, k), c.words[Index(c, k)];
            && 0 <= t.data < Pow2(w.data)
            && (Bit(t.data, bit) != Bit(word, bit) <==> Bit(c.selectionMask, MaskedRow(w, c, t.address)) == 1)
  {
    IndexInRange(w, c, k);
    StoredBits(w, c, c.words[Index(c, k)], AddressOf(w, c, k), bit);
  }

  /** With ones in the lowest `n` bits of the memory mask and a single pattern address the transfers sweep as many
      DRAM addresses from there on, again and again. */
  lemma AddressSweep(w: Widths, c: Setup, k: nat, n: nat, base: nat, q: nat, r: nat)
    requires Valid(w, c) && c.memMask == Pow2(n) - 1 && Index(c, k) < |c.addresses| && c.addresses[Index(c, k)] == base
    requires k == q * Pow2(n) + r && r < Pow2(n) && base + r < Pow2(w.address)
    ensures TransferOf(w, c, k).address == base + r
  {
    MaskIsRemainder(k, n, q, r);
    SmallRemainder(base + r, Pow2(w.address));
  }

  /** The first `n` transfers of the pattern. */
  function Transfers(w: Widths, c: Setup, n: nat): (s: seq<Transfer>)
    requires Valid(w, c)
    ensures |s| == n
  {
    seq(n, k requires 0 <= k < n => TransferOf(w, c, k))
  }

  /** What every cycle of a run keeps: all earlier transfers are sent, and the registers belong to the
      current one as far as the FSM has come. */
  predicate Inv(w: Widths, c: Setup, r: Registers, sent: seq<Transfer>)
    requires Valid(w, c)
  {
    InRange(c, r) &&
    (r.fsm != READY ==>
       var k := r.cmdCounter;
       && k <= c.count && sent == Transfers(w, c, k)
       && (r.fsm != COMPUTE_MEM_ADDR ==> k < c.count)
       && (if r.fsm == COMPUTE_MEM_ADDR then c.modulo ==> r.memAddr == Index(c, k) else r.memAddr == Index(c, k))
       && (r.fsm in {COMPUTE_DRAM_ADDR, INVERT_COMPUTE, SEND} ==>
             r.addressRead == c.addresses[r.memAddr] && r.wordRead == c.words[r.memAddr])
       && (r.fsm in {INVERT_COMPUTE, SEND} ==> r.dramAddr == AddressOf(w, c, k))
       && (r.fsm == INVERT_COMPUTE ==>
             r.waitCounter <= 2 && Settled(w, c, r.pipe, r.dramAddr, r.wordRead, r.waitCounter))
       && (r.fsm == SEND ==> Settled(w, c, r.pipe, r.dramAddr, r.wordRead, 3)))
  }

  lemma TransfersSnoc(w: Widths, c: Setup, k: nat)
    requires Valid(w, c)
    ensures Transfers(w, c, k + 1) == Transfers(w, c, k) + [TransferOf(w, c, k)]
  {
  }

  /** Every cycle keeps the invariant; a run ends with exactly `count` transfers, and in SEND the DMA
      is offered the transfer of the pattern. */
  lemma StepKeeps(w: Widths, c: Setup, r: Registers, sent: seq<Transfer>, i: Input)
    requires Valid(w, c) && Inv(w, c, r, sent)
    ensures Inv(w, c, Step(w, c, r, i), NextSent(r, sent, i))
    ensures r.fsm != READY && Step(w, c, r, i).fsm == READY ==> NextSent(r, sent, i) == Transfers(w, c, c.count)
    ensures r.fsm == SEND ==> Transfer(r.dramAddr, r.pipe.data) == TransferOf(w, c, r.cmdCounter)
  {
    if r.fsm != READY && r.cmdCounter < c.count {
      StepIndex(w, c, r.cmdCounter);
      TransfersSnoc(w, c, r.cmdCounter);
    }
    AdvanceSettles(w, c, r.pipe, r.dramAddr, r.wordRead, 0);
    if r.fsm == INVERT_COMPUTE {
      AdvanceSettles(w, c, r.pipe, r.dramAddr, r.wordRead, r.waitCounter);
    } else if r.fsm == SEND {
      AdvanceSettles(w, c, r.pipe, r.dramAddr, r.wordRead, 3);
    }
  }

  // ------------------------------------------------------- Whole runs

  predicate Stalled(r: Registers, i: Input) { r.fsm == SEND && !i.sinkReady }

  function After(w: Widths, c: Setup, r: Registers, ins: seq<Input>): (r': Registers)
    requires Valid(w, c) && InRange(c, r)
    ensures InRange(c, r')
    decreases |ins|
  {
    if ins == [] then r else After(w, c, Step(w, c, r, ins[0]), ins[1..])
  }

  function SentAfter(w: Widths, c: Setup, r: Registers, sent: seq<Transfer>, ins: seq<Input>): seq<Transfer>
    requires Valid(w, c) && InRange(c, r)
    decreases |ins|
  {
    if ins == [] then sent else SentAfter(w, c, Step(w, c, r, ins[0]), NextSent(r, sent, ins[0]), ins[1..])
  }

  /** `ready` is low in every one of these cycles. */
  predicate Busy(w: Widths, c: Setup, r: Registers, ins: seq<Input>)
    requires Valid(w, c) && InRange(c, r)
    decreases |ins|
  {
    ins == [] || (r.fsm != READY && Busy(w, c, Step(w, c, r, ins[0]), ins[1..]))
  }

  /** Cycles in which the DMA keeps the writer waiting. */
  function Stalls(w: Widths, c: Setup, r: Registers, ins: seq<Input>): nat
    requires Valid(w, c) && InRange(c, r)
    decreases |ins|
  {
    if ins == [] then 0
    else (if Stalled(r, ins[0]) then 1 else 0) + Stalls(w, c, Step(w, c, r, ins[0]), ins[1..])
  }

  /** Cycles of the run so far that were not stalls: seven for each transfer. */
  function Elapsed(c: Setup, r: Registers): nat {
    match r.fsm
    case READY => 7 * c.count + 1
    case COMPUTE_MEM_ADDR => 7 * r.cmdCounter
    case WAIT_FOR_DRAM_ADDR => 7 * r.cmdCounter + 1
    case COMPUTE_DRAM_ADDR => 7 * r.cmdCounter + 2
    case INVERT_COMPUTE => 7 * r.cmdCounter + 3 + r.waitCounter
    case SEND => 7 * r.cmdCounter + 6
  }

  predicate Bounded(c: Setup, r: Registers) {
    && r.cmdCounter <= c.count < WORD && (r.fsm != COMPUTE_MEM_ADDR ==> r.cmdCounter < c.count)
    && (r.fsm == INVERT_COMPUTE ==> r.waitCounter <= 2)
  }

  lemma InvBounds(w: Widths, c: Setup, r: Registers, sent: seq<Transfer>)
    requires Valid(w, c) && Inv(w, c, r, sent) && r.fsm != READY
    ensures Bounded(c, r)
  {
  }

  lemma StepElapses(w: Widths, c: Setup, r: Registers, i: Input)
    requires Valid(w, c) && InRange(c, r) && r.fsm != READY && Bounded(c, r)
    ensures Elapsed(c, Step(w, c, r, i)) == Elapsed(c, r) + if Stalled(r, i) then 0 else 1
    ensures Elapsed(c, r) < 7 * c.count + 1
  {
    if r.fsm == SEND && i.sinkReady {
      SmallRemainder(r.cmdCounter + 1, WORD);
    }
  }

  lemma {:induction false} RunKeeps(w: Widths, c: Setup, r: Registers, sent: seq<Transfer>, ins: seq<Input>)
    requires Valid(w, c) && Inv(w, c, r, sent) && Busy(w, c, r, ins)
    requires r.fsm == READY ==> sent == Transfers(w, c, c.count)
    ensures Inv(w, c, After(w, c, r, ins), SentAfter(w, c, r, sent, ins))
    ensures Elapsed(c, After(w, c, r, ins)) == Elapsed(c, r) + |ins| - Stalls(w, c, r, ins)
    ensures After(w, c, r, ins).fsm == READY ==> SentAfter(w, c, r, sent, ins) == Transfers(w, c, c.count)
    decreases |ins|
  {
    if ins != [] {
      StepKeeps(w, c, r, sent, ins[0]);
      InvBounds(w, c, r, sent);
      StepElapses(w, c, r, ins[0]);
      RunKeeps(w, c, Step(w, c, r, ins[0]), NextSent(r, sent, ins[0]), ins[1..]);
    }
  }

  /** From a start pulse on, whatever the DMA does: the transfers sent so far are those of the pattern,
      in order, and the writer is ready again after exactly seven cycles a transfer, one more, and the
      stalls; then `count` transfers are sent. */
  lemma WriterRun(w: Widths, c: Setup, r: Registers, start: Input, ins: seq<Input>)
    requires Valid(w, c) && InRange(c, r) && r.fsm == READY && start.start
    requires Busy(w, c, Step(w, c, r, start), ins)
    ensures var first := Step(w, c, r, start);
            var last, sent := After(w, c, first, ins), SentAfter(w, c, first, [], ins);
            && |sent| <= c.count && sent == Transfers(w, c, |sent|)
            && (last.fsm == READY <==> |ins| - Stalls(w, c, first, ins) == 7 * c.count + 1)
            && (last.fsm == READY ==> |sent| == c.count)
  {
    var first := Step(w, c, r, start);
    StepKeeps(w, c, r, [], start);
    RunKeeps(w, c, first, [], ins);
    var last := After(w, c, first, ins);
    if last.fsm != READY {
      InvBounds(w, c, last, SentAfter(w, c, first, [], ins));
      StepElapses(w, c, last, start);
    }
  }
}
