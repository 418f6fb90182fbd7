/** The payload executor as clocked: fetch pipeline, executor FSM, DFI switch and refresh counter.
    Every clock edge is one step in which all registers take their next value at once, and the
    payload memory returns the word of an address one cycle after the address. */
module Executor {
  import opened Bits
  import opened Isa

  const PIPELINE_DELAY: nat := 2
  const WIDE: nat := 0x1_0000_0000_0000_0000

  datatype Config = Config(mem: seq<nat>, geometry: Geometry, withRefresh: bool)
  {
    /** Addresses wrap at the depth because the depth is a power of two. */
    ghost predicate Valid() { exists k: nat :: 0 < k && |mem| == Pow2(k) }
  }

  datatype Fsm = READY | WAIT_DFI | BUBBLE | RUN | IDLE

  /** The fetcher: `adr` is the address latched by the payload memory, so `mem[adr]` is the data
      it presents, and `instruction` the word being executed. */
  datatype Fetch = Fetch(pc: nat, pcOld: nat, adr: nat, instruction: nat)

  datatype Timers = Timers(cycle: nat, execStart: nat, execStop: nat)

  /** Registers of the executor; `bus` holds the DFI lines. */
  datatype Core = Core(fsm: Fsm, fetch: Fetch, idle: nat, loop: nat, bus: Bus, timers: Timers)
  {
    predicate Stall() { fsm in {READY, WAIT_DFI, IDLE} }
    predicate Executing() { fsm in {BUBBLE, RUN, IDLE} }
    function MemAddr(): nat { if Stall() then fetch.pcOld else fetch.pc }
    function Decoded(): Decoded { Decode(fetch.instruction) }
    predicate Terminate() {
      var d := Decoded();
      fsm == RUN && (MemAddr() == PIPELINE_DELAY - 1 || d.Stop()) && (d.op != LOOP || d.count == loop)
    }
    predicate Jump() {
      var d := Decoded();
      fsm == RUN && !Terminate() && d.op == LOOP && d.count != loop
    }
    predicate Exec() { fsm == RUN && !Terminate() && Decoded().op != LOOP }
  }

  /** The switch: `payload` is the state PAYLOAD-EXECUTION, in which `ext_dfi_sel` and
      `dfi_ready` are high. */
  datatype Switch = Switch(payload: bool, wantsDfi: bool, refreshes: nat)

  datatype State = State(core: Core, switch: Switch)

  /** Per cycle: the start pulse, what the memory controller drives, and the at_refresh setting. */
  datatype Input = Input(start: bool, mc: Bus, atRefresh: nat)

  /** The lines that reach the DRAM. */
  function Master(s: State, mc: Bus): Bus {
    if s.switch.payload then s.core.bus else mc
  }

  predicate IsRefresh(b: Bus) {
    b.Command? && b.phase == 0 && b.op == REF && b.chips == AllRanks
  }

  // ------------------------------------------------------- One clock edge

  function NextFsm(s: State, start: bool): Fsm {
    var d := s.core.Decoded();
    match s.core.fsm
    case READY => if start then WAIT_DFI else READY
    case WAIT_DFI => if s.switch.payload then BUBBLE else WAIT_DFI
    case BUBBLE => if s.core.idle == 0 then RUN else BUBBLE
    case IDLE => if s.core.idle == 0 then RUN else IDLE
    case RUN =>
      if s.core.Terminate() then READY
      else if s.core.Jump() then BUBBLE
      else if d.op == LOOP || d.timeslice <= 1 then RUN
      else IDLE
  }

  function NextIdle(s: State): nat {
    var d := s.core.Decoded();
    match s.core.fsm
    case READY => s.core.idle
    case WAIT_DFI => if s.switch.payload then PIPELINE_DELAY - 1 else s.core.idle
    case BUBBLE => if s.core.idle == 0 then 0 else s.core.idle - 1
    case IDLE => if s.core.idle == 0 then 0 else s.core.idle - 1
    case RUN =>
      if s.core.Jump() then PIPELINE_DELAY - 1
      else if s.core.Exec() && d.timeslice >= 2 then d.timeslice - 2
      else s.core.idle
  }

  function NextLoop(core: Core): nat {
    if core.Jump() then (core.loop + 1) % 4096
    else if core.fsm == RUN && !core.Terminate() && core.Decoded().op == LOOP then 0
    else core.loop
  }

  function NextFetch(c: Config, f: Fetch, stall: bool, jump: bool, resetPc: bool): (f': Fetch)
    requires |c.mem| >= 2 && InRange(c, f)
    ensures InRange(c, f')
  {
    if !stall then
      var nextAddr := if jump then f.pc - Decode(f.instruction).jump - PIPELINE_DELAY else f.pc + 1;
      Fetch(nextAddr % |c.mem|, f.pc, f.pc, c.mem[f.adr])
    else if resetPc then Fetch(0, 0, f.pcOld, f.instruction)
    else f.(adr := f.pcOld)
  }

  predicate InRange(c: Config, f: Fetch) {
    f.pc < |c.mem| && f.pcOld < |c.mem| && f.adr < |c.mem|
  }

  /** An assignment later in the source wins over an earlier one of the same edge. */
  function NextTimers(t: Timers, start: bool, executing: bool): Timers {
    var cycle := (t.cycle + 1) % WIDE;
    Timers(cycle,
           if executing && t.execStart == 0 then t.cycle else if start then 0 else t.execStart,
           if executing then cycle else if start then 0 else t.execStop)
  }

  function NextCore(c: Config, s: State, start: bool): Core
    requires |c.mem| >= 2 && InRange(c, s.core.fetch)
  {
    var core := s.core;
    Core(NextFsm(s, start),
         NextFetch(c, core.fetch, core.Stall(), core.Jump(), core.fsm == READY),
         NextIdle(s),
         NextLoop(core),
         if core.Exec() then Drive(c.geometry, core.Decoded()) else Inactive,
         NextTimers(core.timers, start, core.Executing()))
  }

  function NextSwitch(c: Config, s: State, i: Input): Switch {
    var refresh := IsRefresh(Master(s, i.mc));
    var matches := i.atRefresh == 0 || i.atRefresh == s.switch.refreshes + 1;
    Switch(s.switch.wantsDfi && (s.switch.payload || (c.withRefresh ==> refresh && matches)),
           if s.core.fsm == READY && i.start then true
           else if s.core.Terminate() then false else s.switch.wantsDfi,
           if refresh then (s.switch.refreshes + 1) % WIDE else s.switch.refreshes)
  }

  function Step(c: Config, s: State, i: Input): (s': State)
    requires |c.mem| >= 2 && InRange(c, s.core.fetch)
    ensures InRange(c, s'.core.fetch)
  {
    State(NextCore(c, s, i.start), NextSwitch(c, s, i))
  }

  lemma SwitchParts(c: Config, s: State, i: Input, next: Switch)
    requires var refresh, matches := IsRefresh(Master(s, i.mc)), i.atRefresh == 0 || i.atRefresh == s.switch.refreshes + 1;
             && next.payload == (s.switch.wantsDfi && (s.switch.payload || (c.withRefresh ==> refresh && matches)))
             && next.refreshes == if refresh then (s.switch.refreshes + 1) % WIDE else s.switch.refreshes
    requires next.wantsDfi ==
             if s.core.fsm == READY && i.start then true else if s.core.Terminate() then false else s.switch.wantsDfi
    ensures next == NextSwitch(c, s, i)
  {
  }

  lemma CoreParts(c: Config, s: State, start: bool, next: Core)
    requires |c.mem| >= 2 && InRange(c, s.core.fetch)
    requires next.fsm == NextFsm(s, start) && next.idle == NextIdle(s) && next.loop == NextLoop(s.core)
    requires next.fetch == NextFetch(c, s.core.fetch, s.core.Stall(), s.core.Jump(), s.core.fsm == READY)
    requires next.bus == if s.core.Exec() then Drive(c.geometry, s.core.Decoded()) else Inactive
    requires next.timers == NextTimers(s.core.timers, start, s.core.Executing())
    ensures next == NextCore(c, s, start)
  {
  }

  /** The registers as objects: one call of Clock is one rising edge. */
  class Gateware {
    const config: Config
    var fsm: Fsm
    var fetch: Fetch
    var idleCounter: nat
    var loopCounter: nat
    var bus: Bus
    var timers: Timers
    var payloadExecution: bool
    var wantsDfi: bool
    var refreshCounter: nat

    ghost function Registers(): State
      reads this
    {
      State(Core(fsm, fetch, idleCounter, loopCounter, bus, timers),
            Switch(payloadExecution, wantsDfi, refreshCounter))
    }

    ghost predicate Valid()
      reads this
    {
      config.Valid() && |config.mem| >= 2 && InRange(config, fetch)
    }

    constructor (config: Config)
      requires config.Valid()
      ensures Valid() && this.config == config && Registers() == Reset()
    {
      this.config := config;
      fsm, fetch := READY, Fetch(0, 0, 0, 0);
      idleCounter, loopCounter, bus := 0, 0, Inactive;
      timers := Timers(0, 0, 0);
      payloadExecution, wantsDfi, refreshCounter := false, false, 0;
      new;
      DepthAtLeastTwo(config);
    }

    /** The FSM of the executor: next state, counters, and the wires it drives this cycle. */
    method ClockFsm(start: bool) returns (stall: bool, exec: bool, jump: bool, terminate: bool)
      modifies `fsm, `idleCounter, `loopCounter
      ensures var s := old(Registers());
              && stall == s.core.Stall() && exec == s.core.Exec()
              && jump == s.core.Jump() && terminate == s.core.Terminate()
              && fsm == NextFsm(s, start) && idleCounter == NextIdle(s) && loopCounter == NextLoop(s.core)
    {
      var d := Decode(fetch.instruction);
      stall, exec, jump, terminate := false, false, false, false;
      match fsm {
        case READY =>
          stall := true;
          if start { fsm := WAIT_DFI; }
        case WAIT_DFI =>
          stall := true;
          if payloadExecution { fsm, idleCounter := BUBBLE, PIPELINE_DELAY - 1; }
        case RUN =>
          if (fetch.pc == PIPELINE_DELAY - 1 || d.Stop()) && (d.op != LOOP || d.count == loopCounter) {
            terminate, fsm := true, READY;
          } else if d.op == LOOP {
            if loopCounter != d.count {
              jump, loopCounter := true, (loopCounter + 1) % 4096;
              fsm, idleCounter := BUBBLE, PIPELINE_DELAY - 1;
            } else {
              loopCounter := 0;
            }
          } else {
            if d.timeslice >= 2 { idleCounter, fsm := d.timeslice - 2, IDLE; }
            exec := true;
          }
        case IDLE =>
          stall := true;
          if idleCounter == 0 { fsm := RUN; } else { idleCounter := idleCounter - 1; }
        case BUBBLE =>
          if idleCounter == 0 { fsm := RUN; } else { idleCounter := idleCounter - 1; }
      }
    }

    /** The fetcher and the memory's address register. */
    method ClockFetcher(stall: bool, jump: bool, resetPc: bool)
      requires |config.mem| >= 2 && InRange(config, fetch)
      modifies `fetch
      ensures fetch == NextFetch(config, old(fetch), stall, jump, resetPc)
    {
      var memAddr := if stall then fetch.pcOld else fetch.pc;
      if !stall {
        var nextAddr := fetch.pc + 1;
        if jump { nextAddr := fetch.pc - Decode(fetch.instruction).jump - PIPELINE_DELAY; }
        fetch := Fetch(nextAddr % |config.mem|, fetch.pc, fetch.adr, config.mem[fetch.adr]);
      } else if resetPc {
        fetch := fetch.(pc := 0, pcOld := 0);
      }
      fetch := fetch.(adr := memAddr);
    }

    /** The execution time registers. */
    method ClockTimers(start: bool, executing: bool)
      modifies `timers
      ensures timers == NextTimers(old(timers), start, executing)
    {
      var cycle, unset := timers.cycle, timers.execStart == 0;
      if start { timers := timers.(execStart := 0, execStop := 0); }
      if executing && unset { timers := timers.(execStart := cycle, execStop := 0); }
      if executing { timers := timers.(execStop := (cycle + 1) % WIDE); }
      timers := timers.(cycle := (cycle + 1) % WIDE);
    }

    /** The DFI switch with its refresh counter; `master` is what reaches the DRAM. */
    method ClockSwitch(master: Bus, atRefresh: nat)
      modifies `payloadExecution, `refreshCounter
      ensures var refresh, matches := IsRefresh(master), atRefresh == 0 || atRefresh == old(refreshCounter) + 1;
              && payloadExecution == (wantsDfi && (old(payloadExecution) || (config.withRefresh ==> refresh && matches)))
              && refreshCounter == old(if refresh then (refreshCounter + 1) % WIDE else refreshCounter)
    {
      var refresh := IsRefresh(master);
      if payloadExecution {
        payloadExecution := wantsDfi;
      } else if wantsDfi {
        var matches := atRefresh == 0 || atRefresh == refreshCounter + 1;
        if config.withRefresh {
          if refresh && matches { payloadExecution := true; }
        } else {
          payloadExecution := true;
        }
      }
      if refresh { refreshCounter := (refreshCounter + 1) % WIDE; }
    }

    /** Executor and fetcher; `terminate` goes to the switch. */
    method ClockCore(start: bool) returns (terminate: bool)
      requires |config.mem| >= 2 && InRange(config, fetch)
      modifies `fsm, `fetch, `idleCounter, `loopCounter, `bus, `timers
      ensures InRange(config, fetch) && Registers().core == NextCore(config, old(Registers()), start)
      ensures terminate == old(Registers()).core.Terminate()
    {
      ghost var s := Registers();
      var ready, executing := fsm == READY, fsm in {BUBBLE, RUN, IDLE};
      var command := Drive(config.geometry, Decode(fetch.instruction));
      var stall, exec, jump, last := ClockFsm(start);
      terminate := last;
      ClockTimers(start, executing);
      ClockFetcher(stall, jump, ready);
      bus := if exec then command else Inactive;
      CoreParts(config, s, start, Registers().core);
    }

    method Clock(i: Input)
      requires Valid()
      modifies this
      ensures Valid() && Registers() == Step(config, old(Registers()), i)
    {
      ghost var s := Registers();
      var ready, master := fsm == READY, if payloadExecution then bus else i.mc;
      var terminate := ClockCore(i.start);
      ClockSwitch(master, i.atRefresh);
      wantsDfi := if ready && i.start then true else if terminate then false else wantsDfi;
      SwitchParts(config, s, i, Registers().switch);
    }
  }

  function Reset(): State {
    State(Core(READY, Fetch(0, 0, 0, 0), 0, 0, Inactive, Timers(0, 0, 0)), Switch(false, false, 0))
  }

  lemma DepthAtLeastTwo(c: Config)
    requires c.Valid()
    ensures |c.mem| >= 2
  {
    var k: nat :| 0 < k && |c.mem| == Pow2(k);
  }

  // ------------------------------------------------------- Runs of clock edges

  function After(c: Config, s: State, ins: seq<Input>): (s': State)
    requires |c.mem| >= 2 && InRange(c, s.core.fetch)
    ensures InRange(c, s'.core.fetch)
    decreases |ins|
  {
    if ins == [] then s else After(c, Step(c, s, ins[0]), ins[1..])
  }

  /** The DFI lines registered by each of the clock edges. */
  function Issued(c: Config, s: State, ins: seq<Input>): (bs: seq<Bus>)
    requires |c.mem| >= 2 && InRange(c, s.core.fetch)
    ensures |bs| == |ins|
    decreases |ins|
  {
    if ins == [] then []
    else var s' := Step(c, s, ins[0]); [s'.core.bus] + Issued(c, s', ins[1..])
  }

  /** `executing` is high in every one of these cycles. */
  predicate Busy(c: Config, s: State, ins: seq<Input>)
    requires |c.mem| >= 2 && InRange(c, s.core.fetch)
    decreases |ins|
  {
    ins == [] || (s.core.Executing() && Busy(c, Step(c, s, ins[0]), ins[1..]))
  }

  lemma {:induction false} Compose(c: Config, s: State, a: seq<Input>, b: seq<Input>)
    requires |c.mem| >= 2 && InRange(c, s.core.fetch)
    ensures After(c, s, a + b) == After(c, After(c, s, a), b)
    ensures Issued(c, s, a + b) == Issued(c, s, a) + Issued(c, After(c, s, a), b)
    ensures Busy(c, s, a) && Busy(c, After(c, s, a), b) ==> Busy(c, s, a + b)
    decreases |a|
  {
    if a == [] {
      assert a + b == b;
    } else {
      assert (a + b)[0] == a[0] && (a + b)[1..] == a[1..] + b;
      Compose(c, Step(c, s, a[0]), a[1..], b);
    }
  }
}
