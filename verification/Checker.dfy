/** The payload checker: instruction checks and the run loop over a timing scoreboard. */
module Checker {
  import opened Bits
  import opened Ddr3

  /** An instruction message: one of three fields set, or none; op codes are the enum's numbers. */
  datatype Instr =
    | Mem(opcode: nat, timeslice: nat, rank: nat, bank: nat, addr: nat)
    | Nop(opcode: nat, timeslice: nat)
    | Jmp(opcode: nat, offset: nat, count: nat)
    | Unset

  const NOP: nat := 0
  const JMP: nat := 7
  const MAX: nat := 8

  predicate IsMem(opcode: nat) { opcode in {2, 4, 5, 6} }

  function OpOf(opcode: nat): Opcode {
    if opcode == 2 then RD else if opcode == 4 then ACT else if opcode == 5 then PRE else REF
  }

  predicate VerifyInstr(ip: nat, instr: Instr) {
    match instr
    case Mem(opcode, timeslice, rank, bank, addr) =>
      && IsMem(opcode) && 0 < timeslice < Pow2(8) && rank == 0 && bank < Pow2(3) && addr < Pow2(16)
      && (opcode == 2 ==> addr % 8 == 0)
    case Nop(opcode, timeslice) => opcode == NOP && 0 < timeslice < Pow2(29)
    case Jmp(opcode, offset, count) =>
      opcode == JMP && 0 < offset < Pow2(9) && offset <= ip && 0 < count < Pow2(20)
    case Unset => false
  }

  predicate Verified(p: seq<Instr>) { forall ip :: 0 <= ip < |p| ==> VerifyInstr(ip, p[ip]) }

  /** No jump lies in the range another jump repeats: the loop counter is shared. */
  predicate Separate(p: seq<Instr>) {
    forall ip :: 0 <= ip < |p| && p[ip].Jmp? ==> p[ip].offset <= ip && JumpFree(p, ip - p[ip].offset, ip)
  }

  predicate JumpFree(p: seq<Instr>, a: nat, b: nat) { b <= |p| && forall k :: a <= k < b ==> !p[k].Jmp? }

  // ------------------------------------------------------- The unrolled program

  /** A visited jump is an operation of its own: it costs one tick. */
  datatype Op = Do(opcode: nat, timeslice: nat, bank: nat) | Wait(timeslice: nat) | Visit

  function OpAt(i: Instr): Op {
    match i
    case Mem(opcode, timeslice, _, bank, _) => Do(opcode, timeslice, bank)
    case Nop(_, timeslice) => Wait(timeslice)
    case Jmp(_, _, _) => Visit
    case Unset => Visit
  }

  function Straight(p: seq<Instr>): seq<Op> {
    if p == [] then [] else [OpAt(p[0])] + Straight(p[1..])
  }

  function Turns(n: int, body: seq<Instr>): seq<Op> {
    if n <= 0 then [] else [Visit] + Straight(body) + Turns(n - 1, body)
  }

  /** What is left to do at an instruction with `loop` turns of the current loop behind. */
  function Unrolled(p: seq<Instr>, ip: nat, loop: nat): seq<Op>
    requires Separate(p)
    decreases |p| - ip
  {
    if ip >= |p| then []
    else if p[ip].Jmp? then
      Turns(p[ip].count - loop, p[ip - p[ip].offset..ip]) + [Visit] + Unrolled(p, ip + 1, 0)
    else [OpAt(p[ip])] + Unrolled(p, ip + 1, loop)
  }

  datatype Machine = MachineAt(board: Board, tick: nat, executed: seq<nat>)
  {
    predicate Valid() { board.Valid() && |executed| == MAX }
  }

  datatype Outcome = Violation(tick: nat) | Finished(tick: nat, executed: seq<nat>)

  function Tally(executed: seq<nat>, opcode: nat): seq<nat>
    requires opcode < |executed|
  {
    executed[opcode := executed[opcode] + 1]
  }

  predicate SoundOp(op: Op) { op.Do? ==> IsMem(op.opcode) && op.bank < BANKS }

  predicate Sound(ops: seq<Op>) { forall k :: 0 <= k < |ops| ==> SoundOp(ops[k]) }

  function Command(m: Machine, op: Op): Event
    requires op.Do?
  {
    Event(m.tick, OpOf(op.opcode), op.bank)
  }

  predicate Performs(tm: Timing, m: Machine, op: Op)
    requires m.Valid() && SoundOp(op)
  {
    op.Do? ==> Accepts(tm, m.board, Command(m, op))
  }

  function Perform(tm: Timing, m: Machine, op: Op): (m': Machine)
    requires m.Valid() && SoundOp(op)
    ensures m'.Valid()
  {
    if op.Do? then MachineAt(Next(tm, m.board, Command(m, op)), m.tick + op.timeslice, Tally(m.executed, op.opcode))
    else if op.Wait? then MachineAt(m.board, m.tick + op.timeslice, Tally(m.executed, NOP))
    else MachineAt(m.board, m.tick + 1, Tally(m.executed, JMP))
  }

  /** Running straight-line operations. */
  function Replay(tm: Timing, ops: seq<Op>, m: Machine): Outcome
    requires m.Valid() && Sound(ops)
  {
    if ops == [] then Finished(m.tick, m.executed)
    else
      assert SoundOp(ops[0]);
      if Performs(tm, m, ops[0]) then Replay(tm, ops[1..], Perform(tm, m, ops[0])) else Violation(m.tick)
  }

  function NextJmp(p: seq<Instr>, ip: nat): (j: nat)
    requires ip <= |p|
    ensures ip <= j <= |p| && (j < |p| ==> p[j].Jmp?)
    ensures forall k :: ip <= k < j ==> !p[k].Jmp?
    decreases |p| - ip
  {
    if ip == |p| || p[ip].Jmp? then ip else NextJmp(p, ip + 1)
  }

  lemma NextJmpUnique(p: seq<Instr>, ip: nat, j: nat)
    requires ip <= j < |p| && p[j].Jmp? && JumpFree(p, ip, j)
    ensures NextJmp(p, ip) == j
  {
  }

  /** Turns left before the next jump falls through. */
  function TurnsLeft(p: seq<Instr>, ip: nat, loop: nat): nat
    requires ip <= |p|
  {
    var j := NextJmp(p, ip);
    if j < |p| && loop < p[j].count then p[j].count - loop else 0
  }

  lemma {:induction false} UnrolledStraight(p: seq<Instr>, a: nat, b: nat, loop: nat)
    requires Separate(p) && a <= b && JumpFree(p, a, b)
    ensures Unrolled(p, a, loop) == Straight(p[a..b]) + Unrolled(p, b, loop)
    decreases b - a
  {
    if a < b {
      assert !p[a].Jmp? && JumpFree(p, a + 1, b);
      UnrolledStraight(p, a + 1, b, loop);
      assert p[a..b][0] == p[a] && p[a..b][1..] == p[a + 1..b];
    }
  }

  lemma TurnUnrolls(n: int, body: seq<Instr>, rest: seq<Op>)
    requires n > 0
    ensures Turns(n, body) + rest == [Visit] + (Straight(body) + (Turns(n - 1, body) + rest))
  {
    Regroup([Visit], Straight(body), Turns(n - 1, body), rest);
  }

  lemma JumpAhead(p: seq<Instr>, ip: nat, loop: nat)
    requires Separate(p) && ip < |p| && p[ip].Jmp?
    ensures p[ip].offset <= ip
    ensures Unrolled(p, ip, loop) ==
            Turns(p[ip].count - loop, p[ip - p[ip].offset..ip]) + ([Visit] + Unrolled(p, ip + 1, 0))
  {
  }

  lemma JumpRange(p: seq<Instr>, ip: nat)
    requires Separate(p) && ip < |p| && p[ip].Jmp?
    ensures p[ip].offset <= ip && JumpFree(p, ip - p[ip].offset, ip)
  {
  }

  lemma FromTarget(p: seq<Instr>, ip: nat, loop: nat)
    requires Separate(p) && ip < |p| && p[ip].Jmp?
    ensures p[ip].offset <= ip
    ensures var body := p[ip - p[ip].offset..ip];
            Unrolled(p, ip - p[ip].offset, loop) ==
            Straight(body) + (Turns(p[ip].count - loop, body) + ([Visit] + Unrolled(p, ip + 1, 0)))
  {
    JumpRange(p, ip);
    UnrolledStraight(p, ip - p[ip].offset, ip, loop);
    JumpAhead(p, ip, loop);
  }

  /** Taking a jump does not change what is left to do, except for the visit itself. */
  lemma JumpUnrolls(p: seq<Instr>, ip: nat, loop: nat)
    requires Separate(p) && ip < |p| && p[ip].Jmp? && loop < p[ip].count
    ensures p[ip].offset <= ip
    ensures Unrolled(p, ip, loop) == [Visit] + Unrolled(p, ip - p[ip].offset, loop + 1)
  {
    JumpAhead(p, ip, loop);
    FromTarget(p, ip, loop + 1);
    TurnUnrolls(p[ip].count - loop, p[ip - p[ip].offset..ip], [Visit] + Unrolled(p, ip + 1, 0));
  }

  lemma JumpReturns(p: seq<Instr>, ip: nat)
    requires Separate(p) && ip < |p| && p[ip].Jmp?
    ensures p[ip].offset <= ip && NextJmp(p, ip - p[ip].offset) == ip
  {
    JumpRange(p, ip);
    NextJmpUnique(p, ip - p[ip].offset, ip);
  }

  lemma Regroup<T>(a: seq<T>, b: seq<T>, c: seq<T>, d: seq<T>)
    ensures (a + b + c) + d == a + (b + (c + d))
  {
  }

  lemma {:induction false} StraightSound(p: seq<Instr>)
    requires forall k :: 0 <= k < |p| && p[k].Mem? ==> IsMem(p[k].opcode) && p[k].bank < BANKS
    ensures Sound(Straight(p))
  {
    if p != [] {
      StraightSound(p[1..]);
    }
  }

  lemma {:induction false} TurnsSound(n: int, body: seq<Instr>)
    requires Sound(Straight(body))
    ensures Sound(Turns(n, body))
  {
    if n > 0 {
      TurnsSound(n - 1, body);
    }
  }

  lemma MemBank(ip: nat, i: Instr)
    requires VerifyInstr(ip, i) && i.Mem?
    ensures i.bank < BANKS
  {
    assert Pow2(3) == 8;
  }

  lemma SoundConcat(a: seq<Op>, b: seq<Op>)
    requires Sound(a) && Sound(b)
    ensures Sound(a + b)
  {
  }

  lemma BodySound(p: seq<Instr>, a: nat, b: nat, n: int)
    requires Verified(p) && a <= b <= |p|
    ensures Sound(Turns(n, p[a..b]))
  {
    forall k | 0 <= k < b - a && p[a..b][k].Mem?
      ensures IsMem(p[a..b][k].opcode) && p[a..b][k].bank < BANKS
    {
      assert VerifyInstr(a + k, p[a + k]);
      MemBank(a + k, p[a + k]);
    }
    StraightSound(p[a..b]);
    TurnsSound(n, p[a..b]);
  }

  lemma InstrSound(p: seq<Instr>, ip: nat)
    requires Verified(p) && ip < |p|
    ensures Sound([OpAt(p[ip])])
  {
    assert VerifyInstr(ip, p[ip]);
    if p[ip].Mem? {
      MemBank(ip, p[ip]);
    }
  }

  lemma PlainAhead(p: seq<Instr>, ip: nat, loop: nat)
    requires Separate(p) && ip < |p| && !p[ip].Jmp?
    ensures Unrolled(p, ip, loop) == [OpAt(p[ip])] + Unrolled(p, ip + 1, loop)
  {
  }

  lemma {:induction false} UnrolledSound(p: seq<Instr>, ip: nat, loop: nat)
    requires Separate(p) && Verified(p)
    ensures Sound(Unrolled(p, ip, loop))
    decreases |p| - ip
  {
    if ip < |p| && p[ip].Jmp? {
      UnrolledSound(p, ip + 1, 0);
      JumpSound(p, ip, loop, Unrolled(p, ip + 1, 0));
      JumpAhead(p, ip, loop);
    } else if ip < |p| {
      UnrolledSound(p, ip + 1, loop);
      InstrSound(p, ip);
      SoundConcat([OpAt(p[ip])], Unrolled(p, ip + 1, loop));
      PlainAhead(p, ip, loop);
    }
  }

  lemma JumpSound(p: seq<Instr>, ip: nat, loop: nat, rest: seq<Op>)
    requires Verified(p) && ip < |p| && p[ip].Jmp? && p[ip].offset <= ip && Sound(rest)
    ensures Sound(Turns(p[ip].count - loop, p[ip - p[ip].offset..ip]) + ([Visit] + rest))
  {
    BodySound(p, ip - p[ip].offset, ip, p[ip].count - loop);
    SoundConcat([Visit], rest);
    SoundConcat(Turns(p[ip].count - loop, p[ip - p[ip].offset..ip]), [Visit] + rest);
  }

  // ------------------------------------------------------- The run loop

  function Zero(): seq<nat> { seq(MAX, _ => 0) }

  function Initial(): Machine { MachineAt(Start(), 0, Zero()) }

  lemma ReplayHead(tm: Timing, op: Op, rest: seq<Op>, m: Machine)
    requires m.Valid() && Sound([op] + rest)
    ensures Sound(rest) && SoundOp(op)
    ensures Replay(tm, [op] + rest, m) ==
            if Performs(tm, m, op) then Replay(tm, rest, Perform(tm, m, op)) else Violation(m.tick)
  {
    var ops := [op] + rest;
    assert ops[0] == op && ops[1..] == rest;
    forall k | 0 <= k < |rest|
      ensures SoundOp(rest[k])
    {
      assert rest[k] == ops[k + 1];
    }
  }

  /** At this point of the run the whole program's outcome is that of what is left. */
  ghost predicate OnTrack(tm: Timing, p: seq<Instr>, ip: nat, loop: nat, m: Machine)
    requires Separate(p) && Verified(p)
  {
    && ip <= |p| && m.Valid()
    && Sound(Unrolled(p, 0, 0)) && Sound(Unrolled(p, ip, loop))
    && Replay(tm, Unrolled(p, 0, 0), Initial()) == Replay(tm, Unrolled(p, ip, loop), m)
  }

  predicate Taken(p: seq<Instr>, ip: nat, loop: nat)
    requires ip < |p|
  {
    p[ip].Jmp? && loop < p[ip].count
  }

  function NextIp(p: seq<Instr>, ip: nat, loop: nat): nat
    requires ip < |p| && (p[ip].Jmp? ==> p[ip].offset <= ip)
  {
    if Taken(p, ip, loop) then ip - p[ip].offset else ip + 1
  }

  function NextLoop(p: seq<Instr>, ip: nat, loop: nat): nat
    requires ip < |p|
  {
    if Taken(p, ip, loop) then loop + 1 else if p[ip].Jmp? then 0 else loop
  }

  /** The measure of the run: jumps ahead, turns left of the next one, distance to the end. */
  predicate Closer(p: seq<Instr>, ip: nat, loop: nat, ip': nat, loop': nat) {
    && ip <= |p| && ip' <= |p|
    && (NextJmp(p, ip) < NextJmp(p, ip')
        || (NextJmp(p, ip) == NextJmp(p, ip')
            && (TurnsLeft(p, ip', loop') < TurnsLeft(p, ip, loop)
                || (TurnsLeft(p, ip', loop') == TurnsLeft(p, ip, loop) && ip < ip'))))
  }

  /** One turn of the run loop keeps on track and gets closer to the end. */
  lemma Advance(tm: Timing, p: seq<Instr>, ip: nat, loop: nat, m: Machine)
    requires Separate(p) && Verified(p) && OnTrack(tm, p, ip, loop, m) && ip < |p|
    ensures SoundOp(OpAt(p[ip]))
    ensures !Performs(tm, m, OpAt(p[ip])) ==> Replay(tm, Unrolled(p, 0, 0), Initial()) == Violation(m.tick)
    ensures Performs(tm, m, OpAt(p[ip])) ==>
              OnTrack(tm, p, NextIp(p, ip, loop), NextLoop(p, ip, loop), Perform(tm, m, OpAt(p[ip])))
    ensures Closer(p, ip, loop, NextIp(p, ip, loop), NextLoop(p, ip, loop))
  {
    var op := OpAt(p[ip]);
    if Taken(p, ip, loop) {
      JumpUnrolls(p, ip, loop);
      JumpReturns(p, ip);
      ReplayHead(tm, op, Unrolled(p, ip - p[ip].offset, loop + 1), m);
    } else if p[ip].Jmp? {
      assert Unrolled(p, ip, loop) == [op] + Unrolled(p, ip + 1, 0);
      ReplayHead(tm, op, Unrolled(p, ip + 1, 0), m);
    } else {
      ReplayHead(tm, op, Unrolled(p, ip + 1, loop), m);
    }
  }

  /** The mutable state of a run. */
  class State {
    var ip: nat
    var tick: nat
    var loop: nat
    var executed: seq<nat>
    const rank: Rank

    ghost predicate Valid()
      reads this, rank, rank.banks
    {
      rank.Valid() && |executed| == MAX
    }

    ghost function Current(): (m: Machine)
      requires Valid()
      reads this, rank, rank.banks
      ensures m.Valid()
    {
      MachineAt(rank.State(), tick, executed)
    }

    constructor (tm: Timing)
      ensures Valid() && fresh(rank) && (forall i :: 0 <= i < |rank.banks| ==> fresh(rank.banks[i]))
      ensures rank.timing == tm && ip == 0 && loop == 0 && Current() == Initial()
    {
      ip, tick, loop, executed := 0, 0, 0, Zero();
      rank := new Rank(tm);
    }

    method TurnMem(instr: Instr) returns (ok: bool)
      requires Valid() && instr.Mem? && VerifyInstr(ip, instr)
      modifies this, rank, rank.banks
      ensures Valid() && SoundOp(OpAt(instr)) && loop == old(loop)
      ensures ok <==> Performs(rank.timing, old(Current()), OpAt(instr))
      ensures ok ==> Current() == Perform(rank.timing, old(Current()), OpAt(instr)) && ip == old(ip) + 1
      ensures !ok ==> tick == old(tick)
    {
      MemBank(ip, instr);
      ok := rank.Execute(tick, OpOf(instr.opcode), instr.bank);
      if ok {
        tick := tick + instr.timeslice;
        ip := ip + 1;
        executed := Tally(executed, instr.opcode);
      }
    }

    method TurnJmp(instr: Instr)
      requires Valid() && instr.Jmp? && VerifyInstr(ip, instr)
      modifies `ip, `tick, `loop, `executed
      ensures Valid() && Current() == old(Current()).(tick := old(tick) + 1, executed := Tally(old(executed), JMP))
      ensures ip == (if old(loop) < instr.count then old(ip) - instr.offset else old(ip) + 1)
      ensures loop == (if old(loop) < instr.count then old(loop) + 1 else 0)
    {
      tick := tick + 1;
      if loop < instr.count {
        ip := ip - instr.offset;
        loop := loop + 1;
      } else {
        ip := ip + 1;
        loop := 0;
      }
      executed := Tally(executed, instr.opcode);
    }

    method TurnNop(instr: Instr)
      requires Valid() && instr.Nop? && VerifyInstr(ip, instr)
      modifies `ip, `tick, `executed
      ensures Valid() && ip == old(ip) + 1
      ensures Current() == old(Current()).(tick := old(tick) + instr.timeslice, executed := Tally(old(executed), NOP))
    {
      tick := tick + instr.timeslice;
      ip := ip + 1;
      executed := Tally(executed, instr.opcode);
    }

    /** One turn of the loop; false ends the run with a violation. */
    method Turn(p: seq<Instr>) returns (ok: bool)
      requires Valid() && ip < |p| && VerifyInstr(ip, p[ip])
      modifies this, rank, rank.banks
      ensures Valid() && SoundOp(OpAt(p[old(ip)]))
      ensures ok <==> Performs(rank.timing, old(Current()), OpAt(p[old(ip)]))
      ensures ok ==> Current() == Perform(rank.timing, old(Current()), OpAt(p[old(ip)]))
      ensures ok ==> ip == NextIp(p, old(ip), old(loop)) && loop == NextLoop(p, old(ip), old(loop))
      ensures !ok ==> tick == old(tick)
    {
      var instr := p[ip];
      ok := true;
      if instr.Mem? {
        ok := TurnMem(instr);
      } else if instr.Nop? {
        TurnNop(instr);
      } else {
        TurnJmp(instr);
      }
    }
  }

  /** The loop of `main`: it terminates, stays inside the program, and has the outcome, final tick
      and opcode counts of the fully unrolled program. */
  method Run(tm: Timing, p: seq<Instr>) returns (outcome: Outcome)
    requires Separate(p) && Verified(p)
    ensures Sound(Unrolled(p, 0, 0))
    ensures outcome == Replay(tm, Unrolled(p, 0, 0), Initial())
  {
    var state := new State(tm);
    UnrolledSound(p, 0, 0);
    while state.ip < |p|
      invariant state.Valid() && state.rank.timing == tm
      invariant fresh(state) && fresh(state.rank) && (forall i :: 0 <= i < |state.rank.banks| ==> fresh(state.rank.banks[i]))
      invariant OnTrack(tm, p, state.ip, state.loop, state.Current())
      decreases |p| - NextJmp(p, state.ip), TurnsLeft(p, state.ip, state.loop), |p| - state.ip
    {
      Advance(tm, p, state.ip, state.loop, state.Current());
      var ok := state.Turn(p);
      if !ok {
        return Violation(state.tick);
      }
    }
    outcome := Finished(state.tick, state.executed);
  }
}
