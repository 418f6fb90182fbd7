/** The DDR3 timing scoreboard and the all-pairs rule it caches. */
module Ddr3 {

  datatype Opcode = RD | ACT | PRE | REF

  /** An entry of `next_tick`; Never is infinity. */
  datatype Tick = At(tick: int) | Never

  datatype Timing = Timing(ras: nat, rp: nat, rfc: nat, rcd: nat, ccd: nat, rtp: nat, rrd: nat, faw: nat)

  /** The `next_tick` dictionary with its four keys. */
  datatype Scores = Scores(rd: Tick, act: Tick, pre: Tick, ref: Tick)
  {
    function Get(op: Opcode): Tick {
      match op case RD => rd case ACT => act case PRE => pre case REF => ref
    }
    function Set(op: Opcode, entry: Tick): Scores {
      match op
      case RD => this.(rd := entry)
      case ACT => this.(act := entry)
      case PRE => this.(pre := entry)
      case REF => this.(ref := entry)
    }
  }

  const BANKS: nat := 8
  const ACTS_KEPT: nat := 4

  function RankParameters(tm: Timing, op: Opcode): seq<(Opcode, Tick)> {
    match op
    case RD => [(RD, At(tm.ccd))]
    case ACT => [(ACT, At(tm.rrd)), (REF, Never)]
    case PRE => [(REF, At(tm.rp))]
    case REF => [(ACT, At(tm.rfc)), (PRE, At(tm.rfc)), (REF, At(tm.rfc))]
  }

  function BankParameters(tm: Timing, op: Opcode): seq<(Opcode, Tick)> {
    match op
    case RD => [(PRE, At(tm.rtp))]
    case ACT => [(RD, At(tm.rcd)), (ACT, Never), (PRE, At(tm.ras))]
    case PRE => [(RD, Never), (ACT, At(tm.rp))]
    case REF => []
  }

  function RankStart(): Scores { Scores(At(0), At(0), At(0), At(0)) }
  function BankStart(): Scores { Scores(Never, At(0), At(0), At(0)) }

  predicate Free(m: Scores, op: Opcode, tick: int) {
    m.Get(op).At? && m.Get(op).tick <= tick
  }

  /** The entry after a command at `tick`: an infinite entry is overwritten, a finite one raised. */
  function Later(entry: Tick, tick: int, parameter: Tick): Tick {
    if parameter.Never? then Never
    else if entry.Never? || entry.tick < tick + parameter.tick then At(tick + parameter.tick)
    else entry
  }

  function Raise(m: Scores, ps: seq<(Opcode, Tick)>, tick: int): Scores
    decreases |ps|
  {
    if ps == [] then m else Raise(m.Set(ps[0].0, Later(m.Get(ps[0].0), tick, ps[0].1)), ps[1..], tick)
  }

  /** The scoreboard: rank entries, bank entries, and the ticks of the last four activations. */
  datatype Board = Board(rank: Scores, banks: seq<Scores>, acts: seq<int>)
  {
    predicate Valid() { |banks| == BANKS }
  }

  function Start(): (b: Board)
    ensures b.Valid()
  {
    Board(RankStart(), seq(BANKS, _ => BankStart()), [])
  }

  datatype Event = Event(tick: int, op: Opcode, bank: nat)

  function Push(acts: seq<int>, tick: int): seq<int> {
    (if |acts| == ACTS_KEPT then acts[1..] else acts) + [tick]
  }

  predicate Accepts(tm: Timing, b: Board, e: Event)
    requires b.Valid() && e.bank < BANKS
  {
    && Free(b.rank, e.op, e.tick)
    && (e.op == ACT && |b.acts| == ACTS_KEPT ==> e.tick - b.acts[0] >= tm.faw)
    && Free(b.banks[e.bank], e.op, e.tick)
  }

  function Next(tm: Timing, b: Board, e: Event): (b': Board)
    requires b.Valid() && e.bank < BANKS
    ensures b'.Valid()
  {
    Board(Raise(b.rank, RankParameters(tm, e.op), e.tick),
          b.banks[e.bank := Raise(b.banks[e.bank], BankParameters(tm, e.op), e.tick)],
          if e.op == ACT then Push(b.acts, e.tick) else b.acts)
  }

  // ------------------------------------------------------- The objects of the checker

  class Bank {
    const timing: Timing
    var nextTick: Scores

    constructor (timing: Timing)
      ensures this.timing == timing && nextTick == BankStart()
    {
      this.timing := timing;
      nextTick := BankStart();
    }

    method Execute(tick: int, op: Opcode) returns (ok: bool)
      modifies this
      ensures ok <==> Free(old(nextTick), op, tick)
      ensures nextTick == if ok then Raise(old(nextTick), BankParameters(timing, op), tick) else old(nextTick)
    {
      if nextTick.Get(op).Never? || tick < nextTick.Get(op).tick {
        return false;
      }
      var ps := BankParameters(timing, op);
      for i := 0 to |ps|
        invariant Raise(old(nextTick), ps, tick) == Raise(nextTick, ps[i..], tick)
      {
        nextTick := nextTick.Set(ps[i].0, Later(nextTick.Get(ps[i].0), tick, ps[i].1));
      }
      ok := true;
    }
  }

  class Rank {
    const timing: Timing
    var nextTick: Scores
    var prevActs: seq<int>
    const banks: seq<Bank>

    ghost predicate Valid()
      reads this, banks
    {
      && |banks| == BANKS && (forall i, j :: 0 <= i < j < BANKS ==> banks[i] != banks[j])
      && forall i :: 0 <= i < BANKS ==> banks[i].timing == timing
    }

    ghost function State(): (b: Board)
      requires Valid()
      reads this, banks
      ensures b.Valid()
    {
      Board(nextTick, seq(BANKS, i requires 0 <= i < BANKS reads this, banks => banks[i].nextTick), prevActs)
    }

    constructor (timing: Timing)
      ensures Valid() && fresh(this) && (forall i :: 0 <= i < |banks| ==> fresh(banks[i]))
      ensures this.timing == timing && State() == Start()
    {
      var bs: seq<Bank> := [];
      for i := 0 to BANKS
        invariant |bs| == i && (forall j, k :: 0 <= j < k < i ==> bs[j] != bs[k])
        invariant forall j :: 0 <= j < i ==> fresh(bs[j]) && bs[j].timing == timing && bs[j].nextTick == BankStart()
      {
        var bank := new Bank(timing);
        bs := bs + [bank];
      }
      this.timing := timing;
      nextTick := RankStart();
      prevActs := [];
      banks := bs;
    }

    method RaiseAll(tick: int, op: Opcode)
      modifies `nextTick
      ensures nextTick == Raise(old(nextTick), RankParameters(timing, op), tick)
    {
      var ps := RankParameters(timing, op);
      for i := 0 to |ps|
        invariant Raise(old(nextTick), ps, tick) == Raise(nextTick, ps[i..], tick)
      {
        nextTick := nextTick.Set(ps[i].0, Later(nextTick.Get(ps[i].0), tick, ps[i].1));
      }
    }

    /** Executes a command at a tick; a violation leaves the run, so the state after one is unused. */
    method Execute(tick: int, op: Opcode, bank: nat) returns (ok: bool)
      requires Valid() && bank < BANKS
      modifies this, banks
      ensures Valid()
      ensures ok <==> Accepts(timing, old(State()), Event(tick, op, bank))
      ensures ok ==> State() == Next(timing, old(State()), Event(tick, op, bank))
    {
      ghost var b := State();
      if nextTick.Get(op).Never? || tick < nextTick.Get(op).tick {
        return false;
      }
      if op == ACT {
        if |prevActs| == ACTS_KEPT && tick - prevActs[0] < timing.faw {
          return false;
        }
        prevActs := Push(prevActs, tick);
      }
      assert b.banks[bank] == banks[bank].nextTick;
      ok := banks[bank].Execute(tick, op);
      if !ok {
        return;
      }
      RaiseAll(tick, op);
      assert State().banks == b.banks[bank := Raise(b.banks[bank], BankParameters(timing, op), tick)];
    }
  }
}
