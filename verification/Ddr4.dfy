/** The DDR4 timing scoreboard: a rank of bank groups, which keep long and short turnarounds. */
module Ddr4 {
  import opened Ddr3

  datatype Timing4 = Timing4(ras: nat, rp: nat, rfc: nat, rcd: nat, ccdS: nat, ccdL: nat, rtp: nat,
                             rrdS: nat, rrdL: nat, faw: nat)

  const GROUPS: nat := 4
  const BANKS_PER_GROUP: nat := 4
  const ALL_BANKS: nat := 16

  /** Banks are numbered through all groups. */
  function GroupOf(bank: nat): nat { bank / BANKS_PER_GROUP }

  /** The parameters shared with DDR3, without turnarounds at the rank. */
  function Base(tm: Timing4): Timing {
    Timing(tm.ras, tm.rp, tm.rfc, tm.rcd, 0, tm.rtp, 0, tm.faw)
  }

  function RankParameters4(tm: Timing4, op: Opcode): seq<(Opcode, Tick)> {
    match op
    case RD => []
    case ACT => [(REF, Never)]
    case PRE => [(REF, At(tm.rp))]
    case REF => [(ACT, At(tm.rfc)), (PRE, At(tm.rfc)), (REF, At(tm.rfc))]
  }

  /** The entries of a bank group. */
  datatype Turnaround = Turnaround(rd: int, act: int)

  predicate Ready(g: Turnaround, op: Opcode, tick: int) {
    (op == RD ==> tick >= g.rd) && (op == ACT ==> tick >= g.act)
  }

  /** A command overwrites the entries, in its own group with the long parameter. */
  function Turned(tm: Timing4, g: Turnaround, op: Opcode, tick: int, own: bool): Turnaround {
    match op
    case RD => g.(rd := tick + if own then tm.ccdL else tm.ccdS)
    case ACT => g.(act := tick + if own then tm.rrdL else tm.rrdS)
    case PRE => g
    case REF => g
  }

  datatype Board4 = Board4(rank: Scores, groups: seq<Turnaround>, banks: seq<Scores>, acts: seq<int>)
  {
    predicate Valid() { |groups| == GROUPS && |banks| == ALL_BANKS }
  }

  function Start4(): (b: Board4)
    ensures b.Valid()
  {
    Board4(RankStart(), seq(GROUPS, _ => Turnaround(0, 0)), seq(ALL_BANKS, _ => BankStart()), [])
  }

  predicate Accepts4(tm: Timing4, b: Board4, e: Event)
    requires b.Valid() && e.bank < ALL_BANKS
  {
    && Free(b.rank, e.op, e.tick)
    && (e.op == ACT && |b.acts| == ACTS_KEPT ==> e.tick - b.acts[0] >= tm.faw)
    && Ready(b.groups[GroupOf(e.bank)], e.op, e.tick)
    && Free(b.banks[e.bank], e.op, e.tick)
  }

  function TurnedAll(tm: Timing4, groups: seq<Turnaround>, e: Event): (r: seq<Turnaround>)
    ensures |r| == |groups|
  {
    seq(|groups|, g requires 0 <= g < |groups| => Turned(tm, groups[g], e.op, e.tick, g == GroupOf(e.bank)))
  }

  function Next4(tm: Timing4, b: Board4, e: Event): (b': Board4)
    requires b.Valid() && e.bank < ALL_BANKS
    ensures b'.Valid()
  {
    Board4(Raise(b.rank, RankParameters4(tm, e.op), e.tick),
           TurnedAll(tm, b.groups, e),
           b.banks[e.bank := Raise(b.banks[e.bank], BankParameters(Base(tm), e.op), e.tick)],
           if e.op == ACT then Push(b.acts, e.tick) else b.acts)
  }

  // ------------------------------------------------------- The objects of the checker

  class BankGroup {
    const timing: Timing4
    var nextTick: Turnaround
    const banks: seq<Bank>

    ghost predicate Valid()
    {
      |banks| == BANKS_PER_GROUP && forall i :: 0 <= i < |banks| ==> banks[i].timing == Base(timing)
    }

    constructor (timing: Timing4, banks: seq<Bank>)
      requires |banks| == BANKS_PER_GROUP && forall i :: 0 <= i < |banks| ==> banks[i].timing == Base(timing)
      ensures Valid() && this.timing == timing && this.banks == banks && nextTick == Turnaround(0, 0)
    {
      this.timing := timing;
      this.banks := banks;
      nextTick := Turnaround(0, 0);
    }

    method Execute(tick: int, op: Opcode, bank: nat) returns (ok: bool)
      requires Valid() && bank < |banks|
      modifies this, banks[bank]
      ensures ok <==> Ready(old(nextTick), op, tick) && Free(old(banks[bank].nextTick), op, tick)
      ensures ok ==> nextTick == Turned(timing, old(nextTick), op, tick, true)
      ensures ok ==> banks[bank].nextTick == Raise(old(banks[bank].nextTick), BankParameters(Base(timing), op), tick)
    {
      if (op == RD && tick < nextTick.rd) || (op == ACT && tick < nextTick.act) {
        return false;
      }
      ok := banks[bank].Execute(tick, op);
      if ok {
        match op
        case RD => nextTick := nextTick.(rd := tick + timing.ccdL);
        case ACT => nextTick := nextTick.(act := tick + timing.rrdL);
        case _ =>
      }
    }

    /** A command in another group: the next one of its kind must wait for the short parameter, and only
        for that; all others may come when they could before. */
    method Update(tick: int, op: Opcode)
      modifies `nextTick
      ensures nextTick == Turned(timing, old(nextTick), op, tick, false)
      ensures forall next: Opcode, at: int ::
                Ready(nextTick, next, at) <==>
                if op == next == RD then at >= tick + timing.ccdS
                else if op == next == ACT then at >= tick + timing.rrdS
                else Ready(old(nextTick), next, at)
    {
      match op
      case RD => nextTick := nextTick.(rd := tick + timing.ccdS);
      case ACT => nextTick := nextTick.(act := tick + timing.rrdS);
      case _ =>
    }
  }

  class Rank4 {
    const timing: Timing4
    var nextTick: Scores
    var prevActs: seq<int>
    const groups: seq<BankGroup>
    ghost const banks: seq<Bank>

    ghost predicate Valid()
      reads this, groups, banks
    {
      && |groups| == GROUPS && |banks| == ALL_BANKS
      && (forall i, j :: 0 <= i < j < GROUPS ==> groups[i] != groups[j])
      && (forall i, j :: 0 <= i < j < ALL_BANKS ==> banks[i] != banks[j])
      && (forall g :: 0 <= g < GROUPS ==> groups[g].timing == timing && groups[g].Valid())
      && (forall g, i :: 0 <= g < GROUPS && 0 <= i < BANKS_PER_GROUP ==>
            groups[g].banks[i] == banks[g * BANKS_PER_GROUP + i])
    }

    ghost function State(): (b: Board4)
      requires Valid()
      reads this, groups, banks
      ensures b.Valid()
    {
      Board4(nextTick,
             seq(GROUPS, g requires 0 <= g < GROUPS reads this, groups => groups[g].nextTick),
             seq(ALL_BANKS, i requires 0 <= i < ALL_BANKS reads this, banks => banks[i].nextTick),
             prevActs)
    }

    constructor (timing: Timing4)
      ensures Valid() && fresh(this)
      ensures (forall g :: 0 <= g < |groups| ==> fresh(groups[g])) && (forall i :: 0 <= i < |banks| ==> fresh(banks[i]))
      ensures this.timing == timing && State() == Start4()
    {
      var bs: seq<Bank> := [];
      var gs: seq<BankGroup> := [];
      for i := 0 to ALL_BANKS
        invariant |bs| == i && (forall j, k :: 0 <= j < k < i ==> bs[j] != bs[k])
        invariant forall j :: 0 <= j < i ==> fresh(bs[j]) && bs[j].timing == Base(timing) && bs[j].nextTick == BankStart()
      {
        var bank := new Bank(Base(timing));
        bs := bs + [bank];
      }
      for g := 0 to GROUPS
        invariant |gs| == g && (forall j, k :: 0 <= j < k < g ==> gs[j] != gs[k])
        invariant forall j :: 0 <= j < ALL_BANKS ==> fresh(bs[j]) && bs[j].nextTick == BankStart()
        invariant forall j :: 0 <= j < g ==>
          fresh(gs[j]) && gs[j].timing == timing && gs[j].Valid() && gs[j].nextTick == Turnaround(0, 0)
        invariant forall j, i :: 0 <= j < g && 0 <= i < BANKS_PER_GROUP ==> gs[j].banks[i] == bs[j * BANKS_PER_GROUP + i]
      {
        var group := new BankGroup(timing, bs[g * BANKS_PER_GROUP..(g + 1) * BANKS_PER_GROUP]);
        gs := gs + [group];
      }
      this.timing := timing;
      nextTick := RankStart();
      prevActs := [];
      groups := gs;
      banks := bs;
      new;
      assert State().groups == Start4().groups;
      assert State().banks == Start4().banks;
    }

    method RaiseAll(tick: int, op: Opcode)
      modifies `nextTick
      ensures nextTick == Raise(old(nextTick), RankParameters4(timing, op), tick)
    {
      var ps := RankParameters4(timing, op);
      for i := 0 to |ps|
        invariant Raise(old(nextTick), ps, tick) == Raise(nextTick, ps[i..], tick)
      {
        nextTick := nextTick.Set(ps[i].0, Later(nextTick.Get(ps[i].0), tick, ps[i].1));
      }
    }

    /** All bank groups but the one of the command. */
    method UpdateOthers(tick: int, op: Opcode, group: nat)
      requires Valid() && group < GROUPS
      modifies groups
      ensures Valid() && groups[group].nextTick == old(groups[group].nextTick)
      ensures forall g :: 0 <= g < GROUPS && g != group ==>
                groups[g].nextTick == Turned(timing, old(groups[g].nextTick), op, tick, false)
    {
      for g := 0 to GROUPS
        invariant Valid() && groups[group].nextTick == old(groups[group].nextTick)
        invariant forall k :: g <= k < GROUPS ==> groups[k].nextTick == old(groups[k].nextTick)
        invariant forall k :: 0 <= k < g && k != group ==>
          groups[k].nextTick == Turned(timing, old(groups[k].nextTick), op, tick, false)
      {
        if g != group {
          groups[g].Update(tick, op);
        }
      }
    }

    /** Executes a command at a tick; a violation leaves the run, so the state after one is unused. */
    method Execute(tick: int, op: Opcode, group: nat, bank: nat) returns (ok: bool)
      requires Valid() && group < GROUPS && bank < BANKS_PER_GROUP
      modifies this, groups, banks
      ensures Valid()
      ensures var e := Event(tick, op, group * BANKS_PER_GROUP + bank);
              && (ok <==> Accepts4(timing, old(State()), e))
              && (ok ==> State() == Next4(timing, old(State()), e))
    {
      ghost var b := State();
      ghost var e := Event(tick, op, group * BANKS_PER_GROUP + bank);
      if nextTick.Get(op).Never? || tick < nextTick.Get(op).tick {
        return false;
      }
      if op == ACT {
        if |prevActs| == ACTS_KEPT && tick - prevActs[0] < timing.faw {
          return false;
        }
        prevActs := Push(prevActs, tick);
      }
      assert b.banks[e.bank] == banks[e.bank].nextTick && b.groups[group] == groups[group].nextTick;
      ok := groups[group].Execute(tick, op, bank);
      if !ok {
        return;
      }
      UpdateOthers(tick, op, group);
      RaiseAll(tick, op);
      assert State().banks == Next4(timing, b, e).banks;
      assert State().groups == Next4(timing, b, e).groups;
    }
  }
}
