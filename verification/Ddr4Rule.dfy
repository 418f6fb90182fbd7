/** The DDR4 scoreboard against the all-pairs rule. It overwrites the entries of a bank group instead
    of taking maxima, which is enough exactly when a long turnaround is at most two short ones. */
module Ddr4Rule {
  import opened Ddr3
  import opened Ddr3Rule
  import opened Ddr4

  /** The distance from an earlier command in one bank to a later one in a group. */
  function Gap(bank: nat, group: nat, short: nat, long: nat): nat {
    if GroupOf(bank) == group then long else short
  }

  /** Every earlier `op` keeps its distance: the long one within the bank group, else the short one. */
  predicate Apart(h: seq<Event>, group: nat, op: Opcode, short: nat, long: nat, tick: int) {
    forall i :: 0 <= i < |h| && h[i].op == op ==> tick >= h[i].tick + Gap(h[i].bank, group, short, long)
  }

  /** The rule, as that of DDR3 but with turnarounds that depend on the bank group. */
  predicate Allowed4(tm: Timing4, h: seq<Event>, e: Event) {
    match e.op
    case RD =>
      && Open(h, e.bank) && AfterOn(h, e.bank, ACT, tm.rcd, e.tick)
      && Apart(h, GroupOf(e.bank), RD, tm.ccdS, tm.ccdL, e.tick)
    case ACT =>
      && !Open(h, e.bank) && AfterOn(h, e.bank, PRE, tm.rp, e.tick)
      && Apart(h, GroupOf(e.bank), ACT, tm.rrdS, tm.rrdL, e.tick) && After(h, REF, tm.rfc, e.tick)
      && ActsWithin(h, e.tick, tm.faw) < 4
    case PRE =>
      && AfterOn(h, e.bank, ACT, tm.ras, e.tick) && AfterOn(h, e.bank, RD, tm.rtp, e.tick)
      && After(h, REF, tm.rfc, e.tick)
    case REF =>
      && !Active(h) && After(h, PRE, tm.rp, e.tick) && After(h, REF, tm.rfc, e.tick)
  }

  predicate Legal4(tm: Timing4, h: seq<Event>) {
    h == [] || (Legal4(tm, h[..|h| - 1]) && Allowed4(tm, h[..|h| - 1], h[|h| - 1]))
  }

  predicate BanksExist4(h: seq<Event>) { forall i :: 0 <= i < |h| ==> h[i].bank < ALL_BANKS }

  function Scored4(tm: Timing4, h: seq<Event>): (b: Board4)
    requires BanksExist4(h)
    ensures b.Valid()
  {
    if h == [] then Start4() else Next4(tm, Scored4(tm, h[..|h| - 1]), h[|h| - 1])
  }

  predicate Accepted4(tm: Timing4, h: seq<Event>)
    requires BanksExist4(h)
  {
    h == [] || (Accepted4(tm, h[..|h| - 1]) && Accepts4(tm, Scored4(tm, h[..|h| - 1]), h[|h| - 1]))
  }

  predicate Doubled(tm: Timing4) { tm.ccdL <= 2 * tm.ccdS && tm.rrdL <= 2 * tm.rrdS }

  /** The rule is that of the parameters shared with DDR3, and the turnarounds within and across the groups. */
  lemma Allowed4Parts(tm: Timing4, h: seq<Event>, e: Event)
    requires NotBefore(h, e.tick)
    ensures Allowed4(tm, h, e) <==>
            && Allowed(Base(tm), h, e)
            && (e.op == RD ==> Apart(h, GroupOf(e.bank), RD, tm.ccdS, tm.ccdL, e.tick))
            && (e.op == ACT ==> Apart(h, GroupOf(e.bank), ACT, tm.rrdS, tm.rrdL, e.tick))
  {
  }

  lemma {:induction false} LegalBase(tm: Timing4, h: seq<Event>)
    requires Ordered(h) && Legal4(tm, h)
    ensures Legal(Base(tm), h)
  {
    if h != [] {
      PrefixOrdered(h, h[|h| - 1].tick);
      Allowed4Parts(tm, h[..|h| - 1], h[|h| - 1]);
      LegalBase(tm, h[..|h| - 1]);
    }
  }

  // ------------------------------------------------------- The parts of the scoreboard

  function RankScored4(tm: Timing4, h: seq<Event>): Scores {
    if h == [] then RankStart()
    else
      var e := h[|h| - 1];
      Raise(RankScored4(tm, h[..|h| - 1]), RankParameters4(tm, e.op), e.tick)
  }

  function GroupScored(tm: Timing4, h: seq<Event>, group: nat): Turnaround {
    if h == [] then Turnaround(0, 0)
    else
      var e := h[|h| - 1];
      Turned(tm, GroupScored(tm, h[..|h| - 1], group), e.op, e.tick, group == GroupOf(e.bank))
  }

  lemma {:induction false} ScoredParts4(tm: Timing4, h: seq<Event>, bank: nat)
    requires BanksExist4(h) && bank < ALL_BANKS
    ensures var b := Scored4(tm, h);
            && b.rank == RankScored4(tm, h) && b.groups[GroupOf(bank)] == GroupScored(tm, h, GroupOf(bank))
            && b.banks[bank] == BankScored(Base(tm), h, bank) && b.acts == ActsScored(h)
  {
    if h != [] {
      ScoredParts4(tm, h[..|h| - 1], bank);
    }
  }

  lemma RankRaised4(tm: Timing4, m: Scores, op: Opcode, tick: int)
    ensures Raise(m, RankParameters4(tm, op), tick) ==
            match op
            case RD => m
            case ACT => m.(ref := Never)
            case PRE => m.(ref := Later(m.ref, tick, At(tm.rp)))
            case REF => Raise(m, RankParameters(Base(tm), REF), tick)
  {
    var never := (REF, Never);
    match op
    case RD =>
    case ACT => RaiseThree(m, never, never, never, tick);
    case PRE => RaiseThree(m, (REF, At(tm.rp)), never, never, tick);
    case REF =>
  }

  lemma RankStep4(tm: Timing4, m: Scores, e: Event, tick: int, pre: bool, ref: bool, active: bool)
    requires RankReads(m, tick, true, true, pre, ref, active)
    requires e.op == PRE && active && tick >= e.tick + tm.rp ==> pre && ref
    requires e.op == REF ==> !active
    ensures RankReads(Raise(m, RankParameters4(tm, e.op), e.tick), tick, true, true,
                      pre && (e.op == PRE ==> tick >= e.tick + tm.rp), ref && (e.op == REF ==> tick >= e.tick + tm.rfc),
                      if e.op == ACT then true else if e.op == PRE then false else active)
  {
    RankRaised4(tm, m, e.op, e.tick);
    if e.op == REF {
      RankStep(Base(tm), m, e, tick, true, true, pre, ref, active);
    }
  }

  /** The rank keeps only the refresh rules. */
  lemma {:induction false} RankMeans4(tm: Timing4, h: seq<Event>, tick: int)
    requires Ordered(h) && NotBefore(h, tick) && Legal(Base(tm), h) && tick >= 0
    ensures RankReads(RankScored4(tm, h), tick, true, true, After(h, PRE, tm.rp, tick), After(h, REF, tm.rfc, tick),
                      Active(h))
  {
    if h != [] {
      var n := |h| - 1;
      var h', e := h[..n], h[n];
      PrefixOrdered(h, tick);
      RankMeans4(tm, h', tick);
      if e.op == PRE && Active(h') && tick >= e.tick + tm.rp {
        ActiveAfterRefresh(Base(tm), h', e.tick);
        Distant(h', 0, PRE, tm.rp, e.tick, tick);
      }
      AfterSnoc(h, PRE, tm.rp, tick);
      AfterSnoc(h, REF, tm.rfc, tick);
      assert e.op == REF ==> !Active(h');
      RankStep4(tm, RankScored4(tm, h'), e, tick, After(h', PRE, tm.rp, tick), After(h', REF, tm.rfc, tick), Active(h'));
    }
  }

  lemma ApartSnoc(h: seq<Event>, group: nat, op: Opcode, short: nat, long: nat, tick: int)
    requires h != []
    ensures var e := h[|h| - 1];
            Apart(h, group, op, short, long, tick) <==>
            && Apart(h[..|h| - 1], group, op, short, long, tick)
            && (e.op == op ==> tick >= e.tick + Gap(e.bank, group, short, long))
  {
    var n := |h| - 1;
    assert forall i :: 0 <= i < n ==> h[..n][i] == h[i];
  }

  /** Two short gaps make a long one: only the last command of the kind has to be looked at. */
  lemma LastDecides(h: seq<Event>, e: Event, group: nat, op: Opcode, short: nat, long: nat, tick: int)
    requires long <= 2 * short && e.tick <= tick && Apart(h, GroupOf(e.bank), op, short, long, e.tick)
    requires tick >= e.tick + Gap(e.bank, group, short, long)
    ensures Apart(h, group, op, short, long, tick)
  {
  }

  /** A group entry is reached exactly when all pairs with the history keep their gaps. */
  lemma {:induction false} GroupMeans(tm: Timing4, h: seq<Event>, group: nat, tick: int)
    requires Ordered(h) && NotBefore(h, tick) && Legal4(tm, h) && tick >= 0 && Doubled(tm)
    ensures tick >= GroupScored(tm, h, group).rd <==> Apart(h, group, RD, tm.ccdS, tm.ccdL, tick)
    ensures tick >= GroupScored(tm, h, group).act <==> Apart(h, group, ACT, tm.rrdS, tm.rrdL, tick)
  {
    if h != [] {
      var n := |h| - 1;
      var e := h[n];
      PrefixOrdered(h, tick);
      GroupMeans(tm, h[..n], group, tick);
      ApartSnoc(h, group, RD, tm.ccdS, tm.ccdL, tick);
      ApartSnoc(h, group, ACT, tm.rrdS, tm.rrdL, tick);
      if e.op == RD && tick >= e.tick + Gap(e.bank, group, tm.ccdS, tm.ccdL) {
        LastDecides(h[..n], e, group, RD, tm.ccdS, tm.ccdL, tick);
      }
      if e.op == ACT && tick >= e.tick + Gap(e.bank, group, tm.rrdS, tm.rrdL) {
        LastDecides(h[..n], e, group, ACT, tm.rrdS, tm.rrdL, tick);
      }
    }
  }

  // ------------------------------------------------------- The equivalence

  /** What the scoreboard checks: the shared rule, and the entries of the bank group. */
  lemma AcceptsMeans(tm: Timing4, h: seq<Event>, e: Event)
    requires Ordered(h) && BanksExist4(h) && Legal(Base(tm), h) && NotBefore(h, e.tick) && e.tick >= 0
    requires e.bank < ALL_BANKS
    ensures Accepts4(tm, Scored4(tm, h), e) <==>
            Allowed(Base(tm), h, e) && Ready(GroupScored(tm, h, GroupOf(e.bank)), e.op, e.tick)
  {
    ScoredParts4(tm, h, e.bank);
    RankFree4(tm, h, e);
    BankMeans(Base(tm), h, e.bank, e.tick);
    FawMeans(h, e.tick, tm.faw);
    assert After(h, RD, 0, e.tick) && After(h, ACT, 0, e.tick);
  }

  lemma AcceptsIffAllowed4(tm: Timing4, h: seq<Event>, e: Event)
    requires Ordered(h) && BanksExist4(h) && Legal4(tm, h) && NotBefore(h, e.tick) && e.tick >= 0
    requires e.bank < ALL_BANKS && Doubled(tm)
    ensures Accepts4(tm, Scored4(tm, h), e) <==> Allowed4(tm, h, e)
  {
    LegalBase(tm, h);
    Allowed4Parts(tm, h, e);
    AcceptsMeans(tm, h, e);
    GroupMeans(tm, h, GroupOf(e.bank), e.tick);
  }

  lemma RankFree4(tm: Timing4, h: seq<Event>, e: Event)
    requires Ordered(h) && NotBefore(h, e.tick) && Legal(Base(tm), h) && e.tick >= 0
    ensures Free(RankScored4(tm, h), e.op, e.tick) <==>
            match e.op
            case RD => true
            case ACT => After(h, REF, tm.rfc, e.tick)
            case PRE => After(h, REF, tm.rfc, e.tick)
            case REF => !Active(h) && After(h, PRE, tm.rp, e.tick) && After(h, REF, tm.rfc, e.tick)
  {
    RankMeans4(tm, h, e.tick);
  }

  /** For every history with nondecreasing ticks, when a long gap is at most two short ones. */
  lemma {:induction false} AcceptedIffLegal4(tm: Timing4, h: seq<Event>)
    requires Ordered(h) && BanksExist4(h) && Doubled(tm)
    ensures Accepted4(tm, h) <==> Legal4(tm, h)
  {
    if h != [] {
      var n := |h| - 1;
      PrefixOrdered(h, h[n].tick);
      AcceptedIffLegal4(tm, h[..n]);
      if Legal4(tm, h[..n]) {
        AcceptsIffAllowed4(tm, h[..n], h[n]);
      }
    }
  }

  /** All pairs of commands of one kind keep their distance, not only neighbours. */
  predicate AllApart(h: seq<Event>, op: Opcode, short: nat, long: nat) {
    forall i, j :: 0 <= i < j < |h| && h[i].op == op && h[j].op == op ==>
      h[j].tick >= h[i].tick + Gap(h[i].bank, GroupOf(h[j].bank), short, long)
  }

  lemma {:induction false} LegalAllApart(tm: Timing4, h: seq<Event>)
    requires Legal4(tm, h)
    ensures AllApart(h, RD, tm.ccdS, tm.ccdL) && AllApart(h, ACT, tm.rrdS, tm.rrdL)
  {
    if h != [] {
      LegalAllApart(tm, h[..|h| - 1]);
      assert forall i :: 0 <= i < |h| - 1 ==> h[..|h| - 1][i] == h[i];
    }
  }

  /** In every accepted run all pairs are apart. */
  lemma AcceptedAllApart(tm: Timing4, h: seq<Event>)
    requires Ordered(h) && BanksExist4(h) && Accepted4(tm, h) && Doubled(tm)
    ensures AllApart(h, RD, tm.ccdS, tm.ccdL) && AllApart(h, ACT, tm.rrdS, tm.rrdL)
  {
    AcceptedIffLegal4(tm, h);
    LegalAllApart(tm, h);
  }

  // ------------------------------------------------------- Pairs on a bank

  lemma {:induction false} AcceptedBase(tm: Timing4, h: seq<Event>)
    requires Ordered(h) && BanksExist4(h) && Accepted4(tm, h)
    ensures Legal(Base(tm), h)
  {
    if h != [] {
      var n := |h| - 1;
      PrefixOrdered(h, h[n].tick);
      AcceptedBase(tm, h[..n]);
      AcceptsMeans(tm, h[..n], h[n]);
    }
  }

  /** On one bank every later command keeps the distance of every earlier one. */
  predicate BankPair(tm: Timing4, a: Event, b: Event) {
    && (a.op == ACT && b.op == PRE ==> b.tick >= a.tick + tm.ras)
    && (a.op == RD && b.op == PRE ==> b.tick >= a.tick + tm.rtp)
    && (a.op == ACT && b.op == RD ==> b.tick >= a.tick + tm.rcd)
    && (a.op == PRE && b.op == ACT ==> b.tick >= a.tick + tm.rp)
  }

  /** The same for refreshes and any bank. */
  predicate RankPair(tm: Timing4, a: Event, b: Event) {
    && (a.op == REF && b.op != RD ==> b.tick >= a.tick + tm.rfc)
    && (a.op == PRE && b.op == REF ==> b.tick >= a.tick + tm.rp)
  }

  predicate Paired(tm: Timing4, h: seq<Event>) {
    forall i, j :: 0 <= i < j < |h| ==> (h[i].bank == h[j].bank ==> BankPair(tm, h[i], h[j])) && RankPair(tm, h[i], h[j])
  }

  lemma PairedSnoc(tm: Timing4, h: seq<Event>, n: nat)
    requires |h| == n + 1 && Paired(tm, h[..n]) && Allowed(Base(tm), h[..n], h[n])
    ensures Paired(tm, h)
  {
    assert forall i :: 0 <= i < n ==> h[..n][i] == h[i];
  }

  lemma {:induction false} LegalPaired(tm: Timing4, h: seq<Event>)
    requires Legal(Base(tm), h)
    ensures Paired(tm, h)
  {
    if h != [] {
      LegalPaired(tm, h[..|h| - 1]);
      PairedSnoc(tm, h, |h| - 1);
    }
  }

  /** In every accepted run, for all timings: the waiting times of a bank and of refreshes between all pairs. */
  lemma AcceptedPaired(tm: Timing4, h: seq<Event>)
    requires Ordered(h) && BanksExist4(h) && Accepted4(tm, h)
    ensures Paired(tm, h)
  {
    AcceptedBase(tm, h);
    LegalPaired(tm, h);
  }

  // ------------------------------------------------------- When a long gap is more than two short ones

  /** An accepted run of activations and reads only. */
  predicate Plain(tm: Timing4, h: seq<Event>, tick: int) {
    && Ordered(h) && BanksExist4(h) && Legal(Base(tm), h) && Accepted4(tm, h) && NotBefore(h, tick) && tick >= 0
    && forall i :: 0 <= i < |h| ==> h[i].op in {ACT, RD}
  }

  lemma OrderedSnoc(h: seq<Event>, e: Event)
    requires Ordered(h) && BanksExist4(h) && NotBefore(h, e.tick) && e.tick >= 0 && e.bank < ALL_BANKS
    ensures Ordered(h + [e]) && BanksExist4(h + [e]) && NotBefore(h + [e], e.tick)
  {
  }

  lemma LegalSnoc(tm: Timing, h: seq<Event>, e: Event)
    requires Legal(tm, h) && Allowed(tm, h, e)
    ensures Legal(tm, h + [e])
  {
    assert (h + [e])[..|h|] == h;
  }

  lemma AcceptedSnoc(tm: Timing4, h: seq<Event>, e: Event)
    requires BanksExist4(h) && BanksExist4(h + [e]) && e.bank < ALL_BANKS
    requires Accepted4(tm, h) && Accepts4(tm, Scored4(tm, h), e)
    ensures Accepted4(tm, h + [e])
  {
    assert (h + [e])[..|h|] == h;
  }

  /** One more command that keeps the shared rule and finds its group ready. */
  lemma Extend(tm: Timing4, h: seq<Event>, e: Event)
    requires Plain(tm, h, e.tick) && e.bank < ALL_BANKS && e.op in {ACT, RD}
    requires Allowed(Base(tm), h, e) && Ready(GroupScored(tm, h, GroupOf(e.bank)), e.op, e.tick)
    ensures Plain(tm, h + [e], e.tick)
  {
    AcceptsMeans(tm, h, e);
    OrderedSnoc(h, e);
    LegalSnoc(Base(tm), h, e);
    AcceptedSnoc(tm, h, e);
  }

  /** What the command changes. */
  lemma Extended(tm: Timing4, h: seq<Event>, e: Event, group: nat, bank: nat)
    requires e.op in {ACT, RD}
    ensures GroupScored(tm, h + [e], group) ==
            Turned(tm, GroupScored(tm, h, group), e.op, e.tick, group == GroupOf(e.bank))
    ensures Open(h + [e], bank) == ((e.bank == bank && e.op == ACT) || Open(h, bank))
  {
    assert (h + [e])[..|h|] == h;
  }

  lemma {:induction false} FewActs(h: seq<Event>, tick: int, window: nat)
    ensures ActsWithin(h, tick, window) <= |h|
  {
    if h != [] {
      FewActs(h[..|h| - 1], tick, window);
    }
  }

  lemma ExtendAct(tm: Timing4, h: seq<Event>, tick: int, bank: nat)
    requires Plain(tm, h, tick) && bank < ALL_BANKS && !Open(h, bank) && |h| < 4
    requires tick >= GroupScored(tm, h, GroupOf(bank)).act
    ensures Plain(tm, h + [Event(tick, ACT, bank)], tick)
  {
    FewActs(h, tick, tm.faw);
    Extend(tm, h, Event(tick, ACT, bank));
  }

  lemma ExtendRead(tm: Timing4, h: seq<Event>, tick: int, bank: nat)
    requires Plain(tm, h, tick) && bank < ALL_BANKS && Open(h, bank) && AfterOn(h, bank, ACT, tm.rcd, tick)
    requires tick >= GroupScored(tm, h, GroupOf(bank)).rd
    ensures Plain(tm, h + [Event(tick, RD, bank)], tick)
  {
    Extend(tm, h, Event(tick, RD, bank));
  }

  /** Waiting changes nothing. */
  lemma Wait(tm: Timing4, h: seq<Event>, tick: int, later: int)
    requires Plain(tm, h, tick) && tick <= later
    ensures Plain(tm, h, later)
  {
  }

  /** A bank opened in group 0 at 0. */
  lemma OneOpen(tm: Timing4) returns (h: seq<Event>)
    ensures h == [Event(0, ACT, 0)] && Plain(tm, h, 0) && Open(h, 0) && !Open(h, 4) && !Open(h, 1)
    ensures GroupScored(tm, h, 0) == Turnaround(0, tm.rrdL) && GroupScored(tm, h, 1) == Turnaround(0, tm.rrdS)
  {
    var a := Event(0, ACT, 0);
    h := [] + [a];
    ExtendAct(tm, [], 0, 0);
    Extended(tm, [], a, 0, 0);
    Extended(tm, [], a, 1, 4);
    Extended(tm, [], a, 1, 1);
  }

  /** And then one in group 1. */
  lemma TwoOpen(tm: Timing4) returns (h: seq<Event>)
    ensures h == [Event(0, ACT, 0), Event(tm.rrdS, ACT, 4)] && Plain(tm, h, tm.rrdS)
    ensures Open(h, 0) && Open(h, 4) && !Open(h, 1)
    ensures GroupScored(tm, h, 0) == Turnaround(0, tm.rrdS + tm.rrdS) && GroupScored(tm, h, 1).rd == 0
  {
    var one := OneOpen(tm);
    var b := Event(tm.rrdS, ACT, 4);
    h := one + [b];
    Wait(tm, one, 0, tm.rrdS);
    ExtendAct(tm, one, tm.rrdS, 4);
    Extended(tm, one, b, 0, 0);
    Extended(tm, one, b, 1, 4);
    Extended(tm, one, b, 1, 1);
  }

  /** Activations in group 0, in group 1 and in group 0 again. */
  lemma OverwrittenActs(tm: Timing4) returns (h: seq<Event>)
    requires tm.rrdL > 2 * tm.rrdS
    ensures Ordered(h) && BanksExist4(h) && Accepted4(tm, h) && !AllApart(h, ACT, tm.rrdS, tm.rrdL)
  {
    h := TwoOpen(tm);
    Wait(tm, h, tm.rrdS, 2 * tm.rrdS);
    ExtendAct(tm, h, 2 * tm.rrdS, 1);
    h := h + [Event(2 * tm.rrdS, ACT, 1)];
    assert h[0] == Event(0, ACT, 0) && h[2] == Event(2 * tm.rrdS, ACT, 1);
  }

  /** Reads in group 0, in group 1 and in group 0 again. */
  lemma OverwrittenReads(tm: Timing4) returns (h: seq<Event>)
    requires tm.ccdL > 2 * tm.ccdS
    ensures Ordered(h) && BanksExist4(h) && Accepted4(tm, h) && !AllApart(h, RD, tm.ccdS, tm.ccdL)
  {
    var t := tm.rrdS + tm.rcd;
    var t1, t2 := t + tm.ccdS, t + 2 * tm.ccdS;
    h := TwoOpen(tm);
    Wait(tm, h, tm.rrdS, t);
    ExtendRead(tm, h, t, 0);
    Extended(tm, h, Event(t, RD, 0), 1, 4);
    Extended(tm, h, Event(t, RD, 0), 0, 0);
    h := h + [Event(t, RD, 0)];
    Wait(tm, h, t, t1);
    ExtendRead(tm, h, t1, 4);
    Extended(tm, h, Event(t1, RD, 4), 0, 0);
    h := h + [Event(t1, RD, 4)];
    Wait(tm, h, t1, t2);
    ExtendRead(tm, h, t2, 0);
    h := h + [Event(t2, RD, 0)];
    assert h[2] == Event(t, RD, 0) && h[4] == Event(t2, RD, 0);
  }

  /** The condition is exact: with any other timing some accepted run breaks a long gap. */
  lemma OverwritingIsEnough(tm: Timing4)
    ensures Doubled(tm) <==>
            forall h :: Ordered(h) && BanksExist4(h) ==> (Accepted4(tm, h) <==> Legal4(tm, h))
  {
    if Doubled(tm) {
      forall h | Ordered(h) && BanksExist4(h)
        ensures Accepted4(tm, h) <==> Legal4(tm, h)
      {
        AcceptedIffLegal4(tm, h);
      }
    } else {
      var h;
      if tm.rrdL > 2 * tm.rrdS {
        h := OverwrittenActs(tm);
      } else {
        h := OverwrittenReads(tm);
      }
      if Legal4(tm, h) {
        LegalAllApart(tm, h);
      }
    }
  }
}
