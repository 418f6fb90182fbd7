/** The scoreboard accepts exactly the command histories that keep every timing between all pairs
    of commands. */
module Ddr3Rule {
  import opened Ddr3

  /** Every earlier `op` in the history is at least `gap` ticks before `tick`. */
  predicate After(h: seq<Event>, op: Opcode, gap: nat, tick: int) {
    forall i :: 0 <= i < |h| && h[i].op == op ==> tick >= h[i].tick + gap
  }

  /** The same for one bank. */
  predicate AfterOn(h: seq<Event>, bank: nat, op: Opcode, gap: nat, tick: int) {
    forall i :: 0 <= i < |h| && h[i].op == op && h[i].bank == bank ==> tick >= h[i].tick + gap
  }

  /** The last activation or precharge of the bank was an activation. */
  predicate Open(h: seq<Event>, bank: nat) {
    if h == [] then false
    else
      var e := h[|h| - 1];
      if e.bank == bank && e.op == ACT then true
      else if e.bank == bank && e.op == PRE then false
      else Open(h[..|h| - 1], bank)
  }

  /** The last activation or precharge of the whole rank was an activation: the code enables a
      refresh after any precharge, whichever banks are still open. */
  predicate Active(h: seq<Event>) {
    if h == [] then false
    else
      var e := h[|h| - 1];
      if e.op == ACT then true else if e.op == PRE then false else Active(h[..|h| - 1])
  }

  /** Activations less than `window` ticks before `tick`. */
  function ActsWithin(h: seq<Event>, tick: int, window: nat): nat {
    if h == [] then 0
    else
      var e := h[|h| - 1];
      (if e.op == ACT && tick - e.tick < window then 1 else 0) + ActsWithin(h[..|h| - 1], tick, window)
  }

  /** The rule for one more command after a history. */
  predicate Allowed(tm: Timing, h: seq<Event>, e: Event) {
    match e.op
    case RD =>
      && Open(h, e.bank) && AfterOn(h, e.bank, ACT, tm.rcd, e.tick) && After(h, RD, tm.ccd, e.tick)
    case ACT =>
      && !Open(h, e.bank) && AfterOn(h, e.bank, PRE, tm.rp, e.tick)
      && After(h, ACT, tm.rrd, e.tick) && After(h, REF, tm.rfc, e.tick)
      && ActsWithin(h, e.tick, tm.faw) < 4
    case PRE =>
      && AfterOn(h, e.bank, ACT, tm.ras, e.tick) && AfterOn(h, e.bank, RD, tm.rtp, e.tick)
      && After(h, REF, tm.rfc, e.tick)
    case REF =>
      && !Active(h) && After(h, PRE, tm.rp, e.tick) && After(h, REF, tm.rfc, e.tick)
  }

  predicate Legal(tm: Timing, h: seq<Event>) {
    h == [] || (Legal(tm, h[..|h| - 1]) && Allowed(tm, h[..|h| - 1], h[|h| - 1]))
  }

  /** Ticks start at 0 and never go back. */
  predicate Ordered(h: seq<Event>) {
    && (forall i :: 0 <= i < |h| ==> h[i].tick >= 0)
    && forall i, j :: 0 <= i < j < |h| ==> h[i].tick <= h[j].tick
  }

  predicate BanksExist(h: seq<Event>) { forall i :: 0 <= i < |h| ==> h[i].bank < BANKS }

  predicate NotBefore(h: seq<Event>, tick: int) {
    forall i :: 0 <= i < |h| ==> h[i].tick <= tick
  }

  /** The scoreboard after a history, and whether it accepted every command of it. */
  function Scored(tm: Timing, h: seq<Event>): (b: Board)
    requires BanksExist(h)
    ensures b.Valid()
  {
    if h == [] then Start() else Next(tm, Scored(tm, h[..|h| - 1]), h[|h| - 1])
  }

  predicate Accepted(tm: Timing, h: seq<Event>)
    requires BanksExist(h)
  {
    h == [] || (Accepted(tm, h[..|h| - 1]) && Accepts(tm, Scored(tm, h[..|h| - 1]), h[|h| - 1]))
  }

  /** The three parts of the scoreboard on their own. */
  function RankScored(tm: Timing, h: seq<Event>): Scores {
    if h == [] then RankStart()
    else
      var e := h[|h| - 1];
      Raise(RankScored(tm, h[..|h| - 1]), RankParameters(tm, e.op), e.tick)
  }

  function BankScored(tm: Timing, h: seq<Event>, bank: nat): Scores {
    if h == [] then BankStart()
    else
      var e, m := h[|h| - 1], BankScored(tm, h[..|h| - 1], bank);
      if e.bank == bank then Raise(m, BankParameters(tm, e.op), e.tick) else m
  }

  function ActsScored(h: seq<Event>): seq<int> {
    if h == [] then []
    else
      var e, acts := h[|h| - 1], ActsScored(h[..|h| - 1]);
      if e.op == ACT then Push(acts, e.tick) else acts
  }

  lemma {:induction false} ScoredParts(tm: Timing, h: seq<Event>, bank: nat)
    requires BanksExist(h) && bank < BANKS
    ensures var b := Scored(tm, h);
            b.rank == RankScored(tm, h) && b.banks[bank] == BankScored(tm, h, bank) && b.acts == ActsScored(h)
  {
    if h != [] {
      ScoredParts(tm, h[..|h| - 1], bank);
    }
  }

  // ------------------------------------------------------- One more event

  lemma AfterSnoc(h: seq<Event>, op: Opcode, gap: nat, tick: int)
    requires h != []
    ensures var e := h[|h| - 1];
            After(h, op, gap, tick) <==> After(h[..|h| - 1], op, gap, tick) && (e.op == op ==> tick >= e.tick + gap)
  {
    var n := |h| - 1;
    assert forall i :: 0 <= i < n ==> h[..n][i] == h[i];
  }

  lemma AfterOnSnoc(h: seq<Event>, bank: nat, op: Opcode, gap: nat, tick: int)
    requires h != []
    ensures var e := h[|h| - 1];
            AfterOn(h, bank, op, gap, tick) <==>
            AfterOn(h[..|h| - 1], bank, op, gap, tick) && (e.op == op && e.bank == bank ==> tick >= e.tick + gap)
  {
    var n := |h| - 1;
    assert forall i :: 0 <= i < n ==> h[..n][i] == h[i];
  }

  /** While the rank is active every refresh is at least tRFC before the last command. */
  lemma {:induction false} ActiveAfterRefresh(tm: Timing, h: seq<Event>, tick: int)
    requires Ordered(h) && NotBefore(h, tick) && Legal(tm, h) && Active(h)
    ensures After(h, REF, tm.rfc, tick)
  {
    var n := |h| - 1;
    AfterSnoc(h, REF, tm.rfc, tick);
    AfterSnoc(h, REF, tm.rfc, h[n].tick);
    if h[n].op != ACT {
      ActiveAfterRefresh(tm, h[..n], tick);
    }
  }

  // ------------------------------------------------------- What the entries mean

  lemma RaiseThree(m: Scores, a: (Opcode, Tick), b: (Opcode, Tick), c: (Opcode, Tick), tick: int)
    ensures Raise(m, [a], tick) == m.Set(a.0, Later(m.Get(a.0), tick, a.1))
    ensures Raise(m, [a, b], tick) == Raise(Raise(m, [a], tick), [b], tick)
    ensures Raise(m, [a, b, c], tick) == Raise(Raise(m, [a, b], tick), [c], tick)
  {
    assert [a][1..] == [] && [b][1..] == [] && [c][1..] == [];
    assert [a, b][1..] == [b] && [a, b, c][1..] == [b, c] && [b, c][1..] == [c];
    var m1 := m.Set(a.0, Later(m.Get(a.0), tick, a.1));
    assert Raise(m1, [], tick) == m1;
    assert Raise(m1, [b, c], tick) == Raise(m1.Set(b.0, Later(m1.Get(b.0), tick, b.1)), [c], tick);
    assert Raise(m1, [b], tick) == m1.Set(b.0, Later(m1.Get(b.0), tick, b.1));
  }

  lemma RankRaised(tm: Timing, m: Scores, op: Opcode, tick: int)
    ensures Raise(m, RankParameters(tm, op), tick) ==
            match op
            case RD => m.(rd := Later(m.rd, tick, At(tm.ccd)))
            case ACT => m.(act := Later(m.act, tick, At(tm.rrd)), ref := Never)
            case PRE => m.(ref := Later(m.ref, tick, At(tm.rp)))
            case REF => m.(act := Later(m.act, tick, At(tm.rfc)), pre := Later(m.pre, tick, At(tm.rfc)),
                           ref := Later(m.ref, tick, At(tm.rfc)))
  {
    var never := (REF, Never);
    match op
    case RD => RaiseThree(m, (RD, At(tm.ccd)), never, never, tick);
    case ACT =>
      RaiseThree(m, (ACT, At(tm.rrd)), never, never, tick);
      RaiseThree(Raise(m, [(ACT, At(tm.rrd))], tick), never, never, never, tick);
    case PRE => RaiseThree(m, (REF, At(tm.rp)), never, never, tick);
    case REF =>
      var a, p, r := (ACT, At(tm.rfc)), (PRE, At(tm.rfc)), (REF, At(tm.rfc));
      RaiseThree(m, a, p, r, tick);
      RaiseThree(Raise(m, [a], tick), p, r, r, tick);
      RaiseThree(Raise(m, [a, p], tick), r, r, r, tick);
  }

  lemma BankRaised(tm: Timing, m: Scores, op: Opcode, tick: int)
    ensures Raise(m, BankParameters(tm, op), tick) ==
            match op
            case RD => m.(pre := Later(m.pre, tick, At(tm.rtp)))
            case ACT => m.(rd := Later(m.rd, tick, At(tm.rcd)), act := Never, pre := Later(m.pre, tick, At(tm.ras)))
            case PRE => m.(rd := Never, act := Later(m.act, tick, At(tm.rp)))
            case REF => m
  {
    match op
    case RD =>
      var p := (PRE, At(tm.rtp));
      RaiseThree(m, p, p, p, tick);
    case ACT =>
      var r, a, p := (RD, At(tm.rcd)), (ACT, Never), (PRE, At(tm.ras));
      RaiseThree(m, r, a, p, tick);
      RaiseThree(Raise(m, [r], tick), a, p, p, tick);
      RaiseThree(Raise(m, [r, a], tick), p, p, p, tick);
    case PRE =>
      var r, a := (RD, Never), (ACT, At(tm.rp));
      RaiseThree(m, r, a, a, tick);
      RaiseThree(Raise(m, [r], tick), a, a, a, tick);
    case REF =>
  }

  lemma PrefixOrdered(h: seq<Event>, tick: int)
    requires Ordered(h) && h != [] && NotBefore(h, tick)
    ensures var n := |h| - 1;
            Ordered(h[..n]) && NotBefore(h[..n], tick) && NotBefore(h[..n], h[n].tick) && 0 <= h[n].tick <= tick
  {
  }

  /** Nothing before `tick` is closer than the gap to anything `gap` after it. */
  lemma Distant(h: seq<Event>, bank: nat, op: Opcode, gap: nat, tick: int, later: int)
    requires NotBefore(h, tick) && later >= tick + gap
    ensures After(h, op, gap, later) && AfterOn(h, bank, op, gap, later)
  {
  }

  /** The entries of the rank in terms of what they summarise about the history. */
  predicate RankReads(m: Scores, tick: int, rd: bool, act: bool, pre: bool, ref: bool, active: bool) {
    && (Free(m, RD, tick) <==> rd) && (Free(m, ACT, tick) <==> act && ref) && (Free(m, PRE, tick) <==> ref)
    && (Free(m, REF, tick) <==> !active && pre && ref)
    && m.rd.At? && m.act.At? && m.pre.At? && (m.ref.Never? <==> active)
  }

  lemma RankStep(tm: Timing, m: Scores, e: Event, tick: int, rd: bool, act: bool, pre: bool, ref: bool, active: bool)
    requires RankReads(m, tick, rd, act, pre, ref, active)
    requires e.op == PRE && active && tick >= e.tick + tm.rp ==> pre && ref
    requires e.op == REF ==> !active
    ensures RankReads(Raise(m, RankParameters(tm, e.op), e.tick), tick,
                      rd && (e.op == RD ==> tick >= e.tick + tm.ccd), act && (e.op == ACT ==> tick >= e.tick + tm.rrd),
                      pre && (e.op == PRE ==> tick >= e.tick + tm.rp), ref && (e.op == REF ==> tick >= e.tick + tm.rfc),
                      if e.op == ACT then true else if e.op == PRE then false else active)
  {
    RankRaised(tm, m, e.op, e.tick);
  }

  /** The entries of the rank are free exactly when all pairs with the history keep their gaps. */
  lemma {:induction false} RankMeans(tm: Timing, h: seq<Event>, tick: int)
    requires Ordered(h) && NotBefore(h, tick) && Legal(tm, h) && tick >= 0
    ensures RankReads(RankScored(tm, h), tick, After(h, RD, tm.ccd, tick), After(h, ACT, tm.rrd, tick),
                      After(h, PRE, tm.rp, tick), After(h, REF, tm.rfc, tick), Active(h))
  {
    if h != [] {
      var n := |h| - 1;
      var h', e := h[..n], h[n];
      PrefixOrdered(h, tick);
      RankMeans(tm, h', tick);
      if e.op == PRE && Active(h') && tick >= e.tick + tm.rp {
        ActiveAfterRefresh(tm, h', e.tick);
        Distant(h', 0, PRE, tm.rp, e.tick, tick);
      }
      AfterSnoc(h, RD, tm.ccd, tick);
      AfterSnoc(h, ACT, tm.rrd, tick);
      AfterSnoc(h, PRE, tm.rp, tick);
      AfterSnoc(h, REF, tm.rfc, tick);
      assert e.op == REF ==> !Active(h');
      RankStep(tm, RankScored(tm, h'), e, tick, After(h', RD, tm.ccd, tick), After(h', ACT, tm.rrd, tick),
               After(h', PRE, tm.rp, tick), After(h', REF, tm.rfc, tick), Active(h'));
    }
  }

  predicate BankReads(m: Scores, tick: int, rcd: bool, ras: bool, rp: bool, rtp: bool, open: bool) {
    && (Free(m, RD, tick) <==> open && rcd) && (Free(m, ACT, tick) <==> !open && rp)
    && (Free(m, PRE, tick) <==> ras && rtp) && Free(m, REF, tick) && m.pre.At?
    && (m.rd.At? <==> open) && (m.act.At? <==> !open)
  }

  lemma BankStep(tm: Timing, m: Scores, e: Event, tick: int, rcd: bool, ras: bool, rp: bool, rtp: bool, open: bool)
    requires BankReads(m, tick, rcd, ras, rp, rtp, open)
    requires e.op == ACT && !open && tick >= e.tick + tm.rcd ==> rcd
    requires e.op == PRE && open && tick >= e.tick + tm.rp ==> rp
    requires e.op == ACT ==> !open
    ensures BankReads(Raise(m, BankParameters(tm, e.op), e.tick), tick,
                      rcd && (e.op == ACT ==> tick >= e.tick + tm.rcd), ras && (e.op == ACT ==> tick >= e.tick + tm.ras),
                      rp && (e.op == PRE ==> tick >= e.tick + tm.rp), rtp && (e.op == RD ==> tick >= e.tick + tm.rtp),
                      if e.op == ACT then true else if e.op == PRE then false else open)
  {
    BankRaised(tm, m, e.op, e.tick);
  }

  /** The entries of a bank likewise; reads need the bank open, activations need it closed. */
  lemma {:induction false} BankMeans(tm: Timing, h: seq<Event>, bank: nat, tick: int)
    requires Ordered(h) && NotBefore(h, tick) && Legal(tm, h) && tick >= 0
    ensures BankReads(BankScored(tm, h, bank), tick, AfterOn(h, bank, ACT, tm.rcd, tick),
                      AfterOn(h, bank, ACT, tm.ras, tick), AfterOn(h, bank, PRE, tm.rp, tick),
                      AfterOn(h, bank, RD, tm.rtp, tick), Open(h, bank))
  {
    if h != [] {
      var n := |h| - 1;
      var h', e := h[..n], h[n];
      PrefixOrdered(h, tick);
      BankMeans(tm, h', bank, tick);
      AfterOnSnoc(h, bank, ACT, tm.rcd, tick);
      AfterOnSnoc(h, bank, ACT, tm.ras, tick);
      AfterOnSnoc(h, bank, PRE, tm.rp, tick);
      AfterOnSnoc(h, bank, RD, tm.rtp, tick);
      if e.bank == bank {
        if tick >= e.tick + tm.rcd {
          Distant(h', bank, ACT, tm.rcd, e.tick, tick);
        }
        if tick >= e.tick + tm.rp {
          Distant(h', bank, PRE, tm.rp, e.tick, tick);
        }
        BankStep(tm, BankScored(tm, h', bank), e, tick, AfterOn(h', bank, ACT, tm.rcd, tick),
                 AfterOn(h', bank, ACT, tm.ras, tick), AfterOn(h', bank, PRE, tm.rp, tick),
                 AfterOn(h', bank, RD, tm.rtp, tick), Open(h', bank));
      }
    }
  }

  // ------------------------------------------------------- Four activations

  function ActTicks(h: seq<Event>): seq<int> {
    if h == [] then []
    else
      var e := h[|h| - 1];
      ActTicks(h[..|h| - 1]) + (if e.op == ACT then [e.tick] else [])
  }

  function LastFour(ticks: seq<int>): seq<int> {
    if |ticks| <= ACTS_KEPT then ticks else ticks[|ticks| - ACTS_KEPT..]
  }

  lemma {:induction false} ActsKept(h: seq<Event>)
    ensures ActsScored(h) == LastFour(ActTicks(h))
  {
    if h != [] {
      ActsKept(h[..|h| - 1]);
    }
  }

  function Recent(ticks: seq<int>, tick: int, window: nat): nat {
    if ticks == [] then 0
    else (if tick - ticks[|ticks| - 1] < window then 1 else 0) + Recent(ticks[..|ticks| - 1], tick, window)
  }

  lemma {:induction false} RecentActs(h: seq<Event>, tick: int, window: nat)
    ensures ActsWithin(h, tick, window) == Recent(ActTicks(h), tick, window)
  {
    if h != [] {
      var n := |h| - 1;
      RecentActs(h[..n], tick, window);
      if h[n].op == ACT {
        var ticks := ActTicks(h);
        assert ticks[..|ticks| - 1] == ActTicks(h[..n]);
      } else {
        assert ActTicks(h) == ActTicks(h[..n]);
      }
    }
  }

  predicate Sorted(ticks: seq<int>) { forall i, j :: 0 <= i < j < |ticks| ==> ticks[i] <= ticks[j] }

  lemma {:induction false} ActTicksSorted(h: seq<Event>, tick: int)
    requires Ordered(h) && NotBefore(h, tick)
    ensures Sorted(ActTicks(h)) && forall i :: 0 <= i < |ActTicks(h)| ==> ActTicks(h)[i] <= tick
  {
    if h != [] {
      PrefixOrdered(h, tick);
      ActTicksSorted(h[..|h| - 1], h[|h| - 1].tick);
    }
  }

  /** In a sorted list the recent ticks are its tail. */
  lemma {:induction false} RecentTail(ticks: seq<int>, tick: int, window: nat, k: nat)
    requires Sorted(ticks) && k <= |ticks|
    ensures Recent(ticks, tick, window) >= k <==> k == 0 || tick - ticks[|ticks| - k] < window
  {
    if k > 0 {
      var n := |ticks| - 1;
      var rest := ticks[..n];
      if tick - ticks[n] < window {
        RecentTail(rest, tick, window, k - 1);
      } else {
        NoneRecent(ticks, tick, window);
      }
    }
  }

  lemma {:induction false} NoneRecent(ticks: seq<int>, tick: int, window: nat)
    requires Sorted(ticks) && (ticks == [] || tick - ticks[|ticks| - 1] >= window)
    ensures Recent(ticks, tick, window) == 0
  {
    if ticks != [] {
      NoneRecent(ticks[..|ticks| - 1], tick, window);
    }
  }

  lemma {:induction false} RecentBounded(ticks: seq<int>, tick: int, window: nat)
    ensures Recent(ticks, tick, window) <= |ticks|
  {
    if ticks != [] {
      RecentBounded(ticks[..|ticks| - 1], tick, window);
    }
  }

  /** The oldest of the last four activations decides whether a fifth would fall in the window. */
  lemma FawMeans(h: seq<Event>, tick: int, faw: nat)
    requires Ordered(h) && NotBefore(h, tick)
    ensures var acts := ActsScored(h);
            ActsWithin(h, tick, faw) < 4 <==> (|acts| == ACTS_KEPT ==> tick - acts[0] >= faw)
  {
    var ticks := ActTicks(h);
    ActsKept(h);
    RecentActs(h, tick, faw);
    ActTicksSorted(h, tick);
    if |ticks| >= 4 {
      RecentTail(ticks, tick, faw, 4);
    } else {
      RecentBounded(ticks, tick, faw);
    }
  }

  // ------------------------------------------------------- The equivalence

  /** After a legal history the scoreboard accepts a command exactly when the all-pairs rule does. */
  lemma AcceptsIffAllowed(tm: Timing, h: seq<Event>, e: Event)
    requires Ordered(h) && BanksExist(h) && Legal(tm, h) && NotBefore(h, e.tick) && e.tick >= 0 && e.bank < BANKS
    ensures Accepts(tm, Scored(tm, h), e) <==> Allowed(tm, h, e)
  {
    ScoredParts(tm, h, e.bank);
    RankMeans(tm, h, e.tick);
    BankMeans(tm, h, e.bank, e.tick);
    FawMeans(h, e.tick, tm.faw);
  }

  /** For every history with nondecreasing ticks. */
  lemma {:induction false} AcceptedIffLegal(tm: Timing, h: seq<Event>)
    requires Ordered(h) && BanksExist(h)
    ensures Accepted(tm, h) <==> Legal(tm, h)
  {
    if h != [] {
      var n := |h| - 1;
      PrefixOrdered(h, h[n].tick);
      AcceptedIffLegal(tm, h[..n]);
      if Legal(tm, h[..n]) {
        AcceptsIffAllowed(tm, h[..n], h[n]);
      }
    }
  }
}
