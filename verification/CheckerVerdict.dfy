/** What the checker's verdict means for the commands of the unrolled payload. */
module CheckerVerdict {
  import opened Bits
  import opened Ddr3
  import opened Ddr3Rule
  import opened Checker
  import opened Wrappers

  function Ticks(op: Op): nat {
    if op.Visit? then 1 else op.timeslice
  }

  function Code(op: Op): nat {
    if op.Do? then op.opcode else if op.Wait? then NOP else JMP
  }

  /** The commands with the ticks at which they are issued. */
  function History(ops: seq<Op>, tick: nat): seq<Event> {
    if ops == [] then []
    else (if ops[0].Do? then [Event(tick, OpOf(ops[0].opcode), ops[0].bank)] else [])
         + History(ops[1..], tick + Ticks(ops[0]))
  }

  function Duration(ops: seq<Op>): nat {
    if ops == [] then 0 else Ticks(ops[0]) + Duration(ops[1..])
  }

  function Count(ops: seq<Op>, code: nat): nat {
    if ops == [] then 0 else (if Code(ops[0]) == code then 1 else 0) + Count(ops[1..], code)
  }

  lemma {:induction false} HistoryOrdered(ops: seq<Op>, tick: nat)
    requires Sound(ops)
    ensures Ordered(History(ops, tick))
    ensures forall i :: 0 <= i < |History(ops, tick)| ==> History(ops, tick)[i].tick >= tick
  {
    if ops != [] {
      assert SoundOp(ops[0]);
      SoundTail(ops);
      HistoryOrdered(ops[1..], tick + Ticks(ops[0]));
    }
  }

  lemma SoundTail(ops: seq<Op>)
    requires Sound(ops) && ops != []
    ensures Sound(ops[1..]) && SoundOp(ops[0])
  {
    forall k | 0 <= k < |ops| - 1
      ensures SoundOp(ops[1..][k])
    {
      assert ops[1..][k] == ops[k + 1];
    }
  }

  /** Whether the scoreboard accepts all of a history, read from the front. */
  predicate Admits(tm: Timing, b: Board, h: seq<Event>)
    requires b.Valid() && BanksExist(h)
    decreases |h|
  {
    h == [] || (Accepts(tm, b, h[0]) && Admits(tm, Next(tm, b, h[0]), h[1..]))
  }

  lemma {:induction false} HistoryBanks(ops: seq<Op>, tick: nat)
    requires Sound(ops)
    ensures BanksExist(History(ops, tick))
  {
    if ops != [] {
      SoundTail(ops);
      HistoryBanks(ops[1..], tick + Ticks(ops[0]));
    }
  }

  /** A replay finishes exactly when the scoreboard admits its commands. */
  lemma {:induction false} ReplayAdmits(tm: Timing, ops: seq<Op>, m: Machine)
    requires m.Valid() && Sound(ops) && BanksExist(History(ops, m.tick))
    ensures Replay(tm, ops, m).Finished? <==> Admits(tm, m.board, History(ops, m.tick))
  {
    if ops != [] {
      SoundTail(ops);
      var m' := Perform(tm, m, ops[0]);
      HistoryBanks(ops[1..], m'.tick);
      if ops[0].Do? {
        var e, rest := Command(m, ops[0]), History(ops[1..], m'.tick);
        assert History(ops, m.tick) == [e] + rest;
        assert ([e] + rest)[0] == e && ([e] + rest)[1..] == rest;
      } else {
        assert History(ops, m.tick) == History(ops[1..], m'.tick);
      }
      ReplayAdmits(tm, ops[1..], m');
    }
  }

  lemma AcceptedSnoc(tm: Timing, h: seq<Event>, e: Event)
    requires BanksExist(h) && BanksExist(h + [e]) && e.bank < BANKS
    ensures Accepted(tm, h + [e]) <==> Accepted(tm, h) && Accepts(tm, Scored(tm, h), e)
    ensures Scored(tm, h + [e]) == Next(tm, Scored(tm, h), e)
  {
    assert (h + [e])[..|h|] == h && (h + [e])[|h|] == e;
  }

  lemma {:induction false} AcceptedPrefix(tm: Timing, h: seq<Event>, k: nat)
    requires BanksExist(h) && Accepted(tm, h) && k <= |h|
    ensures BanksExist(h[..k]) && Accepted(tm, h[..k])
  {
    if k < |h| {
      AcceptedPrefix(tm, h[..|h| - 1], k);
      PrefixOfPrefix(h, |h| - 1, k);
    } else {
      assert h[..k] == h;
    }
  }

  lemma NextOf(h: seq<Event>, all: seq<Event>)
    requires h <= all && |h| < |all|
    ensures var e, rest := all[|h|], all[|h|..];
            rest[0] == e && rest[1..] == all[|h| + 1..] && all[..|h| + 1] == h + [e] && h + [e] <= all
  {
  }

  /** Reading a history from the front and from the back comes to the same. */
  lemma {:induction false} AdmitsAccepted(tm: Timing, h: seq<Event>, all: seq<Event>)
    requires BanksExist(all) && h <= all && BanksExist(h) && Accepted(tm, h) && BanksExist(all[|h|..])
    ensures Accepted(tm, all) == Admits(tm, Scored(tm, h), all[|h|..])
    decreases |all| - |h|
  {
    if |h| == |all| {
      assert h == all;
    } else {
      var e, rest := all[|h|], all[|h|..];
      NextOf(h, all);
      AcceptedSnoc(tm, h, e);
      if Accepts(tm, Scored(tm, h), e) {
        AdmitsAccepted(tm, h + [e], all);
      } else if Accepted(tm, all) {
        AcceptedPrefix(tm, all, |h| + 1);
      }
    }
  }

  lemma {:induction false} ReplayTotals(tm: Timing, ops: seq<Op>, m: Machine)
    requires m.Valid() && Sound(ops) && Replay(tm, ops, m).Finished?
    ensures Replay(tm, ops, m).tick == m.tick + Duration(ops) && |Replay(tm, ops, m).executed| == MAX
    ensures forall code :: 0 <= code < MAX ==> Replay(tm, ops, m).executed[code] == m.executed[code] + Count(ops, code)
  {
    if ops != [] {
      SoundTail(ops);
      ReplayTotals(tm, ops[1..], Perform(tm, m, ops[0]));
    }
  }

  lemma EmptyAccepted(tm: Timing)
    ensures Accepted(tm, []) && Scored(tm, []) == Start()
  {
  }

  // ------------------------------------------------------- The rule, by opcode numbers

  /** A memory command: when, which opcode, on which bank. */
  datatype Timed = Timed(tick: nat, code: nat, bank: nat)

  /** The memory commands of a run with the ticks at which they are issued. */
  function Commands(ops: seq<Op>, tick: nat): seq<Timed> {
    if ops == [] then []
    else (if ops[0].Do? then [Timed(tick, ops[0].opcode, ops[0].bank)] else [])
         + Commands(ops[1..], tick + Ticks(ops[0]))
  }

  /** Command `j` comes at least `gap` ticks after every earlier one with this opcode. */
  predicate Later(cs: seq<Timed>, j: nat, code: nat, gap: nat)
    requires j < |cs|
  {
    forall i :: 0 <= i < j && cs[i].code == code ==> cs[j].tick >= cs[i].tick + gap
  }

  predicate LaterOn(cs: seq<Timed>, j: nat, code: nat, gap: nat)
    requires j < |cs|
  {
    forall i :: 0 <= i < j && cs[i].code == code && cs[i].bank == cs[j].bank ==> cs[j].tick >= cs[i].tick + gap
  }

  /** No command 5 on the bank from command `i` to command `j`. */
  predicate StaysOpen(cs: seq<Timed>, i: nat, j: nat, bank: nat)
    requires i <= j <= |cs|
  {
    forall k :: i <= k < j ==> cs[k].code != 5 || cs[k].bank != bank
  }

  /** Before command `j` the bank has had a command 4 and no command 5 since. */
  predicate OpenBefore(cs: seq<Timed>, j: nat, bank: nat)
    requires j <= |cs|
  {
    exists i :: 0 <= i < j && cs[i].code == 4 && cs[i].bank == bank && StaysOpen(cs, i, j, bank)
  }

  predicate NonePrecharged(cs: seq<Timed>, i: nat, j: nat)
    requires i <= j <= |cs|
  {
    forall k :: i <= k < j ==> cs[k].code != 5
  }

  /** The same of any bank, as far as refreshes go. */
  predicate ActiveBefore(cs: seq<Timed>, j: nat)
    requires j <= |cs|
  {
    exists i :: 0 <= i < j && cs[i].code == 4 && NonePrecharged(cs, i, j)
  }

  /** Commands 4 among the first `n` that are less than `window` ticks before `tick`. */
  function RecentActs(cs: seq<Timed>, n: nat, tick: nat, window: nat): nat
    requires n <= |cs|
  {
    if n == 0 then 0
    else (if cs[n - 1].code == 4 && tick < cs[n - 1].tick + window then 1 else 0) + RecentActs(cs, n - 1, tick, window)
  }

  /** Opcodes 2, 4, 5 and 6 are RD, ACT, PRE and REF. */
  predicate Keeps(tm: Timing, cs: seq<Timed>, j: nat)
    requires j < |cs|
  {
    && (cs[j].code == 2 ==> OpenBefore(cs, j, cs[j].bank) && LaterOn(cs, j, 4, tm.rcd) && Later(cs, j, 2, tm.ccd))
    && (cs[j].code == 4 ==>
          && !OpenBefore(cs, j, cs[j].bank) && LaterOn(cs, j, 5, tm.rp) && Later(cs, j, 4, tm.rrd) && Later(cs, j, 6, tm.rfc)
          && RecentActs(cs, j, cs[j].tick, tm.faw) < 4)
    && (cs[j].code == 5 ==> LaterOn(cs, j, 4, tm.ras) && LaterOn(cs, j, 2, tm.rtp) && Later(cs, j, 6, tm.rfc))
    && (cs[j].code == 6 ==> !ActiveBefore(cs, j) && Later(cs, j, 5, tm.rp) && Later(cs, j, 6, tm.rfc))
  }

  predicate KeepsAll(tm: Timing, cs: seq<Timed>) { forall j :: 0 <= j < |cs| ==> Keeps(tm, cs, j) }

  /** Events with the same ticks, banks and meaning. */
  predicate Names(cs: seq<Timed>, h: seq<Event>) {
    && |cs| == |h|
    && forall i :: 0 <= i < |h| ==> NamesAt(cs[i], h[i])
  }

  predicate NamesAt(c: Timed, e: Event) {
    && c.tick == e.tick && c.bank == e.bank && (c.code == 2 <==> e.op == RD) && (c.code == 4 <==> e.op == ACT)
    && (c.code == 5 <==> e.op == PRE) && (c.code == 6 <==> e.op == REF)
  }

  lemma {:induction false} CommandsName(ops: seq<Op>, tick: nat)
    requires Sound(ops)
    ensures Names(Commands(ops, tick), History(ops, tick))
  {
    if ops != [] {
      SoundTail(ops);
      CommandsName(ops[1..], tick + Ticks(ops[0]));
    }
  }

  lemma {:induction false} OpenNamed(cs: seq<Timed>, h: seq<Event>, n: nat, bank: nat)
    requires Names(cs, h) && n <= |h|
    ensures OpenBefore(cs, n, bank) <==> Open(h[..n], bank)
  {
    if n > 0 {
      var m := n - 1;
      assert NamesAt(cs[m], h[m]) && h[..n][..m] == h[..m];
      OpenNamed(cs, h, m, bank);
      OpenSnoc(cs, m, bank);
    }
  }

  lemma OpenSnoc(cs: seq<Timed>, m: nat, bank: nat)
    requires m < |cs|
    ensures OpenBefore(cs, m + 1, bank) <==>
            if cs[m].bank == bank && cs[m].code == 4 then true
            else if cs[m].bank == bank && cs[m].code == 5 then false else OpenBefore(cs, m, bank)
  {
    if cs[m].bank == bank && cs[m].code == 4 {
      assert StaysOpen(cs, m, m + 1, bank);
    } else if cs[m].bank != bank || cs[m].code != 5 {
      if i :| 0 <= i < m && cs[i].code == 4 && cs[i].bank == bank && StaysOpen(cs, i, m, bank) {
        assert StaysOpen(cs, i, m + 1, bank);
      }
      if i :| 0 <= i < m + 1 && cs[i].code == 4 && cs[i].bank == bank && StaysOpen(cs, i, m + 1, bank) {
        assert i < m && StaysOpen(cs, i, m, bank);
      }
    }
  }

  lemma {:induction false} ActiveNamed(cs: seq<Timed>, h: seq<Event>, n: nat)
    requires Names(cs, h) && n <= |h|
    ensures ActiveBefore(cs, n) <==> Active(h[..n])
  {
    if n > 0 {
      var m := n - 1;
      assert NamesAt(cs[m], h[m]) && h[..n][..m] == h[..m];
      ActiveNamed(cs, h, m);
      ActiveSnoc(cs, m);
    }
  }

  lemma ActiveSnoc(cs: seq<Timed>, m: nat)
    requires m < |cs|
    ensures ActiveBefore(cs, m + 1) <==>
            if cs[m].code == 4 then true else if cs[m].code == 5 then false else ActiveBefore(cs, m)
  {
    if cs[m].code == 4 {
      assert NonePrecharged(cs, m, m + 1);
    } else if cs[m].code != 5 {
      if i :| 0 <= i < m && cs[i].code == 4 && NonePrecharged(cs, i, m) {
        assert NonePrecharged(cs, i, m + 1);
      }
      if i :| 0 <= i < m + 1 && cs[i].code == 4 && NonePrecharged(cs, i, m + 1) {
        assert i < m && NonePrecharged(cs, i, m);
      }
    }
  }

  lemma {:induction false} ActsNamed(cs: seq<Timed>, h: seq<Event>, n: nat, tick: nat, window: nat)
    requires Names(cs, h) && n <= |h|
    ensures RecentActs(cs, n, tick, window) == ActsWithin(h[..n], tick, window)
  {
    if n > 0 {
      assert NamesAt(cs[n - 1], h[n - 1]) && h[..n][..n - 1] == h[..n - 1];
      ActsNamed(cs, h, n - 1, tick, window);
    }
  }

  lemma LaterNamed(cs: seq<Timed>, h: seq<Event>, j: nat, code: nat, op: Opcode, gap: nat)
    requires Names(cs, h) && j < |h| && forall i :: 0 <= i < |h| ==> (cs[i].code == code <==> h[i].op == op)
    ensures Later(cs, j, code, gap) <==> After(h[..j], op, gap, h[j].tick)
    ensures LaterOn(cs, j, code, gap) <==> AfterOn(h[..j], h[j].bank, op, gap, h[j].tick)
  {
    assert NamesAt(cs[j], h[j]);
    forall i | 0 <= i < j
      ensures cs[i].tick == h[..j][i].tick && cs[i].bank == h[..j][i].bank && (cs[i].code == code <==> h[..j][i].op == op)
    {
      assert NamesAt(cs[i], h[i]);
    }
  }

  lemma CodesNamed(cs: seq<Timed>, h: seq<Event>)
    requires Names(cs, h)
    ensures forall i :: 0 <= i < |h| ==> (cs[i].code == 2 <==> h[i].op == RD) && (cs[i].code == 4 <==> h[i].op == ACT)
    ensures forall i :: 0 <= i < |h| ==> (cs[i].code == 5 <==> h[i].op == PRE) && (cs[i].code == 6 <==> h[i].op == REF)
  {
    forall i | 0 <= i < |h|
      ensures (cs[i].code == 2 <==> h[i].op == RD) && (cs[i].code == 4 <==> h[i].op == ACT)
      ensures (cs[i].code == 5 <==> h[i].op == PRE) && (cs[i].code == 6 <==> h[i].op == REF)
    {
      assert NamesAt(cs[i], h[i]);
    }
  }

  lemma KeepsNamed(tm: Timing, cs: seq<Timed>, h: seq<Event>, j: nat)
    requires Names(cs, h) && j < |h|
    ensures Keeps(tm, cs, j) <==> Allowed(tm, h[..j], h[j])
  {
    assert NamesAt(cs[j], h[j]);
    CodesNamed(cs, h);
    OpenNamed(cs, h, j, cs[j].bank);
    match h[j].op
    case RD =>
      LaterNamed(cs, h, j, 4, ACT, tm.rcd);
      LaterNamed(cs, h, j, 2, RD, tm.ccd);
    case ACT =>
      LaterNamed(cs, h, j, 5, PRE, tm.rp);
      LaterNamed(cs, h, j, 4, ACT, tm.rrd);
      LaterNamed(cs, h, j, 6, REF, tm.rfc);
      ActsNamed(cs, h, j, cs[j].tick, tm.faw);
    case PRE =>
      LaterNamed(cs, h, j, 4, ACT, tm.ras);
      LaterNamed(cs, h, j, 2, RD, tm.rtp);
      LaterNamed(cs, h, j, 6, REF, tm.rfc);
    case REF =>
      ActiveNamed(cs, h, j);
      LaterNamed(cs, h, j, 5, PRE, tm.rp);
      LaterNamed(cs, h, j, 6, REF, tm.rfc);
  }

  lemma {:induction false} LegalUpTo(tm: Timing, cs: seq<Timed>, h: seq<Event>, n: nat)
    requires Names(cs, h) && n <= |h|
    ensures Legal(tm, h[..n]) <==> forall j :: 0 <= j < n ==> Keeps(tm, cs, j)
  {
    if n > 0 {
      var m := n - 1;
      assert h[..n][..m] == h[..m] && h[..n][m] == h[m];
      LegalUpTo(tm, cs, h, m);
      KeepsNamed(tm, cs, h, m);
    }
  }

  /** The legal histories are those whose commands keep the rule by their numbers. */
  lemma LegalByNumbers(tm: Timing, ops: seq<Op>)
    requires Sound(ops)
    ensures Legal(tm, History(ops, 0)) <==> KeepsAll(tm, Commands(ops, 0))
  {
    CommandsName(ops, 0);
    LegalUpTo(tm, Commands(ops, 0), History(ops, 0), |History(ops, 0)|);
    assert History(ops, 0)[..|History(ops, 0)|] == History(ops, 0);
  }

  // ------------------------------------------------------- The verdict

  /** The verdict: the run of a payload finishes exactly when the commands of its unrolled form keep
      every pairwise timing, and then the final tick and the opcode counts are its totals. */
  lemma VerdictMeans(tm: Timing, p: seq<Instr>)
    requires Separate(p) && Verified(p)
    ensures var ops := Unrolled(p, 0, 0);
            && Sound(ops)
            && (Replay(tm, ops, Initial()).Finished? <==> KeepsAll(tm, Commands(ops, 0)))
            && (Replay(tm, ops, Initial()).Finished? ==>
                  && Replay(tm, ops, Initial()).tick == Duration(ops)
                  && |Replay(tm, ops, Initial()).executed| == MAX
                  && forall code :: 0 <= code < MAX ==> Replay(tm, ops, Initial()).executed[code] == Count(ops, code))
  {
    var ops := Unrolled(p, 0, 0);
    UnrolledSound(p, 0, 0);
    HistoryOrdered(ops, 0);
    HistoryBanks(ops, 0);
    ReplayAdmits(tm, ops, Initial());
    AdmitsIffLegal(tm, History(ops, 0));
    LegalByNumbers(tm, ops);
    if Replay(tm, ops, Initial()).Finished? {
      ReplayTotals(tm, ops, Initial());
    }
  }

  /** Every command before this one keeps the rule, and it does not. */
  predicate FirstBroken(tm: Timing, cs: seq<Timed>, j: nat) {
    j < |cs| && !Keeps(tm, cs, j) && forall i :: 0 <= i < j ==> Keeps(tm, cs, i)
  }

  /** The scoreboard admits the history up to command `j`, and not with it. */
  predicate BreaksAt(tm: Timing, b: Board, h: seq<Event>, j: nat)
    requires b.Valid()
  {
    && j < |h| && BanksExist(h[..j]) && BanksExist(h[..j + 1]) && Admits(tm, b, h[..j]) && !Admits(tm, b, h[..j + 1])
  }

  lemma BreaksFirst(tm: Timing, b: Board, e: Event, rest: seq<Event>)
    requires b.Valid() && e.bank < BANKS && !Accepts(tm, b, e)
    ensures BreaksAt(tm, b, [e] + rest, 0)
  {
    assert ([e] + rest)[..1] == [e] && ([e] + rest)[..0] == [];
  }

  lemma BreaksBehind(tm: Timing, b: Board, e: Event, rest: seq<Event>, k: nat)
    requires b.Valid() && e.bank < BANKS && Accepts(tm, b, e) && BreaksAt(tm, Next(tm, b, e), rest, k)
    ensures BreaksAt(tm, b, [e] + rest, k + 1)
  {
    FirstOfPrefix(e, rest, k);
    FirstOfPrefix(e, rest, k + 1);
  }

  /** A replay stops at the first command that the scoreboard does not accept. */
  lemma {:induction false} ReplayBreaks(tm: Timing, ops: seq<Op>, m: Machine) returns (j: nat)
    requires m.Valid() && Sound(ops) && Replay(tm, ops, m).Violation?
    ensures BreaksAt(tm, m.board, History(ops, m.tick), j) && History(ops, m.tick)[j].tick == Replay(tm, ops, m).tick
  {
    SoundTail(ops);
    var m' := Perform(tm, m, ops[0]);
    var rest := History(ops[1..], m'.tick);
    if ops[0].Do? {
      var e := Command(m, ops[0]);
      assert History(ops, m.tick) == [e] + rest;
      if Performs(tm, m, ops[0]) {
        var k := ReplayBreaks(tm, ops[1..], m');
        j := k + 1;
        BreaksBehind(tm, m.board, e, rest, k);
      } else {
        j := 0;
        BreaksFirst(tm, m.board, e, rest);
      }
    } else {
      assert History(ops, m.tick) == rest;
      j := ReplayBreaks(tm, ops[1..], m');
    }
  }

  lemma FirstOfPrefix(e: Event, rest: seq<Event>, k: nat)
    requires k <= |rest|
    ensures ([e] + rest)[..k + 1] == [e] + rest[..k]
    ensures ([e] + rest[..k])[0] == e && ([e] + rest[..k])[1..] == rest[..k]
  {
  }

  lemma AdmitsIffLegal(tm: Timing, h: seq<Event>)
    requires Ordered(h) && BanksExist(h)
    ensures Admits(tm, Start(), h) <==> Legal(tm, h)
  {
    EmptyAccepted(tm);
    assert h[0..] == h;
    AdmitsAccepted(tm, [], h);
    AcceptedIffLegal(tm, h);
  }

  lemma OrderedPrefix(h: seq<Event>, n: nat)
    requires Ordered(h) && n <= |h|
    ensures Ordered(h[..n])
  {
  }

  lemma PrefixKeeps(tm: Timing, cs: seq<Timed>, h: seq<Event>, n: nat)
    requires Names(cs, h) && Ordered(h) && n <= |h| && BanksExist(h[..n])
    ensures Admits(tm, Start(), h[..n]) <==> forall i :: 0 <= i < n ==> Keeps(tm, cs, i)
  {
    OrderedPrefix(h, n);
    AdmitsIffLegal(tm, h[..n]);
    LegalUpTo(tm, cs, h, n);
  }

  lemma BrokenNamed(tm: Timing, cs: seq<Timed>, h: seq<Event>, j: nat)
    requires Names(cs, h) && Ordered(h) && BreaksAt(tm, Start(), h, j)
    ensures FirstBroken(tm, cs, j)
  {
    PrefixKeeps(tm, cs, h, j);
    PrefixKeeps(tm, cs, h, j + 1);
  }

  /** A run that is broken off has come to the first command that does not keep the rule, at its tick. */
  lemma BrokenAt(tm: Timing, ops: seq<Op>) returns (j: nat)
    requires Sound(ops) && Replay(tm, ops, Initial()).Violation?
    ensures var cs := Commands(ops, 0); FirstBroken(tm, cs, j) && cs[j].tick == Replay(tm, ops, Initial()).tick
  {
    HistoryOrdered(ops, 0);
    HistoryBanks(ops, 0);
    CommandsName(ops, 0);
    j := ReplayBreaks(tm, ops, Initial());
    assert NamesAt(Commands(ops, 0)[j], History(ops, 0)[j]);
    BrokenNamed(tm, Commands(ops, 0), History(ops, 0), j);
  }

  datatype Verdict = BadTiming | IllegalInstr(ip: nat) | Broken(tick: nat) | Ok(tick: nat, executed: seq<nat>)

  predicate Positive(tickPs: nat, tm: Timing) {
    && tickPs > 0 && tm.ras > 0 && tm.rp > 0 && tm.rfc > 0 && tm.rcd > 0
    && tm.ccd > 0 && tm.rtp > 0 && tm.rrd > 0 && tm.faw > 0
  }

  /** The checks of `main` in their order. */
  method Check(tickPs: nat, tm: Timing, p: seq<Instr>) returns (v: Verdict)
    requires Positive(tickPs, tm) && Verified(p) ==> Separate(p)
    ensures v.Ok? <==> Positive(tickPs, tm) && Verified(p) && KeepsAll(tm, Commands(Unrolled(p, 0, 0), 0))
    ensures v.Ok? ==> v.tick == Duration(Unrolled(p, 0, 0)) && |v.executed| == MAX
    ensures v.Ok? ==> forall code :: 0 <= code < MAX ==> v.executed[code] == Count(Unrolled(p, 0, 0), code)
    ensures v.BadTiming? <==> !Positive(tickPs, tm)
    ensures v.IllegalInstr? <==> Positive(tickPs, tm) && !Verified(p)
    ensures v.IllegalInstr? ==> v.ip < |p| && !VerifyInstr(v.ip, p[v.ip]) && Verified(p[..v.ip])
    ensures v.Broken? ==> exists j: nat :: FirstBroken(tm, Commands(Unrolled(p, 0, 0), 0), j)
                                           && Commands(Unrolled(p, 0, 0), 0)[j].tick == v.tick
  {
    if !Positive(tickPs, tm) {
      return BadTiming;
    }
    for ip := 0 to |p|
      invariant Verified(p[..ip])
    {
      if !VerifyInstr(ip, p[ip]) {
        return IllegalInstr(ip);
      }
    }
    assert p[..|p|] == p;
    VerdictMeans(tm, p);
    var outcome := Run(tm, p);
    if outcome.Violation? {
      ghost var j := BrokenAt(tm, Unrolled(p, 0, 0));
    }
    v := match outcome
    case Violation(tick) => Broken(tick)
    case Finished(tick, executed) => Ok(tick, executed);
  }

  /** No timing parameter, and not the length of a tick, may be 0. */
  lemma CheckedTimings(tickPs: nat, tm: Timing)
    ensures Positive(tickPs, tm) <==>
            0 !in {tickPs, tm.ras, tm.rp, tm.rfc, tm.rcd, tm.ccd, tm.rtp, tm.rrd, tm.faw}
  {
  }

  lemma CheckedWidths()
    ensures Pow2(3) == 8 && Pow2(8) == 256 && Pow2(9) == 512 && Pow2(16) == 65536 && Pow2(20) == 1048576
    ensures Pow2(29) == 536870912 && BANKS == Pow2(3)
  {
    assert Pow2(4) == 16 && Pow2(8) == 256 && Pow2(9) == 512;
    Pow2Add(8, 8);
    Pow2Add(16, 4);
    Pow2Add(20, 9);
  }

  /** The instructions that pass: commands 2, 4, 5 and 6 with fields that fit, reads of whole bursts of eight, a no-op
      and a jump backwards inside the program. */
  lemma CheckedInstr(ip: nat, instr: Instr)
    ensures VerifyInstr(ip, instr) <==>
            match instr
            case Mem(opcode, timeslice, rank, bank, addr) =>
              && (opcode == 2 || opcode == 4 || opcode == 5 || opcode == 6) && 1 <= timeslice <= 255
              && rank == 0 && bank <= 7 && addr <= 65535 && (opcode == 2 ==> exists burst: nat :: addr == 8 * burst)
            case Nop(opcode, timeslice) => opcode == 0 && 1 <= timeslice <= 536870911
            case Jmp(opcode, offset, count) =>
              opcode == 7 && 1 <= offset <= 511 && offset <= ip && 1 <= count <= 1048575
            case Unset => false
  {
    CheckedWidths();
    if instr.Mem? && instr.addr % 8 == 0 {
      assert instr.addr == 8 * (instr.addr / 8);
    }
  }

  // ------------------------------------------------------- Why loops must not overlap

  /** Instruction pointer and loop counter after `n` turns in which every command keeps its timings. */
  function Moves(p: seq<Instr>, n: nat): (r: (nat, nat))
    requires Verified(p)
  {
    if n == 0 then (0, 0)
    else
      var (ip, loop) := Moves(p, n - 1);
      if ip >= |p| then (ip, loop)
      else
        assert VerifyInstr(ip, p[ip]);
        (NextIp(p, ip, loop), NextLoop(p, ip, loop))
  }

  /** The jump at `outer` repeats the jump at `inner`, the last one before it. */
  predicate Repeats(p: seq<Instr>, outer: nat, inner: nat) {
    && inner < outer < |p| && p[outer].Jmp? && p[inner].Jmp? && outer - p[outer].offset <= inner
    && forall k :: inner < k < outer ==> !p[k].Jmp?
  }

  lemma {:induction false} LastInner(p: seq<Instr>, outer: nat, k: nat) returns (inner: nat)
    requires k < outer < |p| && p[outer].Jmp? && p[k].Jmp? && outer - p[outer].offset <= k
    ensures Repeats(p, outer, inner)
    decreases outer - k
  {
    if j :| k < j < outer && p[j].Jmp? {
      inner := LastInner(p, outer, j);
    } else {
      inner := k;
    }
  }

  /** The inner jump hands the shared counter back as 0, so the outer jump is always taken. */
  lemma {:induction false} NeverPast(p: seq<Instr>, outer: nat, inner: nat, n: nat)
    requires Verified(p) && Repeats(p, outer, inner)
    ensures var (ip, loop) := Moves(p, n); ip <= outer && (ip > inner ==> loop == 0)
  {
    if n > 0 {
      NeverPast(p, outer, inner, n - 1);
      var (ip, loop) := Moves(p, n - 1);
      MoveStays(p, outer, inner, ip, loop);
    }
  }

  lemma MoveStays(p: seq<Instr>, outer: nat, inner: nat, ip: nat, loop: nat)
    requires Verified(p) && Repeats(p, outer, inner) && ip <= outer && (ip > inner ==> loop == 0)
    ensures p[ip].Jmp? ==> p[ip].offset <= ip
    ensures NextIp(p, ip, loop) <= outer
    ensures NextIp(p, ip, loop) > inner ==> NextLoop(p, ip, loop) == 0
  {
    assert VerifyInstr(ip, p[ip]) && VerifyInstr(outer, p[outer]) && VerifyInstr(inner, p[inner]);
  }

  /** Overlapping loops pass the instruction checks, and then the run loop never reaches the end. */
  lemma OverlapNeverEnds(p: seq<Instr>, n: nat)
    requires Verified(p) && !Separate(p)
    ensures Moves(p, n).0 < |p|
  {
    assert forall ip :: 0 <= ip < |p| && p[ip].Jmp? ==> VerifyInstr(ip, p[ip]) && p[ip].offset <= ip;
    var outer :| 0 <= outer < |p| && p[outer].Jmp? && !JumpFree(p, outer - p[outer].offset, outer);
    var k :| outer - p[outer].offset <= k < outer && p[k].Jmp?;
    var inner := LastInner(p, outer, k);
    NeverPast(p, outer, inner, n);
  }

  /** Such a payload exists. */
  lemma NestedIsVerified()
    ensures var nested := [Nop(NOP, 1), Jmp(JMP, 1, 1), Jmp(JMP, 2, 1)]; Verified(nested) && !Separate(nested)
  {
    var nested := [Nop(NOP, 1), Jmp(JMP, 1, 1), Jmp(JMP, 2, 1)];
    CheckedWidths();
    assert nested[2].Jmp? && nested[1].Jmp?;
  }
}
