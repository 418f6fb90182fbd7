/** Measures of a bus trace: the row commands in it, the distance between refreshes, and the
    time every command leaves to the next one. */
module Traces {
  import opened Bits
  import opened Isa
  import opened Executor
  import opened Interpreter
  import opened Program
  import opened Refinement
  import opened Wrappers

  /** The commands that are not refreshes, in order. */
  function Hammers(bs: seq<Bus>): seq<Bus> {
    if bs == [] then []
    else (if bs[0].Command? && bs[0].op != REF then [bs[0]] else []) + Hammers(bs[1..])
  }

  lemma {:induction false} HammersConcat(a: seq<Bus>, b: seq<Bus>)
    ensures Hammers(a + b) == Hammers(a) + Hammers(b)
  {
    if a == [] {
      assert a + b == b;
    } else {
      FirstOfConcat(a, b);
      HammersConcat(a[1..], b);
    }
  }

  lemma {:induction false} HammersQuiet(n: nat)
    ensures Hammers(Quiet(n)) == []
  {
    if n > 0 {
      HammersQuiet(n - 1);
      assert Quiet(n)[1..] == Quiet(n - 1);
    }
  }

  lemma {:induction false} HammersRepeat(n: nat, bs: seq<Bus>)
    ensures Hammers(Repeat(n, bs)) == Repeat(n, Hammers(bs))
  {
    if n > 0 {
      HammersRepeat(n - 1, bs);
      HammersConcat(bs, Repeat(n - 1, bs));
    }
  }

  lemma {:induction false} RefreshesConcat(a: seq<Bus>, b: seq<Bus>)
    ensures Refreshes(a + b) == Refreshes(a) + Refreshes(b)
  {
    if a == [] {
      assert a + b == b;
    } else {
      RefreshesConcat(a[1..], b);
      FirstOfConcat(a, b);
    }
  }

  lemma {:induction false} RefreshesQuiet(n: nat)
    ensures Refreshes(Quiet(n)) == 0
  {
    if n > 0 {
      RefreshesQuiet(n - 1);
      assert Quiet(n)[1..] == Quiet(n - 1);
    }
  }

  lemma {:induction false} RefreshesRepeat(n: nat, bs: seq<Bus>)
    ensures Refreshes(Repeat(n, bs)) == n * Refreshes(bs)
  {
    if n > 0 {
      RefreshesRepeat(n - 1, bs);
      RefreshesConcat(bs, Repeat(n - 1, bs));
      assert n * Refreshes(bs) == (n - 1) * Refreshes(bs) + Refreshes(bs);
    }
  }

  // ------------------------------------------------------- Distance between refreshes

  /** Reading the trace with `since` cycles gone by since the last refresh started, every refresh
      comes within `limit`. */
  predicate Within(bs: seq<Bus>, since: nat, limit: nat) {
    if bs == [] then true
    else if IsRefresh(bs[0]) then since <= limit && Within(bs[1..], 1, limit)
    else Within(bs[1..], since + 1, limit)
  }

  function Since(bs: seq<Bus>, since: nat): nat {
    if bs == [] then since
    else if IsRefresh(bs[0]) then Since(bs[1..], 1)
    else Since(bs[1..], since + 1)
  }

  lemma {:induction false} WithinConcat(a: seq<Bus>, b: seq<Bus>, since: nat, limit: nat)
    ensures Within(a + b, since, limit) <==> Within(a, since, limit) && Within(b, Since(a, since), limit)
    ensures Since(a + b, since) == Since(b, Since(a, since))
  {
    if a == [] {
      assert a + b == b;
    } else {
      WithinConcat(a[1..], b, if IsRefresh(a[0]) then 1 else since + 1, limit);
      FirstOfConcat(a, b);
    }
  }

  lemma {:induction false} WithinQuiet(n: nat, since: nat, limit: nat)
    ensures Within(Quiet(n), since, limit) && Since(Quiet(n), since) == since + n
  {
    if n > 0 {
      WithinQuiet(n - 1, since + 1, limit);
      assert Quiet(n)[1..] == Quiet(n - 1);
    }
  }

  /** The cycles before the first refresh, or all of them. */
  function Until(bs: seq<Bus>): nat { if bs == [] || IsRefresh(bs[0]) then 0 else 1 + Until(bs[1..]) }

  lemma {:induction false} UntilQuiet(n: nat)
    ensures Until(Quiet(n)) == n
  {
    if n > 0 {
      UntilQuiet(n - 1);
      assert Quiet(n)[1..] == Quiet(n - 1);
    }
  }

  lemma {:induction false} UntilConcat(a: seq<Bus>, b: seq<Bus>)
    ensures Until(a + b) == if Refreshes(a) > 0 then Until(a) else |a| + Until(b)
  {
    if a == [] {
      assert a + b == b;
    } else {
      FirstOfConcat(a, b);
      UntilConcat(a[1..], b);
    }
  }

  /** Where a trace with a refresh is entered matters only until its first one. */
  lemma {:induction false} OtherStart(bs: seq<Bus>, since: nat, other: nat, limit: nat)
    requires Refreshes(bs) > 0 && Within(bs, since, limit)
    ensures Within(bs, other, limit) <==> other + Until(bs) <= limit
    ensures Since(bs, other) == Since(bs, since)
  {
    if !IsRefresh(bs[0]) {
      OtherStart(bs[1..], since + 1, other + 1, limit);
    }
  }

  /** Without a refresh time only goes by. */
  lemma {:induction false} NoRefresh(bs: seq<Bus>, since: nat, limit: nat)
    requires Refreshes(bs) == 0
    ensures Within(bs, since, limit) && Since(bs, since) == since + |bs|
  {
    if bs != [] {
      NoRefresh(bs[1..], since + 1, limit);
    }
  }

  /** Read pairwise: two refreshes with none in between start at most `limit` cycles apart. */
  lemma {:induction false} WithinMeans(bs: seq<Bus>, since: nat, limit: nat, i: nat, j: nat)
    requires Within(bs, since, limit) && i < j < |bs|
    requires IsRefresh(bs[i]) && IsRefresh(bs[j]) && forall k :: i < k < j ==> !IsRefresh(bs[k])
    ensures j - i <= limit
  {
    if i > 0 {
      WithinMeans(bs[1..], if IsRefresh(bs[0]) then 1 else since + 1, limit, i - 1, j - 1);
    } else {
      FirstWithin(bs[1..], 1, limit, j - 1);
    }
  }

  lemma {:induction false} FirstWithin(bs: seq<Bus>, since: nat, limit: nat, j: nat)
    requires Within(bs, since, limit) && j < |bs| && IsRefresh(bs[j])
    requires forall k :: 0 <= k < j ==> !IsRefresh(bs[k])
    ensures since + j <= limit
  {
    if j > 0 {
      FirstWithin(bs[1..], since + 1, limit, j - 1);
    }
  }

  // ------------------------------------------------------- Time after each command

  datatype Gaps = Gaps(act: nat, pre: nat, ref: nat)
  {
    function After(op: nat): nat {
      if op == ACT then act else if op == PRE then pre else if op == REF then ref else 1
    }
  }

  function Left(n: nat): nat { if n == 0 then 0 else n - 1 }

  /** Reading the trace with `debt` more cycles to wait, no command comes early. */
  predicate Separated(bs: seq<Bus>, g: Gaps, debt: nat) {
    if bs == [] then true
    else if bs[0].Command? then debt == 0 && Separated(bs[1..], g, Left(g.After(bs[0].op)))
    else Separated(bs[1..], g, Left(debt))
  }

  function Debt(bs: seq<Bus>, g: Gaps, debt: nat): nat {
    if bs == [] then debt
    else Debt(bs[1..], g, if bs[0].Command? then Left(g.After(bs[0].op)) else Left(debt))
  }

  lemma {:induction false} SeparatedConcat(a: seq<Bus>, b: seq<Bus>, g: Gaps, debt: nat)
    ensures Separated(a + b, g, debt) <==> Separated(a, g, debt) && Separated(b, g, Debt(a, g, debt))
    ensures Debt(a + b, g, debt) == Debt(b, g, Debt(a, g, debt))
  {
    if a == [] {
      assert a + b == b;
    } else {
      SeparatedConcat(a[1..], b, g, if a[0].Command? then Left(g.After(a[0].op)) else Left(debt));
      FirstOfConcat(a, b);
    }
  }

  lemma {:induction false} SeparatedQuiet(n: nat, g: Gaps, debt: nat)
    ensures Separated(Quiet(n), g, debt)
    ensures Debt(Quiet(n), g, debt) == if debt <= n then 0 else debt - n
  {
    if n > 0 {
      SeparatedQuiet(n - 1, g, Left(debt));
      assert Quiet(n)[1..] == Quiet(n - 1);
    }
  }

  /** Read pairwise: any two commands, not only neighbours, keep the distance of the earlier one. */
  lemma {:induction false} SeparatedMeans(bs: seq<Bus>, g: Gaps, debt: nat, i: nat, j: nat)
    requires Separated(bs, g, debt) && i < j < |bs| && bs[i].Command? && bs[j].Command?
    ensures j - i >= g.After(bs[i].op)
  {
    if i > 0 {
      SeparatedMeans(bs[1..], g, if bs[0].Command? then Left(g.After(bs[0].op)) else Left(debt), i - 1, j - 1);
    } else {
      FirstSeparated(bs[1..], g, Left(g.After(bs[0].op)), j - 1);
    }
  }

  lemma {:induction false} FirstSeparated(bs: seq<Bus>, g: Gaps, debt: nat, j: nat)
    requires Separated(bs, g, debt) && j < |bs| && bs[j].Command?
    ensures j >= debt
  {
    if j > 0 && debt > 0 {
      FirstSeparated(bs[1..], g, Left(debt), j - 1);
    }
  }

  // ------------------------------------------------------- Repetition

  lemma {:induction false} RepeatAdd<T>(m: nat, n: nat, xs: seq<T>)
    ensures Repeat(m + n, xs) == Repeat(m, xs) + Repeat(n, xs)
  {
    if m > 0 {
      RepeatAdd(m - 1, n, xs);
      Associate(xs, Repeat(m - 1, xs), Repeat(n, xs));
    } else {
      assert [] + Repeat(n, xs) == Repeat(n, xs);
    }
  }

  lemma {:induction false} RepeatTimes<T>(m: nat, n: nat, xs: seq<T>)
    ensures Repeat(m, Repeat(n, xs)) == Repeat(Times(m, n), xs)
  {
    if m > 0 {
      RepeatTimes(m - 1, n, xs);
      RepeatAdd(n, Times(m - 1, n), xs);
      assert m * n == n + (m - 1) * n;
    }
  }
}
