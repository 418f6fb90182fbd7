/** The shape of a generated payload in closed form: how often the row list is unrolled, where refresh slots stand,
    how long the lead-in waits, and when there is a payload at all. */
module PayloadShape {
  import opened Bits
  import opened Isa
  import opened Multiples
  import opened Program
  import opened PayloadCompiler
  import opened PayloadWords
  import opened PayloadCuts
  import opened PayloadDelivery
  import opened Wrappers

  // ------------------------------------------------------- Unrolling

  ghost predicate Divides(d: nat, n: nat) { exists q: nat :: n == Times(q, d) }

  ghost predicate CommonMultiple(m: nat, x: nat, y: nat) { m > 0 && Divides(x, m) && Divides(y, m) }

  ghost predicate LeastMultiple(l: nat, x: nat, y: nat) {
    CommonMultiple(l, x, y) && forall m: nat :: CommonMultiple(m, x, y) ==> l <= m
  }

  lemma LcmLeast(x: nat, y: nat)
    requires x > 0 && y > 0
    ensures LeastMultiple(Lcm(x, y), x, y)
  {
    LcmIsLeast(x, y, Times(x, y), y, x);
    var p: nat, q: nat :| Lcm(x, y) == p * y && Lcm(x, y) == q * x;
    assert Lcm(x, y) == Times(p, y) && Lcm(x, y) == Times(q, x);
    forall m: nat | CommonMultiple(m, x, y)
      ensures Lcm(x, y) <= m
    {
      var u: nat :| m == Times(u, x);
      var v: nat :| m == Times(v, y);
      LcmIsLeast(x, y, m, u, v);
    }
  }

  lemma LeastUnique(l: nat, k: nat, x: nat, y: nat)
    requires LeastMultiple(l, x, y) && LeastMultiple(k, x, y)
    ensures l == k
  {
  }

  /** The quotient is the largest number of units that fit. */
  lemma FitsOften(room: int, unit: nat, n: nat)
    requires unit > 0 && Times(n, unit) <= room < Times(n + 1, unit)
    ensures room / unit == n
  {
    var k, rest := room / unit, room - n * unit;
    assert Times(n + 1, unit) == n * unit + unit;
    Bits.Quotient(n, rest, k, room % unit, unit);
  }

  lemma LargestCount(unit: nat, size: nat, r: nat)
    requires size > 0 && r == unit / size
    ensures Times(r, size) <= unit < Times(r + 1, size)
  {
    DivMod(unit, size);
    assert Times(r + 1, size) == r * size + size;
  }

  lemma OnlyMultiple(l: nat, size: nat, r: nat)
    requires size > 0 && Divides(size, l) && Times(r, size) <= l < Times(r + 1, size)
    ensures Times(r, size) == l
  {
    var q: nat :| l == Times(q, size);
    Bits.Quotient(q, 0, r, l - r * size, size);
  }

  /** Where nothing is generated: no rows, rows of no time, no time for a row between two refreshes, or more rows than
      a loop can hold. */
  lemma RepetitionsNone(s: Settings, rows: seq<nat>)
    ensures Repetitions(s, rows).None? <==>
            rows == [] || s.tRAS + s.tRP == 0 || s.tREFI - s.tRFC < s.tRAS + s.tRP || |rows| > 65535
  {
    if rows != [] && s.tRAS + s.tRP > 0 {
      var room, unit := s.tREFI - s.tRFC, s.tRP + s.tRAS;
      PositiveQuotient(room, unit);
      if room >= unit {
        LcmLeast(room / unit, |rows|);
        MultipleAtLeast(Lcm(room / unit, |rows|), |rows|);
      }
    }
  }

  lemma PositiveQuotient(room: int, unit: nat)
    requires unit > 0
    ensures room / unit > 0 <==> room >= unit
  {
    if room >= unit {
      assert room / unit * unit + room % unit == room;
    }
  }

  lemma MultipleAtLeast(m: nat, d: nat)
    requires m > 0 && Divides(d, m)
    ensures m >= d
  {
    var q: nat :| m == Times(q, d);
    assert q > 0;
    MulMonotone(1, q, d);
  }

  /** With `n` rows at most between two refreshes and their least common multiple `l` with the length of the list: the
      list is unrolled as often as fits that multiple and a loop, and to exactly the multiple if a loop has room. */
  lemma RepetitionsAre(s: Settings, rows: seq<nat>, n: nat, l: nat, r: nat)
    requires n > 0 && Times(n, s.tRAS + s.tRP) <= s.tREFI - s.tRFC < Times(n + 1, s.tRAS + s.tRP)
    requires rows != [] && LeastMultiple(l, n, |rows|) && Repetitions(s, rows) == Some(r)
    ensures Times(r, |rows|) <= l && Times(r, |rows|) <= 65535
    ensures Times(r + 1, |rows|) > l || Times(r + 1, |rows|) > 65535
    ensures Times(r + 1, |rows|) <= 65535 ==> Times(r, |rows|) == l
  {
    FitsOften(s.tREFI - s.tRFC, s.tRAS + s.tRP, n);
    LcmLeast(n, |rows|);
    LeastUnique(l, Lcm(n, |rows|), n, |rows|);
    LargestCount(if l < 65535 then l else 65535, |rows|, r);
    if Times(r + 1, |rows|) <= 65535 {
      OnlyMultiple(l, |rows|, r);
    }
  }

  /** Four rows fit between two refreshes, and two are listed: they are unrolled twice. */
  lemma TwiceUnrolled(g: Geometry)
    ensures Repetitions(Settings(10, 10, 100, 20, g, 0, 0, true), [0, 2]) == Some(2)
  {
    assert Gcd(4, 2) == Gcd(2, 0) == 2;
    assert Lcm(4, 2) == 4;
  }

  // ------------------------------------------------------- Refresh slots

  /** With room for `j` more rows before the next slot and for `n` rows behind a slot, there are as many slots as the
      other rows need, and no more. */
  lemma {:induction false} SlotsAre(s: Settings, rows: seq<nat>, accum: nat, j: nat, n: nat)
    requires n > 0 && accum + Times(j, s.tRAS + s.tRP) <= s.tREFI < accum + Times(j + 1, s.tRAS + s.tRP)
    requires s.tRFC + Times(n, s.tRAS + s.tRP) <= s.tREFI < s.tRFC + Times(n + 1, s.tRAS + s.tRP)
    ensures |rows| <= j ==> Slots(s, rows, accum) == 0
    ensures |rows| > j ==> Slots(s, rows, accum) > 0 && Times(Slots(s, rows, accum) - 1, n) < |rows| - j
    ensures |rows| > j ==> |rows| - j <= Times(Slots(s, rows, accum), n)
  {
    var unit := s.tRAS + s.tRP;
    if rows != [] {
      DueIffNoRoom(accum, unit, j, s.tREFI);
      var next := NextAccum(s, accum);
      if j > 0 {
        LessRoom(accum, unit, j, s.tREFI);
        SlotsAre(s, rows[1..], next, j - 1, n);
      } else {
        LessRoom(s.tRFC, unit, n, s.tREFI);
        SlotsAre(s, rows[1..], next, n - 1, n);
        OneMoreSlot(Slots(s, rows[1..], next), n, |rows|);
      }
    }
  }

  lemma DueIffNoRoom(accum: nat, unit: nat, j: nat, limit: nat)
    requires accum + Times(j, unit) <= limit < accum + Times(j + 1, unit)
    ensures accum + unit > limit <==> j == 0
  {
    if j > 0 {
      MulMonotone(1, j, unit);
    }
  }

  lemma LessRoom(accum: nat, unit: nat, j: nat, limit: nat)
    requires j > 0 && accum + Times(j, unit) <= limit < accum + Times(j + 1, unit)
    ensures accum + unit + Times(j - 1, unit) <= limit < accum + unit + Times(j, unit)
  {
    assert j * unit == (j - 1) * unit + unit && (j + 1) * unit == j * unit + unit;
  }

  lemma OneMoreSlot(k: nat, n: nat, rows: nat)
    requires n > 0 && rows > 0
    requires rows - 1 <= n - 1 ==> k == 0
    requires rows - 1 > n - 1 ==> k > 0 && Times(k - 1, n) < rows - n <= Times(k, n)
    ensures Times(k, n) < rows <= Times(k + 1, n)
  {
    assert Times(k + 1, n) == k * n + n;
    if k > 0 {
      assert Times(k, n) == (k - 1) * n + n;
    }
  }

  /** The lead-in waits for the longest of a cycle, the refresh and the refresh interval, less what the handover takes. */
  lemma LeadIs(s: Settings)
    ensures Lead(s) >= 1 && Lead(s) + 2 >= s.tRFC && Lead(s) + 2 >= s.tREFI
    ensures Lead(s) == 1 || Lead(s) + 2 == s.tRFC || Lead(s) + 2 == s.tREFI
  {
  }

  // ------------------------------------------------------- Cycles

  lemma {:induction false} TimeConcat(a: seq<Instruction>, b: seq<Instruction>)
    ensures TimeOf(a + b) == TimeOf(a) + TimeOf(b)
  {
    if a == [] {
      assert a + b == b;
    } else {
      FirstOfConcat(a, b);
      TimeConcat(a[1..], b);
    }
  }

  lemma ChunkTime(s: Settings, row: nat, accum: nat)
    ensures TimeOf(Chunk(s, row, accum)) == s.tRAS + s.tRP + if Due(s, accum) then s.tRFC else 0
  {
    var pair := [Activate(s, row), Precharge(s)];
    assert pair[1..] == [Precharge(s)] && pair[1..][1..] == [];
    assert TimeOf(pair) == s.tRAS + TimeOf(pair[1..]);
    if Due(s, accum) {
      TimeConcat([Slot(s, s.tRFC)], pair);
      OneTime(Slot(s, s.tRFC));
    } else {
      assert Chunk(s, row, accum) == pair;
    }
  }

  lemma OneTime(i: Instruction)
    ensures TimeOf([i]) == Time(i)
  {
    assert [i][1..] == [];
  }

  lemma BodyTimeStep(s: Settings, rows: seq<nat>, accum: nat)
    requires rows != []
    ensures TimeOf(Body(s, rows, accum)) ==
            s.tRAS + s.tRP + (if Due(s, accum) then s.tRFC else 0) + TimeOf(Body(s, rows[1..], NextAccum(s, accum)))
  {
    ChunkTime(s, rows[0], accum);
    TimeConcat(Chunk(s, rows[0], accum), Body(s, rows[1..], NextAccum(s, accum)));
  }

  lemma {:induction false} BodyTimeFrom(s: Settings, rows: seq<nat>, accum: nat)
    ensures TimeOf(Body(s, rows, accum)) == Times(|rows|, s.tRAS + s.tRP) + Times(Slots(s, rows, accum), s.tRFC)
  {
    if rows != [] {
      var next := NextAccum(s, accum);
      BodyTimeFrom(s, rows[1..], next);
      BodyTimeStep(s, rows, accum);
      AddRow(TimeOf(Body(s, rows[1..], next)), |rows| - 1, s.tRAS + s.tRP, Due(s, accum), Slots(s, rows[1..], next), s.tRFC);
    }
  }

  lemma AddRow(rest: nat, rows: nat, cycle: nat, due: bool, slots: nat, refresh: nat)
    requires rest == Times(rows, cycle) + Times(slots, refresh)
    ensures cycle + (if due then refresh else 0) + rest ==
            Times(rows + 1, cycle) + Times((if due then 1 else 0) + slots, refresh)
  {
    TimesStep(rows, cycle);
    TimesStep(slots, refresh);
  }

  /** With refresh on or off a body takes the row cycles of its rows and tRFC for each of its slots. */
  lemma BodyTime(s: Settings, unrolled: nat, rows: seq<nat>)
    ensures TimeOf(UnrolledBody(s, unrolled, rows)) ==
            Times(Times(unrolled, |rows|), s.tRAS + s.tRP) + Times(BodySlots(s, unrolled, rows), s.tRFC)
  {
    var stream := Repeat(unrolled, rows);
    StreamLength(unrolled, rows);
    BodyTimeFrom(s, stream, s.tRFC + 1);
    TimeConcat([Slot(s, s.tRFC)], Body(s, stream, s.tRFC + 1));
    OneTime(Slot(s, s.tRFC));
    TimesStep(Slots(s, stream, s.tRFC + 1), s.tRFC);
  }

  /** Every payload ends with one more slot of a single cycle and a STOP. */
  lemma LastSlot(s: Settings, rows: seq<nat>, r: nat, q: nat, m: nat)
    ensures var p := PayloadParts(s, rows, r, q, m);
            && |p| >= 3 && p[0] == Noop(Lead(s)) && p[|p| - 1] == Noop(0)
            && Time(p[|p| - 2]) == 1 && (Refreshing(p[|p| - 2]) <==> s.refresh)
  {
  }

  // ------------------------------------------------------- When there is a payload

  /** All instructions of a body can be built. */
  predicate TimesOk(s: Settings) {
    s.tRAS > 0 && s.tRP > 0 && if s.refresh then s.tRFC > 0 else s.tRFC < 0x2000_0000
  }

  lemma {:induction false} BodyAccepted(s: Settings, rows: seq<nat>, accum: nat)
    requires TimesOk(s)
    ensures AllAccepted(Body(s, rows, accum))
  {
    if rows != [] {
      var chunk, rest := Chunk(s, rows[0], accum), Body(s, rows[1..], NextAccum(s, accum));
      BodyAccepted(s, rows[1..], NextAccum(s, accum));
      SlotAccepted(s);
      AcceptedConcat(chunk, rest);
    }
  }

  lemma SlotAccepted(s: Settings)
    ensures Slot(s, s.tRFC).Accepted() <==> if s.refresh then s.tRFC > 0 else s.tRFC < 0x2000_0000
  {
    Powers();
  }

  lemma BodyOk(s: Settings, unrolled: nat, rows: seq<nat>)
    requires unrolled > 0 && rows != []
    ensures LoopOk(UnrolledBody(s, unrolled, rows)) <==>
            TimesOk(s) && 2 * Times(unrolled, |rows|) + BodySlots(s, unrolled, rows) < 0x2_0000
  {
    var stream := Repeat(unrolled, rows);
    JumpCoversBody(s, unrolled, rows);
    SlotAccepted(s);
    if TimesOk(s) {
      BodyAccepted(s, stream, s.tRFC + 1);
      AcceptedConcat([Slot(s, s.tRFC)], Body(s, stream, s.tRFC + 1));
    }
    if AllAccepted(UnrolledBody(s, unrolled, rows)) {
      BodyTimes(s, stream);
      LoopBodyAccepted(s, stream);
    }
  }

  /** Of a row list that is unrolled `r` times, with `q` runs of that body and `m` single passes: there is a payload
      exactly when the lead-in fits its field, all times are positive, and the jumps over both bodies fit theirs. */
  lemma GeneratesIff(s: Settings, rows: seq<nat>, readCount: nat, r: nat, q: nat, m: nat)
    requires Repetitions(s, rows) == Some(r) && readCount == q * r + m && m < r
    ensures Generate(s, rows, readCount).Some? <==>
            && Lead(s) < 0x2000_0000 && (readCount > 0 ==> TimesOk(s))
            && (q > 0 ==> 2 * Times(r, |rows|) + BodySlots(s, r, rows) < 0x2_0000)
            && (m > 0 ==> 2 * |rows| + BodySlots(s, 1, rows) < 0x2_0000)
  {
    Bits.Quotient(readCount / r, readCount % r, q, m, r);
    Powers();
    if q > 0 {
      BodyOk(s, r, rows);
    }
    if m > 0 {
      BodyOk(s, 1, rows);
    }
    SomeRuns(q, r, m);
  }

  lemma SomeRuns(q: nat, r: nat, m: nat)
    requires r > 0
    ensures q * r + m > 0 <==> q > 0 || m > 0
  {
  }
}
