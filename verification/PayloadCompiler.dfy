/** The payload compiler: "hammer these rows read_count times" as unrolled loop bodies, LOOPs and
    refresh slots. A failed assertion of the source is None, or ok == false. */
module PayloadCompiler {
  import opened Bits
  import opened Isa
  import opened Program
  import opened Traces
  import opened Multiples
  import opened Wrappers

  const COUNT_MAX: nat := 4095
  const MAX_ACTS_IN_LOOP: nat := 65535

  datatype Settings = Settings(tRAS: nat, tRP: nat, tREFI: nat, tRFC: nat,
                               geometry: Geometry, bank: nat, rank: nat, refresh: bool)

  function Slot(s: Settings, timeslice: nat): Instruction {
    if s.refresh then Dfi(REF, timeslice, None) else Noop(timeslice)
  }

  function Activate(s: Settings, row: nat): Instruction {
    Dfi(ACT, s.tRAS, Some(Address(s.geometry, s.rank, s.bank, row)))
  }

  function Precharge(s: Settings): Instruction {
    Dfi(PRE, s.tRP, Some(Address(s.geometry, s.rank, 0, 1024)))
  }

  // ------------------------------------------------------- One loop

  predicate Due(s: Settings, accum: nat) { accum + s.tRAS + s.tRP > s.tREFI }

  /** What one row appends, `accum` cycles after the last refresh slot started. */
  function Chunk(s: Settings, row: nat, accum: nat): seq<Instruction> {
    (if Due(s, accum) then [Slot(s, s.tRFC)] else []) + [Activate(s, row), Precharge(s)]
  }

  function NextAccum(s: Settings, accum: nat): nat {
    (if Due(s, accum) then s.tRFC else accum) + s.tRAS + s.tRP
  }

  /** The loop body for a stream of rows. */
  function Body(s: Settings, rows: seq<nat>, accum: nat): seq<Instruction> {
    if rows == [] then [] else Chunk(s, rows[0], accum) + Body(s, rows[1..], NextAccum(s, accum))
  }

  function AccumAfter(s: Settings, rows: seq<nat>, accum: nat): nat {
    if rows == [] then accum else AccumAfter(s, rows[1..], NextAccum(s, accum))
  }

  function Slots(s: Settings, rows: seq<nat>, accum: nat): nat {
    if rows == [] then 0
    else (if Due(s, accum) then 1 else 0) + Slots(s, rows[1..], NextAccum(s, accum))
  }

  function LoopBody(s: Settings, rows: seq<nat>): seq<Instruction> {
    [Slot(s, s.tRFC)] + Body(s, rows, s.tRFC + 1)
  }

  predicate AllAccepted(p: seq<Instruction>) { forall k :: 0 <= k < |p| ==> p[k].Accepted() }

  predicate LoopOk(body: seq<Instruction>) {
    AllAccepted(body) && |body| < 0x2_0000
  }

  function OneLoop(body: seq<Instruction>, count: nat): seq<Instruction> {
    body + [Loop(count, |body|)]
  }

  /** The body for the row list unrolled so many times, and its refresh slots. */
  function UnrolledBody(s: Settings, unrolled: nat, rows: seq<nat>): seq<Instruction> {
    LoopBody(s, Repeat(unrolled, rows))
  }

  function BodySlots(s: Settings, unrolled: nat, rows: seq<nat>): nat {
    1 + Slots(s, Repeat(unrolled, rows), s.tRFC + 1)
  }

  lemma {:induction false} BodyLength(s: Settings, rows: seq<nat>, accum: nat)
    ensures |Body(s, rows, accum)| == 2 * |rows| + Slots(s, rows, accum)
  {
    if rows != [] {
      BodyLength(s, rows[1..], NextAccum(s, accum));
    }
  }

  /** The shared list that the encoders append to. */
  class Builder {
    var payload: seq<Instruction>

    constructor ()
      ensures payload == []
    {
      payload := [];
    }

    /** Constructing an instruction may fail an assertion. */
    method Append(i: Instruction) returns (ok: bool)
      modifies this
      ensures ok <==> i.Accepted()
      ensures payload == old(payload) + (if ok then [i] else [])
    {
      ok := i.Accepted();
      if ok {
        payload := payload + [i];
      }
    }

    /** One turn of the inner loop. */
    method EncodeRow(s: Settings, row: nat, accum: nat) returns (ok: bool, accum': nat, slots: nat)
      modifies this
      ensures ok <==> AllAccepted(Chunk(s, row, accum))
      ensures ok ==> payload == old(payload) + Chunk(s, row, accum)
      ensures accum' == NextAccum(s, accum) && slots == if Due(s, accum) then 1 else 0
    {
      accum', slots := accum, 0;
      ghost var chunk := Chunk(s, row, accum);
      var first := true;
      if accum + s.tRAS + s.tRP > s.tREFI {
        assert chunk[0] == Slot(s, s.tRFC);
        first := Append(Slot(s, s.tRFC));
        accum', slots := s.tRFC, 1;
      }
      accum' := accum' + s.tRAS + s.tRP;
      var second := Append(Activate(s, row));
      var third := Append(Precharge(s));
      assert chunk[slots] == Activate(s, row) && chunk[slots + 1] == Precharge(s);
      ok := first && second && third;
    }

    /** The inner loop over the row list. */
    method EncodePass(s: Settings, rows: seq<nat>, start: nat) returns (ok: bool, accum: nat, slots: nat)
      modifies this
      ensures ok <==> AllAccepted(Body(s, rows, start))
      ensures ok ==> payload == old(payload) + Body(s, rows, start)
      ensures ok ==> accum == AccumAfter(s, rows, start) && slots == Slots(s, rows, start)
    {
      ghost var before := payload;
      ok, accum, slots := true, start, 0;
      for j := 0 to |rows|
        invariant ok && AllAccepted(Body(s, rows[..j], start))
        invariant payload == before + Body(s, rows[..j], start)
        invariant accum == AccumAfter(s, rows[..j], start) && slots == Slots(s, rows[..j], start)
      {
        var due: nat;
        BodySnoc(s, rows[..j], rows[j], start);
        assert rows[..j + 1] == rows[..j] + [rows[j]];
        ok, accum, due := EncodeRow(s, rows[j], accum);
        if !ok {
          BodyPrefix(s, rows, j + 1, start);
          return;
        }
        slots := slots + due;
      }
      assert rows[..|rows|] == rows;
    }

    /** Both loops. */
    method EncodeRows(s: Settings, unrolled: nat, rows: seq<nat>) returns (ok: bool, local: nat)
      modifies this
      ensures ok <==> AllAccepted(LoopBody(s, Repeat(unrolled, rows)))
      ensures ok ==> payload == old(payload) + LoopBody(s, Repeat(unrolled, rows))
      ensures ok ==> local == 1 + Slots(s, Repeat(unrolled, rows), s.tRFC + 1)
    {
      ghost var before, slot, start := payload, [Slot(s, s.tRFC)], s.tRFC + 1;
      var accum: nat := s.tRFC + 1;
      local := 1;
      ok := Append(Slot(s, s.tRFC));
      assert slot[0] == Slot(s, s.tRFC);
      AcceptedConcat(slot, Body(s, Repeat(unrolled, rows), start));
      if !ok {
        return;
      }
      for o := 0 to unrolled
        invariant ok && AllAccepted(slot) && AllAccepted(Body(s, Repeat(o, rows), start))
        invariant payload == before + slot + Body(s, Repeat(o, rows), start)
        invariant accum == AccumAfter(s, Repeat(o, rows), start)
        invariant local == 1 + Slots(s, Repeat(o, rows), start)
      {
        var slots: nat;
        RowsStep(s, o, unrolled, rows, start);
        Associate(before + slot, Body(s, Repeat(o, rows), start), Body(s, rows, accum));
        ok, accum, slots := EncodePass(s, rows, accum);
        if !ok {
          return;
        }
        local := local + slots;
      }
      Associate(before, slot, Body(s, Repeat(unrolled, rows), start));
    }

    method EncodeOneLoop(s: Settings, unrolled: nat, rows: seq<nat>, count: nat) returns (ok: bool, refreshes: nat)
      modifies this
      ensures ok <==> LoopOk(UnrolledBody(s, unrolled, rows)) && count <= COUNT_MAX
      ensures ok ==> payload == old(payload) + OneLoop(UnrolledBody(s, unrolled, rows), count)
      ensures ok ==> refreshes == Times(BodySlots(s, unrolled, rows), count + 1)
    {
      var local: nat;
      refreshes := 0;
      ok, local := EncodeRows(s, unrolled, rows);
      if !ok {
        return;
      }
      var jump := 2 * Times(unrolled, |rows|) + local;
      JumpCoversBody(s, unrolled, rows);
      assert jump == |UnrolledBody(s, unrolled, rows)|;
      if jump >= Pow2(JUMP_BITS) {
        return false, 0;
      }
      ok := Append(Loop(count, jump));
      refreshes := Times(local, count + 1);
    }

    method LoopCount(rolled: nat, outer: nat) returns (count: nat)
      ensures count == CountOf(rolled, outer)
    {
      if outer == 0 {
        count := rolled % (COUNT_MAX + 1);
        if count == 0 { count := COUNT_MAX; } else { count := count - 1; }
      } else {
        count := COUNT_MAX;
      }
    }

    method EncodeLongLoop(s: Settings, unrolled: nat, rows: seq<nat>, rolled: nat) returns (ok: bool, refreshes: nat)
      modifies this
      ensures ok <==> (rolled > 0 ==> LoopOk(UnrolledBody(s, unrolled, rows)))
      ensures ok ==> payload == old(payload) + Blocks(UnrolledBody(s, unrolled, rows), LoopCounts(rolled))
      ensures ok ==> refreshes == Times(BodySlots(s, unrolled, rows), rolled)
    {
      ghost var body, before, counts := UnrolledBody(s, unrolled, rows), payload, LoopCounts(rolled);
      ghost var per := BodySlots(s, unrolled, rows);
      ok, refreshes := true, 0;
      var loops := (rolled + COUNT_MAX) / (COUNT_MAX + 1);
      LoopCountsExact(rolled);
      assert before + [] == before;
      for outer := 0 to loops
        invariant ok
        invariant outer > 0 ==> LoopOk(body)
        invariant payload == before + Blocks(body, counts[..outer])
        invariant refreshes == Times(per, BodyRuns(counts[..outer]))
      {
        var count := LoopCount(rolled, outer);
        var more: nat;
        ok, more := EncodeOneLoop(s, unrolled, rows, count);
        if !ok {
          return;
        }
        refreshes := refreshes + more;
        LongStep(body, before, counts, outer, per);
      }
      assert counts[..loops] == counts;
    }

    method EncodeAll(s: Settings, rows: seq<nat>, r: nat, quotient: nat, remainder: nat) returns (ok: bool, refreshes: nat)
      requires payload == []
      modifies this
      ensures ok <==> PartsOk(s, rows, r, quotient, remainder)
      ensures ok ==> payload == PayloadParts(s, rows, r, quotient, remainder)
      ensures ok ==> refreshes == Times(BodySlots(s, r, rows), quotient) + Times(BodySlots(s, 1, rows), remainder)
    {
      var more: nat;
      refreshes := 0;
      ok := Append(Noop(Lead(s)));
      if !ok {
        return;
      }
      assert payload == [Noop(Lead(s))];
      ok, refreshes := EncodeLongLoop(s, r, rows, quotient);
      if !ok {
        return;
      }
      ok, more := EncodeLongLoop(s, 1, rows, remainder);
      if !ok {
        return;
      }
      refreshes := refreshes + more;
      Finish(s);
      ok := true;
    }

    method Finish(s: Settings)
      modifies this
      ensures payload == old(payload) + [Slot(s, 1), Noop(0)]
    {
      LastTwoAccepted(s);
      var ok := Append(Slot(s, 1));
      ok := Append(Noop(0));
    }
  }

  lemma RowsStep(s: Settings, o: nat, unrolled: nat, rows: seq<nat>, start: nat)
    requires o < unrolled
    ensures var done, next, all := Repeat(o, rows), Repeat(o + 1, rows), Repeat(unrolled, rows);
            var accum := AccumAfter(s, done, start);
            && Body(s, next, start) == Body(s, done, start) + Body(s, rows, accum)
            && Slots(s, next, start) == Slots(s, done, start) + Slots(s, rows, accum)
            && AccumAfter(s, next, start) == AccumAfter(s, rows, accum)
            && (AllAccepted(Body(s, done, start)) ==>
                  (AllAccepted(Body(s, next, start)) <==> AllAccepted(Body(s, rows, accum))))
            && (AllAccepted(Body(s, all, start)) ==> AllAccepted(Body(s, next, start)))
  {
    var done, next, rest := Repeat(o, rows), Repeat(o + 1, rows), Repeat(unrolled - o - 1, rows);
    RepeatSnoc(o, rows);
    BodyConcat(s, done, rows, start);
    AcceptedConcat(Body(s, done, start), Body(s, rows, AccumAfter(s, done, start)));
    RepeatAdd(o + 1, unrolled - o - 1, rows);
    BodyConcat(s, next, rest, start);
    AcceptedConcat(Body(s, next, start), Body(s, rest, AccumAfter(s, next, start)));
  }

  lemma LongStep(body: seq<Instruction>, before: seq<Instruction>, counts: seq<nat>, k: nat, per: nat)
    requires k < |counts|
    ensures before + Blocks(body, counts[..k]) + OneLoop(body, counts[k])
            == before + Blocks(body, counts[..k + 1])
    ensures Times(per, BodyRuns(counts[..k])) + Times(per, counts[k] + 1) == Times(per, BodyRuns(counts[..k + 1]))
  {
    assert counts[..k + 1] == counts[..k] + [counts[k]];
    BlocksSnoc(body, counts[..k], counts[k]);
    Associate(before, Blocks(body, counts[..k]), OneLoop(body, counts[k]));
    TimesSum(per, BodyRuns(counts[..k]), counts[k] + 1);
  }

  lemma TimesSum(a: nat, b: nat, c: nat)
    ensures Times(a, b + c) == Times(a, b) + Times(a, c)
  {
  }

  lemma AcceptedConcat(a: seq<Instruction>, b: seq<Instruction>)
    ensures AllAccepted(a + b) <==> AllAccepted(a) && AllAccepted(b)
  {
    if AllAccepted(a + b) {
      forall k | 0 <= k < |a| ensures a[k].Accepted() { assert a[k] == (a + b)[k]; }
      forall k | 0 <= k < |b| ensures b[k].Accepted() { assert b[k] == (a + b)[|a| + k]; }
    }
  }

  lemma {:induction false} BodyConcat(s: Settings, a: seq<nat>, b: seq<nat>, accum: nat)
    ensures Body(s, a + b, accum) == Body(s, a, accum) + Body(s, b, AccumAfter(s, a, accum))
    ensures Slots(s, a + b, accum) == Slots(s, a, accum) + Slots(s, b, AccumAfter(s, a, accum))
    ensures AccumAfter(s, a + b, accum) == AccumAfter(s, b, AccumAfter(s, a, accum))
  {
    if a == [] {
      assert a + b == b;
    } else {
      var next := NextAccum(s, accum);
      FirstOfConcat(a, b);
      BodyConcat(s, a[1..], b, next);
      Associate(Chunk(s, a[0], accum), Body(s, a[1..], next), Body(s, b, AccumAfter(s, a, accum)));
    }
  }

  lemma BodySnoc(s: Settings, rows: seq<nat>, row: nat, start: nat)
    ensures var accum := AccumAfter(s, rows, start);
            && Body(s, rows + [row], start) == Body(s, rows, start) + Chunk(s, row, accum)
            && Slots(s, rows + [row], start) == Slots(s, rows, start) + (if Due(s, accum) then 1 else 0)
            && AccumAfter(s, rows + [row], start) == NextAccum(s, accum)
            && (AllAccepted(Body(s, rows + [row], start)) <==>
                AllAccepted(Body(s, rows, start)) && AllAccepted(Chunk(s, row, accum)))
  {
    var accum := AccumAfter(s, rows, start);
    BodyConcat(s, rows, [row], start);
    assert [row][1..] == [];
    assert Body(s, [row], accum) == Chunk(s, row, accum) + [];
    AcceptedConcat(Body(s, rows, start), Chunk(s, row, accum));
  }

  lemma BodyPrefix(s: Settings, rows: seq<nat>, j: nat, start: nat)
    requires j <= |rows|
    ensures AllAccepted(Body(s, rows, start)) ==> AllAccepted(Body(s, rows[..j], start))
  {
    assert rows == rows[..j] + rows[j..];
    BodyConcat(s, rows[..j], rows[j..], start);
    AcceptedConcat(Body(s, rows[..j], start), Body(s, rows[j..], AccumAfter(s, rows[..j], start)));
  }

  lemma RepeatSnoc<T>(n: nat, xs: seq<T>)
    ensures Repeat(n + 1, xs) == Repeat(n, xs) + xs
  {
    RepeatAdd(n, 1, xs);
    assert Repeat(1, xs) == xs + Repeat(0, xs) == xs;
  }

  lemma LoopBodyAccepted(s: Settings, stream: seq<nat>)
    requires AllAccepted(LoopBody(s, stream))
    ensures Slot(s, s.tRFC).Accepted() && AllAccepted(Body(s, stream, s.tRFC + 1))
  {
    AcceptedConcat([Slot(s, s.tRFC)], Body(s, stream, s.tRFC + 1));
    assert [Slot(s, s.tRFC)][0].Accepted();
  }

  lemma StreamLength(unrolled: nat, rows: seq<nat>)
    ensures |Repeat(unrolled, rows)| == Times(unrolled, |rows|)
  {
    RepeatLength(unrolled, rows);
  }

  lemma LoopBodyLength(s: Settings, stream: seq<nat>)
    ensures |LoopBody(s, stream)| == 2 * |stream| + 1 + Slots(s, stream, s.tRFC + 1)
  {
    BodyLength(s, stream, s.tRFC + 1);
  }

  /** The jump of the LOOP counts exactly the instructions of its body. */
  lemma JumpCoversBody(s: Settings, unrolled: nat, rows: seq<nat>)
    ensures var stream := Repeat(unrolled, rows);
            |LoopBody(s, stream)| == 2 * Times(unrolled, |rows|) + 1 + Slots(s, stream, s.tRFC + 1)
    ensures Pow2(JUMP_BITS) == 0x2_0000 && Pow2(COUNT_BITS) == COUNT_MAX + 1
  {
    Powers();
    StreamLength(unrolled, rows);
    LoopBodyLength(s, Repeat(unrolled, rows));
  }

  // ------------------------------------------------------- Long loops

  /** The remainder first, then full loops; a count of c runs its body c + 1 times. */
  function CountOf(rolled: nat, k: nat): nat {
    if k > 0 || rolled % (COUNT_MAX + 1) == 0 then COUNT_MAX else rolled % (COUNT_MAX + 1) - 1
  }

  function LoopCounts(rolled: nat): (counts: seq<nat>)
    ensures |counts| == (rolled + COUNT_MAX) / (COUNT_MAX + 1)
    ensures forall k :: 0 <= k < |counts| ==> counts[k] == CountOf(rolled, k)
  {
    seq((rolled + COUNT_MAX) / (COUNT_MAX + 1), k => if k >= 0 then CountOf(rolled, k) else 0)
  }

  function BodyRuns(counts: seq<nat>): nat {
    if counts == [] then 0 else BodyRuns(counts[..|counts| - 1]) + counts[|counts| - 1] + 1
  }

  lemma {:induction false} FullRuns(counts: seq<nat>)
    requires counts != [] && forall k :: 0 < k < |counts| ==> counts[k] == COUNT_MAX
    ensures BodyRuns(counts) == counts[0] + 1 + (|counts| - 1) * (COUNT_MAX + 1)
  {
    if |counts| > 1 {
      FullRuns(counts[..|counts| - 1]);
    } else {
      assert counts[..0] == [];
    }
  }

  /** Every count fits the 12-bit field, and the bodies run exactly `rolled` times in total. */
  lemma {:induction false} LoopCountsExact(rolled: nat)
    ensures forall k :: 0 <= k < |LoopCounts(rolled)| ==> LoopCounts(rolled)[k] <= COUNT_MAX < Pow2(COUNT_BITS)
    ensures BodyRuns(LoopCounts(rolled)) == rolled
  {
    Powers();
    if rolled > 0 {
      FullRuns(LoopCounts(rolled));
    }
  }

  function Blocks(body: seq<Instruction>, counts: seq<nat>): seq<Instruction> {
    if counts == [] then []
    else Blocks(body, counts[..|counts| - 1]) + OneLoop(body, counts[|counts| - 1])
  }

  lemma BlocksSnoc(body: seq<Instruction>, counts: seq<nat>, count: nat)
    ensures Blocks(body, counts + [count]) == Blocks(body, counts) + OneLoop(body, count)
    ensures BodyRuns(counts + [count]) == BodyRuns(counts) + (count + 1)
  {
    assert (counts + [count])[..|counts|] == counts;
  }

  // ------------------------------------------------------- The whole payload

  /** How often the row list is unrolled; None where a division by zero or an assertion stops the
      source: no rows, no time for a row between refreshes, or more rows than a loop can hold. */
  function Repetitions(s: Settings, rows: seq<nat>): (r: Option<nat>)
    ensures r.Some? ==> r.value > 0
  {
    if rows == [] || s.tRP + s.tRAS == 0 then None
    else
      var acts := (s.tREFI - s.tRFC) / (s.tRP + s.tRAS);
      if acts <= 0 then None
      else
        var unit := if Lcm(acts, |rows|) < MAX_ACTS_IN_LOOP then Lcm(acts, |rows|) else MAX_ACTS_IN_LOOP;
        if unit < |rows| then None
        else
          AtLeastOne(unit, |rows|);
          Some(unit / |rows|)
  }

  function Lead(s: Settings): nat {
    var trfc, trefi := s.tRFC - 2, s.tREFI - 2;
    if trfc < 1 && trefi < 1 then 1 else if trfc > trefi then trfc else trefi
  }

  predicate PartsOk(s: Settings, rows: seq<nat>, r: nat, q: nat, m: nat) {
    && Noop(Lead(s)).Accepted()
    && (q > 0 ==> LoopOk(UnrolledBody(s, r, rows))) && (m > 0 ==> LoopOk(UnrolledBody(s, 1, rows)))
  }

  /** The lead-in, `q` runs of the unrolled body, `m` single passes, the last slot and the STOP. */
  function PayloadParts(s: Settings, rows: seq<nat>, r: nat, q: nat, m: nat): seq<Instruction> {
    [Noop(Lead(s))] + Blocks(UnrolledBody(s, r, rows), LoopCounts(q)) + Blocks(UnrolledBody(s, 1, rows), LoopCounts(m))
    + [Slot(s, 1), Noop(0)]
  }

  predicate PayloadOk(s: Settings, rows: seq<nat>, r: nat, readCount: nat)
    requires r > 0
  {
    PartsOk(s, rows, r, readCount / r, readCount % r)
  }

  /** The read count divided over the unrolled loops and the remaining single passes. */
  function Payload(s: Settings, rows: seq<nat>, r: nat, readCount: nat): seq<Instruction>
    requires r > 0
  {
    PayloadParts(s, rows, r, readCount / r, readCount % r)
  }

  /** The refreshes reported for the loops. */
  function RefreshTotal(s: Settings, rows: seq<nat>, r: nat, readCount: nat): nat
    requires r > 0
  {
    Times(BodySlots(s, r, rows), readCount / r) + Times(BodySlots(s, 1, rows), readCount % r)
  }

  function Generate(s: Settings, rows: seq<nat>, readCount: nat): Option<seq<Instruction>> {
    var r := Repetitions(s, rows);
    if r.None? || !PayloadOk(s, rows, r.value, readCount) then None
    else Some(Payload(s, rows, r.value, readCount))
  }

  method ComputeRepetitions(s: Settings, rows: seq<nat>) returns (r: Option<nat>)
    ensures r == Repetitions(s, rows)
  {
    if s.tRP + s.tRAS == 0 {
      return None;
    }
    var acts := (s.tREFI - s.tRFC) / (s.tRP + s.tRAS);
    var lcm := LeastCommonMultiple(acts, |rows|);
    if lcm.ZeroDivision? {
      return None;
    }
    var unit := if lcm.value < MAX_ACTS_IN_LOOP then lcm.value else MAX_ACTS_IN_LOOP;
    if unit < |rows| || |rows| == 0 {
      return None;
    }
    r := Some(unit / |rows|);
    AtLeastOne(unit, |rows|);
  }

  lemma AtLeastOne(a: nat, b: nat)
    requires 0 < b <= a
    ensures a / b > 0
  {
    var q, r := a / b, a % b;
    assert a == q * b + r;
  }

  /** `generate_payload_from_row_list`: the words to load, unless the payload does not fit. */
  method GeneratePayload(s: Settings, rows: seq<nat>, readCount: nat, payloadMemSize: nat)
    returns (words: Option<seq<nat>>)
    ensures words == match Generate(s, rows, readCount)
                     case None => None
                     case Some(p) => if |p| > payloadMemSize / 4 then None else Some(Layout(p))
  {
    var r := ComputeRepetitions(s, rows);
    if r.None? {
      return None;
    }
    var builder := new Builder();
    var ok, refreshes := builder.EncodeAll(s, rows, r.value, readCount / r.value, readCount % r.value);
    if !ok || |builder.payload| > payloadMemSize / 4 {
      return None;
    }
    var laid := EncodePayload(builder.payload);
    words := Some(laid);
  }

  lemma LastTwoAccepted(s: Settings)
    ensures Slot(s, 1).Accepted() && Noop(0).Accepted()
  {
    Powers();
  }
}
