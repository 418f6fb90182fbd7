/** Instruction words of the payload executor: the host-side encoder and the gateware decoder. */
module Isa {
  import opened Bits
  import opened Wrappers

  /** The three-bit op codes; the code 3 has no name but the decoder accepts it. */
  const NOOP: nat := 0
  const ZQC: nat := 1
  const READ: nat := 2
  const ACT: nat := 4
  const PRE: nat := 5
  const REF: nat := 6
  const LOOP: nat := 7

  const TIMESLICE_BITS: nat := 5
  const ADDRESS_BITS: nat := 24
  const NOOP_BITS: nat := 29
  const COUNT_BITS: nat := 12
  const JUMP_BITS: nat := 17

  // ---------------------------------------------------------------- Decoder

  datatype Decoded = Decoded(op: nat, timeslice: nat, address: nat, count: nat, jump: nat)
  {
    predicate Stop() { op == NOOP && timeslice == 0 }
  }

  /** The bits of an op code that drive the RAS, CAS and WE lines. */
  predicate Ras(op: nat) { op / 4 % 2 == 1 }
  predicate Cas(op: nat) { op / 2 % 2 == 1 }
  predicate We(op: nat) { op % 2 == 1 }

  /** Each command asserts the lines that the DRAM knows it by, a NOOP none, and only a LOOP has all three. */
  lemma CommandLines()
    ensures Ras(ACT) && !Cas(ACT) && !We(ACT)
    ensures Ras(PRE) && !Cas(PRE) && We(PRE)
    ensures Ras(REF) && Cas(REF) && !We(REF)
    ensures !Ras(READ) && Cas(READ) && !We(READ)
    ensures !Ras(ZQC) && !Cas(ZQC) && We(ZQC)
    ensures !Ras(NOOP) && !Cas(NOOP) && !We(NOOP)
    ensures Ras(LOOP) && Cas(LOOP) && We(LOOP)
  {
  }

  /** The fields of a 32-bit word. */
  function Decode(w: nat): (d: Decoded)
    ensures d.op < 8 && d.timeslice < 0x2000_0000 && d.count < 4096 && d.jump < 0x2_0000
  {
    var tail := w / 8;
    var op := w % 8;
    Decoded(op,
            if op == NOOP then tail % 0x2000_0000 else tail % 32,
            tail / 32 % 0x100_0000,
            tail % 4096,
            tail / 4096 % 0x2_0000)
  }

  /** Widths of the rank, bank and row/column fields, and the phase on which reads are sent. */
  datatype Geometry = Geometry(rankbits: nat, bankbits: nat, addrbits: nat, rdphase: nat)
  {
    predicate Valid() { rankbits + bankbits + addrbits <= ADDRESS_BITS }
    function Rank(address: nat): nat { Field(address, 0, rankbits) }
    function Bank(address: nat): nat { Field(address, rankbits, bankbits) }
    function RowCol(address: nat): nat { Field(address, rankbits + bankbits, addrbits) }
  }

  datatype ChipSelect = AllRanks | OneRank(rank: nat)

  /** The registered DFI lines: a command on one phase, or every phase deselected. */
  datatype Bus = Inactive | Command(phase: nat, op: nat, chips: ChipSelect, bank: nat, address: nat)

  /** What the DFI executor registers for an executed word. A NOOP selects no chip and drives
      no command line, which is the idle bus. */
  function Drive(g: Geometry, d: Decoded): Bus {
    if d.op == NOOP then Inactive
    else Command(if d.op == READ then g.rdphase else 0, d.op,
                 if d.op == REF then AllRanks else OneRank(g.Rank(d.address)),
                 g.Bank(d.address), g.RowCol(d.address))
  }

  // ---------------------------------------------------------------- Encoder

  /** `Encoder.Instruction` before encoding. */
  datatype Instruction =
    | Noop(timeslice: nat)
    | Loop(count: nat, jump: nat)
    | Dfi(op: nat, timeslice: nat, address: Option<nat>)
  {
    /** The assertions of the constructor. */
    predicate Accepted() {
      match this
      case Noop(timeslice) => timeslice < Pow2(NOOP_BITS)
      case Loop(count, _) => count < Pow2(COUNT_BITS)
      case Dfi(op, timeslice, address) =>
        op in {ZQC, READ, ACT, PRE, REF} && timeslice != 0 && (address.Some? || op == REF)
    }
  }

  datatype Part = Part(width: nat, value: nat)

  function BaseTimeslice(timeslice: nat): nat {
    if timeslice % 32 == 0 then 1 else timeslice % 32
  }

  function MainParts(i: Instruction): seq<Part> {
    match i
    case Noop(timeslice) => [Part(3, NOOP), Part(NOOP_BITS, timeslice)]
    case Loop(count, jump) => [Part(3, LOOP), Part(COUNT_BITS, count), Part(JUMP_BITS, jump)]
    case Dfi(op, timeslice, address) =>
      [Part(3, op), Part(TIMESLICE_BITS, BaseTimeslice(timeslice)),
       Part(ADDRESS_BITS, if address.Some? then address.value else 0)]
  }

  /** The waits of the extra NOOPs, at most TIMESLICE_NOOP - 1 = 28 cycles each. */
  function Waits(remaining: nat): seq<nat> {
    if remaining == 0 then []
    else if remaining <= 28 then [remaining]
    else [28] + Waits(remaining - 28)
  }

  function Remaining(i: Instruction): nat {
    if i.Dfi? && i.timeslice > BaseTimeslice(i.timeslice) then i.timeslice - BaseTimeslice(i.timeslice) else 0
  }

  /** Fields laid out from the least significant bit up, each reduced to its width. */
  function Pack(parts: seq<Part>): nat {
    if parts == [] then 0
    else parts[0].value % Pow2(parts[0].width) + Pack(parts[1..]) * Pow2(parts[0].width)
  }

  function Width(parts: seq<Part>): nat {
    if parts == [] then 0 else parts[0].width + Width(parts[1..])
  }

  lemma {:induction false} PackFits(parts: seq<Part>)
    ensures Pack(parts) < Pow2(Width(parts))
  {
    if parts != [] {
      var unit := Pow2(parts[0].width);
      PackFits(parts[1..]);
      Pow2Add(parts[0].width, Width(parts[1..]));
      BelowStep(parts[0].value % unit, Pack(parts[1..]), unit, Pow2(Width(parts[1..])));
    }
  }

  lemma BelowStep(low: nat, high: nat, unit: nat, size: nat)
    requires low < unit && high < size
    ensures low + high * unit < unit * size
  {
    MulMonotone(high + 1, size, unit);
  }

  lemma Regroup(a: nat, v: nat, p: nat, unit: nat)
    ensures (a + v * p) * unit == a * unit + v * (unit * p)
  {
  }

  lemma {:induction false} PackSnoc(parts: seq<Part>, p: Part)
    ensures Width(parts + [p]) == Width(parts) + p.width
    ensures Pack(parts + [p]) == Pack(parts) + (p.value % Pow2(p.width)) * Pow2(Width(parts))
  {
    if parts == [] {
      assert ([] + [p])[1..] == [];
      assert Pack([p]) == p.value % Pow2(p.width) + Pack([]) * Pow2(p.width);
    } else {
      var head, rest := parts[0], parts[1..];
      PackSnoc(rest, p);
      assert (parts + [p])[1..] == rest + [p];
      Pow2Add(head.width, Width(rest));
      Regroup(Pack(rest), p.value % Pow2(p.width), Pow2(Width(rest)), Pow2(head.width));
    }
  }

  /** `encode_spec`, the inner loop: or-ing the masked fields together is positional packing. */
  method PackWord(parts: seq<Part>) returns (instr: nat)
    ensures instr == Pack(parts)
    ensures instr < Pow2(Width(parts))
  {
    instr := 0;
    var n := 0;
    for i := 0 to |parts|
      invariant n == Width(parts[..i])
      invariant instr == Pack(parts[..i])
    {
      var field: nat := parts[i].value % Pow2(parts[i].width);
      assert parts[..i + 1] == parts[..i] + [parts[i]];
      PackSnoc(parts[..i], parts[i]);
      PackFits(parts[..i]);
      OrDisjoint(instr, field, n);
      instr := BitOr(instr, Times(field, Pow2(n)));
      n := n + parts[i].width;
    }
    assert parts[..|parts|] == parts;
    PackFits(parts);
  }

  lemma PackTwo(a: Part, b: Part)
    ensures Pack([a, b]) == a.value % Pow2(a.width) + b.value % Pow2(b.width) * Pow2(a.width)
  {
    assert [a, b] == [a] + [b] && [a] == [] + [a];
    PackSnoc([], a);
    PackSnoc([a], b);
  }

  lemma PackThree(a: Part, b: Part, c: Part)
    ensures Pack([a, b, c]) ==
            a.value % Pow2(a.width) + b.value % Pow2(b.width) * Pow2(a.width)
            + c.value % Pow2(c.width) * Pow2(a.width + b.width)
  {
    assert [a, b, c] == [a, b] + [c] && [a, b] == [a] + [b] && [a] == [] + [a];
    PackSnoc([], a);
    PackSnoc([a], b);
    PackSnoc([a, b], c);
  }

  lemma Powers()
    ensures Pow2(0) == 1 && Pow2(3) == 8 && Pow2(5) == 32 && Pow2(8) == 256 && Pow2(12) == 4096
    ensures Pow2(15) == 32768 && Pow2(17) == 131072 && Pow2(24) == 0x100_0000 && Pow2(29) == 0x2000_0000
  {
    assert Pow2(4) == 16;
    assert Pow2(8) == 256;
    Pow2Add(4, 8);
    Pow2Add(12, 3);
    Pow2Add(12, 5);
    Pow2Add(12, 12);
    Pow2Add(24, 5);
  }

  function NoopWord(wait: nat): nat { Pack([Part(3, NOOP), Part(NOOP_BITS, wait)]) }

  lemma NoopDecodes(wait: nat)
    requires wait < 0x2000_0000
    ensures NoopWord(wait) == 8 * wait < 0x1_0000_0000
    ensures Decode(NoopWord(wait)).op == NOOP && Decode(NoopWord(wait)).timeslice == wait
  {
    Powers();
    PackTwo(Part(3, NOOP), Part(NOOP_BITS, wait));
  }

  lemma TailOf(op: nat, tail: nat)
    requires op < 8
    ensures (op + 8 * tail) % 8 == op && (op + 8 * tail) / 8 == tail
  {
  }

  lemma DfiFields(op: nat, base: nat, address: nat)
    requires op < 8 && op != NOOP && base < 32 && address < 0x100_0000
    ensures var w := op + 8 * (base + 32 * address);
            w < 0x1_0000_0000 && Decode(w).op == op && Decode(w).timeslice == base && Decode(w).address == address
  {
    TailOf(op, base + 32 * address);
  }

  lemma LoopFields(count: nat, jump: nat)
    requires count < 4096 && jump < 0x2_0000
    ensures var w := LOOP + 8 * (count + 4096 * jump);
            w < 0x1_0000_0000 && Decode(w).op == LOOP && Decode(w).count == count && Decode(w).jump == jump
  {
    TailOf(LOOP, count + 4096 * jump);
  }

  lemma DfiPacked(op: nat, base: nat, address: nat)
    requires op < 8 && base < 32
    ensures Pack([Part(3, op), Part(TIMESLICE_BITS, base), Part(ADDRESS_BITS, address)])
            == op + 8 * (base + 32 * (address % 0x100_0000))
  {
    Powers();
    PackThree(Part(3, op), Part(TIMESLICE_BITS, base), Part(ADDRESS_BITS, address));
  }

  lemma LoopPacked(count: nat, jump: nat)
    requires count < 4096
    ensures Pack([Part(3, LOOP), Part(COUNT_BITS, count), Part(JUMP_BITS, jump)])
            == LOOP + 8 * (count + 4096 * (jump % 0x2_0000))
  {
    Powers();
    PackThree(Part(3, LOOP), Part(COUNT_BITS, count), Part(JUMP_BITS, jump));
  }

  /** Refused are exactly the NOOPs and LOOPs whose timeslice or count does not survive encoding, and commands without
      a name, a timeslice, or, other than a refresh, an address. */
  lemma AcceptedIff(i: Instruction)
    ensures i.Noop? ==> (i.Accepted() <==> Decode(Pack(MainParts(i))).timeslice == i.timeslice)
    ensures i.Loop? ==> (i.Accepted() <==> Decode(Pack(MainParts(i))).count == i.count)
    ensures i.Dfi? ==> (i.Accepted() <==> i.op in {1, 2, 4, 5, 6} && i.timeslice > 0 && (i.address.None? ==> i.op == 6))
  {
    Powers();
    if i.Accepted() {
      MainDecodes(i);
    }
  }

  lemma MainDecodes(i: Instruction)
    requires i.Accepted()
    ensures Pack(MainParts(i)) < 0x1_0000_0000
    ensures var d := Decode(Pack(MainParts(i)));
            match i
            case Noop(timeslice) => d.op == NOOP && d.timeslice == timeslice
            case Loop(count, jump) => d.op == LOOP && d.count == count && d.jump == jump % 0x2_0000
            case Dfi(op, timeslice, address) =>
              && d.op == op && d.timeslice == BaseTimeslice(timeslice)
              && d.address == (if address.Some? then address.value % 0x100_0000 else 0)
  {
    match i
    case Noop(timeslice) =>
      Powers();
      NoopDecodes(timeslice);
    case Loop(count, jump) =>
      assert count < 4096 by { Powers(); }
      LoopPacked(count, jump);
      LoopFields(count, jump % 0x2_0000);
    case Dfi(op, timeslice, address) =>
      var value := if address.Some? then address.value else 0;
      DfiPacked(op, BaseTimeslice(timeslice), value);
      DfiFields(op, BaseTimeslice(timeslice), value % 0x100_0000);
  }

  function NoopWords(waits: seq<nat>): (ws: seq<nat>)
    ensures |ws| == |waits| && forall k :: 0 <= k < |ws| ==> ws[k] == NoopWord(waits[k])
  {
    seq(|waits|, k requires 0 <= k < |waits| => NoopWord(waits[k]))
  }

  /** All words of one instruction: the command, then the NOOPs that stretch it. */
  function Words(i: Instruction): seq<nat> {
    [Pack(MainParts(i))] + NoopWords(Waits(Remaining(i)))
  }

  lemma {:induction false} WaitsSnoc(done: seq<nat>, remaining: nat)
    requires remaining > 0
    ensures done + Waits(remaining) ==
            (done + [if remaining <= 28 then remaining else 28])
            + Waits(remaining - (if remaining <= 28 then remaining else 28))
  {
  }

  lemma StretchStep(first: nat, waits: seq<nat>, wait: nat)
    ensures [first] + NoopWords(waits + [wait]) == ([first] + NoopWords(waits)) + [NoopWord(wait)]
  {
  }

  /** The NOOPs behind a command. */
  method StretchWith(first: nat, remaining: nat) returns (words: seq<nat>)
    ensures words == [first] + NoopWords(Waits(remaining))
  {
    words := [first];
    ghost var waits: seq<nat> := [];
    var done := 0;
    while done < remaining
      invariant done <= remaining
      invariant waits + Waits(remaining - done) == Waits(remaining)
      invariant words == [first] + NoopWords(waits)
    {
      var wait := if remaining - done < 28 then remaining - done else 28;
      WaitsSnoc(waits, remaining - done);
      var word := PackWord([Part(3, NOOP), Part(NOOP_BITS, wait)]);
      words := words + [word];
      StretchStep(first, waits, wait);
      waits := waits + [wait];
      done := done + wait;
    }
    assert waits == Waits(remaining);
  }

  /** `encode_spec` with the NOOP splitting of the constructor. */
  method EncodeSpec(i: Instruction) returns (words: seq<nat>)
    ensures words == Words(i)
  {
    var first := PackWord(MainParts(i));
    words := [first];
    if i.Dfi? {
      var base := if i.timeslice % 32 == 0 then 1 else i.timeslice % 32;
      if base < i.timeslice {
        words := StretchWith(first, i.timeslice - base);
      }
    }
  }

  /** `encode_payload`. */
  function Layout(payload: seq<Instruction>): seq<nat> {
    if payload == [] then [] else Words(payload[0]) + Layout(payload[1..])
  }

  lemma {:induction false} LayoutConcat(a: seq<Instruction>, b: seq<Instruction>)
    ensures Layout(a + b) == Layout(a) + Layout(b)
  {
    if a == [] {
      assert a + b == b;
    } else {
      LayoutConcat(a[1..], b);
      FirstOfConcat(a, b);
      Associate(Words(a[0]), Layout(a[1..]), Layout(b));
    }
  }

  method EncodePayload(payload: seq<Instruction>) returns (ret: seq<nat>)
    ensures ret == Layout(payload)
  {
    ret := [];
    for k := 0 to |payload|
      invariant ret == Layout(payload[..k])
    {
      var words := EncodeSpec(payload[k]);
      LayoutConcat(payload[..k], [payload[k]]);
      assert payload[..k + 1] == payload[..k] + [payload[k]];
      assert Layout([payload[k]]) == Words(payload[k]);
      ret := ret + words;
    }
    assert payload[..|payload|] == payload;
  }

  function Sum(xs: seq<nat>): nat {
    if xs == [] then 0 else xs[0] + Sum(xs[1..])
  }

  lemma {:induction false} WaitsConserve(remaining: nat)
    ensures Sum(Waits(remaining)) == remaining
    ensures forall k :: 0 <= k < |Waits(remaining)| ==> 1 <= Waits(remaining)[k] <= 28
  {
    if 0 < remaining <= 28 {
      assert Sum([remaining]) == remaining + Sum([]);
    } else if remaining > 28 {
      WaitsConserve(remaining - 28);
    }
  }

  function WordTimes(words: seq<nat>): nat {
    if words == [] then 0 else Decode(words[0]).timeslice + WordTimes(words[1..])
  }

  lemma {:induction false} NoopTimes(waits: seq<nat>)
    requires forall k :: 0 <= k < |waits| ==> waits[k] < 0x2000_0000
    ensures WordTimes(NoopWords(waits)) == Sum(waits)
  {
    if waits != [] {
      NoopDecodes(waits[0]);
      NoopTimes(waits[1..]);
      assert NoopWords(waits)[1..] == NoopWords(waits[1..]);
    }
  }

  lemma {:induction false} Stretched(first: nat, waits: seq<nat>)
    requires forall k :: 0 <= k < |waits| ==> 1 <= waits[k] <= 28
    ensures WordTimes([first] + NoopWords(waits)) == Decode(first).timeslice + Sum(waits)
    ensures forall k :: 0 < k <= |waits| ==> var w := ([first] + NoopWords(waits))[k];
              w < 0x1_0000_0000 && Decode(w).op == NOOP && 0 < Decode(w).timeslice
  {
    var ws := [first] + NoopWords(waits);
    NoopTimes(waits);
    assert ws[1..] == NoopWords(waits);
    forall k | 0 < k <= |waits|
      ensures ws[k] < 0x1_0000_0000 && Decode(ws[k]).op == NOOP && 0 < Decode(ws[k]).timeslice
    {
      NoopDecodes(waits[k - 1]);
      assert ws[k] == NoopWord(waits[k - 1]);
    }
  }

  lemma RemainingSplits(i: Instruction)
    requires i.Dfi? && i.timeslice != 0
    ensures BaseTimeslice(i.timeslice) + Remaining(i) == i.timeslice
    ensures Remaining(i) == 0 <==> i.timeslice < 32
    ensures |Waits(Remaining(i))| == 0 <==> i.timeslice < 32
  {
  }

  /** Splitting an oversized timeslice keeps the total delay exactly and never emits a STOP:
      every word after the first is a NOOP with a positive timeslice. */
  lemma {:induction false} SplitKeepsDelay(i: Instruction)
    requires i.Accepted() && i.Dfi?
    ensures forall w :: w in Words(i) ==> w < 0x1_0000_0000
    ensures WordTimes(Words(i)) == i.timeslice
    ensures forall k :: 0 < k < |Words(i)| ==>
              Decode(Words(i)[k]).op == NOOP && 0 < Decode(Words(i)[k]).timeslice
    ensures Decode(Words(i)[0]).op == i.op && (|Words(i)| == 1 <==> i.timeslice < 32)
  {
    var first, waits := Pack(MainParts(i)), Waits(Remaining(i));
    assert first < 0x1_0000_0000 && Decode(first).op == i.op
           && Decode(first).timeslice == BaseTimeslice(i.timeslice) by { MainDecodes(i); }
    WaitsConserve(Remaining(i));
    Stretched(first, waits);
    RemainingSplits(i);
    assert Words(i) == [first] + NoopWords(waits);
  }

  lemma {:induction false} WaitsFull(remaining: nat)
    ensures forall k :: 0 <= k < |Waits(remaining)| - 1 ==> Waits(remaining)[k] == 28
    ensures forall k :: 0 <= k < |Waits(remaining)| ==> Waits(remaining)[k] <= 28
  {
    if remaining > 28 {
      WaitsFull(remaining - 28);
    }
  }

  /** The words of a command carry the low five bits of its timeslice, or one cycle for a multiple of 32; then 28 cycles
      each; and the last one what is left. */
  lemma SplitTimeslices(i: Instruction)
    requires i.Accepted() && i.Dfi?
    ensures Decode(Words(i)[0]).timeslice == if i.timeslice % 32 > 0 then i.timeslice % 32 else 1
    ensures forall k :: 0 < k < |Words(i)| - 1 ==> Decode(Words(i)[k]).timeslice == 28
    ensures forall k :: 0 < k < |Words(i)| ==> Decode(Words(i)[k]).timeslice <= 28
  {
    var waits := Waits(Remaining(i));
    MainDecodes(i);
    WaitsFull(Remaining(i));
    forall k | 0 < k < |Words(i)|
      ensures Decode(Words(i)[k]).timeslice == waits[k - 1]
    {
      assert Words(i)[k] == NoopWord(waits[k - 1]);
      NoopDecodes(waits[k - 1]);
    }
  }

  // ---------------------------------------------------------------- Addresses

  /** `Encoder.address`: the bank is masked, the row or column is not. */
  function Address(g: Geometry, rank: nat, bank: nat, rowcol: nat): nat {
    var address := BitOr(bank % Pow2(g.bankbits), rowcol * Pow2(g.bankbits));
    if g.rankbits == 0 then address else BitOr(address * Pow2(g.rankbits), rank)
  }

  lemma LowerAddress(bank: nat, rowcol: nat, width: nat)
    requires bank < Pow2(width)
    ensures BitOr(bank % Pow2(width), rowcol * Pow2(width)) == bank + rowcol * Pow2(width)
  {
    SmallRemainder(bank, Pow2(width));
    OrDisjoint(bank, rowcol, width);
  }

  lemma WithRank(address: nat, rank: nat, width: nat)
    requires rank < Pow2(width)
    ensures BitOr(address * Pow2(width), rank) == rank + address * Pow2(width)
  {
    OrCommutes(address * Pow2(width), rank);
    OrDisjoint(rank, address, width);
  }

  lemma AddressValue(g: Geometry, rank: nat, bank: nat, rowcol: nat)
    requires bank < Pow2(g.bankbits) && rank < Pow2(g.rankbits)
    ensures Address(g, rank, bank, rowcol) == Packed(rank, bank, rowcol, g.rankbits, g.bankbits)
  {
    LowerAddress(bank, rowcol, g.bankbits);
    if g.rankbits > 0 {
      WithRank(bank + rowcol * Pow2(g.bankbits), rank, g.rankbits);
    }
  }

  lemma {:induction false} PackedBelow(low: nat, high: nat, lo: nat, width: nat)
    requires low < Pow2(lo) && high < Pow2(width)
    ensures low + high * Pow2(lo) < Pow2(lo + width)
  {
    Pow2Add(lo, width);
    MulMonotone(high + 1, Pow2(width), Pow2(lo));
  }

  lemma LowField(low: nat, high: nat, width: nat)
    requires low < Pow2(width)
    ensures Field(low + high * Pow2(width), 0, width) == low
  {
    var w := low + high * Pow2(width);
    SplitAt(low, high, Pow2(width));
    assert w / Pow2(0) == w;
  }

  lemma HighField(low: nat, high: nat, lo: nat, width: nat)
    requires low < Pow2(lo) && high < Pow2(width)
    ensures Field(low + high * Pow2(lo), lo, width) == high
  {
    SplitAt(low, high, Pow2(lo));
    SplitAt(high, 0, Pow2(width));
  }

  function Packed(rank: nat, bank: nat, rowcol: nat, r: nat, b: nat): nat {
    rank + (bank + rowcol * Pow2(b)) * Pow2(r)
  }

  lemma PackedRank(rank: nat, bank: nat, rowcol: nat, r: nat, b: nat)
    requires rank < Pow2(r)
    ensures Field(Packed(rank, bank, rowcol, r, b), 0, r) == rank
  {
    LowField(rank, bank + rowcol * Pow2(b), r);
  }

  lemma PackedRowCol(rank: nat, bank: nat, rowcol: nat, r: nat, b: nat, a: nat)
    requires rank < Pow2(r) && bank < Pow2(b) && rowcol < Pow2(a)
    ensures Field(Packed(rank, bank, rowcol, r, b), r + b, a) == rowcol
    ensures Packed(rank, bank, rowcol, r, b) < Pow2(r + b + a)
  {
    var low := rank + bank * Pow2(r);
    PackedBelow(rank, bank, r, b);
    PackedBelow(low, rowcol, r + b, a);
    HighField(low, rowcol, r + b, a);
    assert Packed(rank, bank, rowcol, r, b) == low + rowcol * Pow2(r + b) by {
      Pow2Add(r, b);
      Regroup(bank, rowcol, Pow2(b), Pow2(r));
    }
  }

  lemma PackedBank(rank: nat, bank: nat, rowcol: nat, r: nat, b: nat)
    requires rank < Pow2(r) && bank < Pow2(b)
    ensures Field(Packed(rank, bank, rowcol, r, b), r, b) == bank
  {
    FieldOfPacked(rank, bank, rowcol, r, b);
  }

  lemma PackedFields(a: nat, rank: nat, bank: nat, rowcol: nat, r: nat, b: nat, width: nat)
    requires a == Packed(rank, bank, rowcol, r, b)
    requires rank < Pow2(r) && bank < Pow2(b) && rowcol < Pow2(width)
    ensures a < Pow2(r + b + width) && Field(a, 0, r) == rank && Field(a, r, b) == bank && Field(a, r + b, width) == rowcol
  {
    PackedRank(rank, bank, rowcol, r, b);
    PackedBank(rank, bank, rowcol, r, b);
    PackedRowCol(rank, bank, rowcol, r, b, width);
  }

  lemma PackedRoundTrip(g: Geometry, a: nat, rank: nat, bank: nat, rowcol: nat)
    requires g.Valid() && a < Pow2(g.rankbits + g.bankbits + g.addrbits)
    requires Field(a, 0, g.rankbits) == rank && Field(a, g.rankbits, g.bankbits) == bank
    requires Field(a, g.rankbits + g.bankbits, g.addrbits) == rowcol
    ensures a < Pow2(ADDRESS_BITS) && g.Rank(a) == rank && g.Bank(a) == bank && g.RowCol(a) == rowcol
  {
    Pow2Monotone(g.rankbits + g.bankbits + g.addrbits, ADDRESS_BITS);
  }

  /** In-range rank, bank and row or column survive encoding into the 24-bit address field and
      the gateware's slicing, for every choice of field widths that fits. */
  lemma AddressRoundTrip(g: Geometry, rank: nat, bank: nat, rowcol: nat)
    requires g.Valid()
    requires rank < Pow2(g.rankbits) && bank < Pow2(g.bankbits) && rowcol < Pow2(g.addrbits)
    ensures var a := Address(g, rank, bank, rowcol);
            a < Pow2(ADDRESS_BITS) && g.Rank(a) == rank && g.Bank(a) == bank && g.RowCol(a) == rowcol
  {
    AddressValue(g, rank, bank, rowcol);
    PackedFields(Address(g, rank, bank, rowcol), rank, bank, rowcol, g.rankbits, g.bankbits, g.addrbits);
    PackedRoundTrip(g, Address(g, rank, bank, rowcol), rank, bank, rowcol);
  }

  /** A bank that does not fit its field is reduced to it, and cannot reach the row or the rank. */
  lemma BankMasked(g: Geometry, rank: nat, bank: nat, rowcol: nat)
    ensures Address(g, rank, bank, rowcol) == Address(g, rank, bank % Pow2(g.bankbits), rowcol)
  {
    SmallRemainder(bank % Pow2(g.bankbits), Pow2(g.bankbits));
  }

  lemma DfiDecodes(g: Geometry, op: nat, timeslice: nat, a: nat, rank: nat, bank: nat, rowcol: nat)
    requires op in {ZQC, READ, ACT, PRE} && 0 < timeslice < 32
    requires a < Pow2(ADDRESS_BITS) && g.Rank(a) == rank && g.Bank(a) == bank && g.RowCol(a) == rowcol
    ensures var i := Dfi(op, timeslice, Some(a));
            && i.Accepted() && |Words(i)| == 1 && Words(i)[0] < 0x1_0000_0000
            && Decode(Words(i)[0]).timeslice == timeslice
            && Drive(g, Decode(Words(i)[0]))
               == Command(if op == READ then g.rdphase else 0, op, OneRank(rank), bank, rowcol)
  {
    var i := Dfi(op, timeslice, Some(a));
    Powers();
    MainDecodes(i);
    SplitKeepsDelay(i);
    SmallRemainder(a, 0x100_0000);
  }

  /** An in-range instruction fits one word, and decoding that word gives every field back. */
  lemma DfiRoundTrip(g: Geometry, op: nat, timeslice: nat, rank: nat, bank: nat, rowcol: nat)
    requires g.Valid() && op in {ZQC, READ, ACT, PRE} && 0 < timeslice < 32
    requires rank < Pow2(g.rankbits) && bank < Pow2(g.bankbits) && rowcol < Pow2(g.addrbits)
    ensures var i := Dfi(op, timeslice, Some(Address(g, rank, bank, rowcol)));
            && i.Accepted() && |Words(i)| == 1 && Words(i)[0] < 0x1_0000_0000
            && Decode(Words(i)[0]).timeslice == timeslice
            && Drive(g, Decode(Words(i)[0]))
               == Command(if op == READ then g.rdphase else 0, op, OneRank(rank), bank, rowcol)
  {
    AddressRoundTrip(g, rank, bank, rowcol);
    DfiDecodes(g, op, timeslice, Address(g, rank, bank, rowcol), rank, bank, rowcol);
  }

  /** LOOP keeps its count and its jump modulo 2^17; a count that needs 13 bits is refused. */
  lemma {:induction false} LoopRoundTrip(count: nat, jump: nat)
    requires Loop(count, jump).Accepted()
    ensures Words(Loop(count, jump)) == [Pack(MainParts(Loop(count, jump)))]
    ensures Words(Loop(count, jump))[0] < 0x1_0000_0000
    ensures var d := Decode(Words(Loop(count, jump))[0]);
            d.op == LOOP && d.count == count && (d.jump == jump <==> jump < 0x2_0000)
  {
    MainDecodes(Loop(count, jump));
  }
}
