/** What the BIST engines agree on: the address and data of a transfer, and the inverter pipeline. */
module Pattern {
  import opened Bits

  const WORD: nat := 0x1_0000_0000

  /** Fixed widths: pattern addresses, DRAM addresses, data words, and the selecting row bits. */
  datatype Widths = Widths(index: nat, address: nat, data: nat, rowBits: nat, rowShift: nat)

  /** The pattern memories and the CSRs of a transfer. */
  datatype Setup = Setup(count: nat, modulo: bool, memMask: nat, dataMask: nat, dataDiv: nat,
                         divisorMask: nat, selectionMask: nat, addresses: seq<nat>, words: seq<nat>)

  predicate Valid(w: Widths, c: Setup) {
    && c.count < WORD && c.dataMask < Pow2(w.index) && c.dataDiv < Pow2(w.index)
    && |c.addresses| == Pow2(w.index) == |c.words|
  }

  function Increment(counter: nat): nat { (counter + 1) % WORD }

  function Inverted(w: Widths, word: nat): int { Pow2(w.data) - 1 - word }

  function Row(w: Widths, address: nat): nat { Field(address, w.rowShift, w.rowBits) }

  // ------------------------------------------------------- The transfers

  function Index(c: Setup, k: nat): nat {
    if c.modulo then k % (c.dataDiv + 1) else BitAnd(k, c.dataMask)
  }

  lemma IndexInRange(w: Widths, c: Setup, k: nat)
    requires Valid(w, c)
    ensures Index(c, k) < |c.addresses|
  {
    BitAndBound(k, c.dataMask);
  }

  /** The DRAM address of transfer `k`. */
  function AddressOf(w: Widths, c: Setup, k: nat): nat
    requires Valid(w, c)
  {
    IndexInRange(w, c, k);
    (c.addresses[Index(c, k)] + BitAnd(k, c.memMask)) % Pow2(w.address)
  }

  /** The bit of the selection mask for the row of an address. */
  predicate Chosen(w: Widths, c: Setup, address: nat) {
    c.selectionMask / Pow2(BitAnd(Row(w, address), c.divisorMask)) % 2 == 1
  }

  /** A pattern word as it is stored at an address. */
  function Stored(w: Widths, c: Setup, word: nat, address: nat): int {
    if Chosen(w, c, address) then Inverted(w, word) else word
  }

  // ------------------------------------------------------- The inverter

  /** Its three registers: the divided row, the match, and the data. */
  datatype Pipe = Pipe(divided: nat, selected: bool, data: int)

  function Advance(w: Widths, c: Setup, p: Pipe, address: nat, word: nat): Pipe {
    Pipe(BitAnd(Row(w, address), c.divisorMask),
         BitAnd(c.selectionMask, Pow2(p.divided)) != 0,
         if p.selected then Inverted(w, word) else word)
  }

  /** How many of the registers belong to this address, and the last one also to this word. */
  predicate Settled(w: Widths, c: Setup, p: Pipe, address: nat, word: nat, stages: nat) {
    && (stages >= 1 ==> p.divided == BitAnd(Row(w, address), c.divisorMask))
    && (stages >= 2 ==> p.selected == Chosen(w, c, address))
    && (stages >= 3 ==> p.data == Stored(w, c, word, address))
  }

  lemma {:induction false} OneHotSelects(mask: nat, i: nat)
    ensures BitAnd(mask, Pow2(i)) != 0 <==> mask / Pow2(i) % 2 == 1
  {
    if i == 0 {
      assert BitAnd(mask / 2, 0) == 0;
    } else {
      OneHotSelects(mask / 2, i - 1);
      QuotientOfQuotient(mask, Pow2(i - 1), 2);
    }
  }

  /** Each cycle with the same address and word settles one more register. */
  lemma AdvanceSettles(w: Widths, c: Setup, p: Pipe, address: nat, word: nat, stages: nat)
    requires Settled(w, c, p, address, word, stages)
    ensures Settled(w, c, Advance(w, c, p, address, word), address, word, stages + 1)
  {
    OneHotSelects(c.selectionMask, BitAnd(Row(w, address), c.divisorMask));
  }

  /** A mask narrower than a counter needs only the counter's low bits. */
  lemma {:induction false} MaskTruncates(a: nat, mask: nat, width: nat)
    requires mask < Pow2(width)
    ensures BitAnd(a % Pow2(width), mask) == BitAnd(a, mask)
  {
    if width > 0 {
      LowBits(a, Pow2(width - 1));
      MaskTruncates(a / 2, mask / 2, width - 1);
    }
  }

  lemma LowBits(a: nat, half: nat)
    requires half > 0
    ensures a % (2 * half) / 2 == a / 2 % half
    ensures a % (2 * half) % 2 == a % 2
  {
    LowParts(a, half, a / (2 * half), a % (2 * half), a / 2 / half, a / 2 % half);
  }

  /** Stepping an index that wraps at the divisor. */
  lemma ModuloStep(k: nat, div: nat)
    ensures (k + 1) % (div + 1) == if k % (div + 1) == div then 0 else k % (div + 1) + 1
  {
    var n := div + 1;
    var q, r := k / n, k % n;
    assert k == q * n + r;
    if r == div {
      assert k + 1 == (q + 1) * n + 0;
      Quotient((k + 1) / n, (k + 1) % n, q + 1, 0, n);
    } else {
      assert k + 1 == q * n + (r + 1);
      Quotient((k + 1) / n, (k + 1) % n, q, r + 1, n);
    }
  }

  /** The index counter of modulo mode. */
  function NextIndex(w: Widths, c: Setup, index: nat): nat {
    if index == c.dataDiv then 0 else (index + 1) % Pow2(w.index)
  }

  /** The index register holds the index of its counter. */
  lemma StepIndex(w: Widths, c: Setup, k: nat)
    requires Valid(w, c) && k < c.count
    ensures c.modulo ==> Index(c, k + 1) == NextIndex(w, c, Index(c, k))
    ensures !c.modulo ==> BitAnd(k % Pow2(w.index), c.dataMask) == Index(c, k)
    ensures Increment(k) == k + 1
  {
    if c.modulo {
      ModuloStep(k, c.dataDiv);
      NoWrap(c.dataDiv, k % (c.dataDiv + 1), Pow2(w.index));
    } else {
      MaskTruncates(k, c.dataMask, w.index);
    }
  }

  lemma NoWrap(div: nat, index: nat, size: nat)
    requires index <= div < size
    ensures index != div ==> (index + 1) % size == index + 1
  {
  }

  // ------------------------------------------------------- What is stored, bit by bit

  /** The row bits of an address, as far as the divisor mask keeps them, are the number of a bit of the selection
      mask. */
  function MaskedRow(w: Widths, c: Setup, address: nat): nat {
    BitAnd(address / Pow2(w.rowShift) % Pow2(w.rowBits), c.divisorMask)
  }

  /** A word that fits is stored with every bit flipped if the selection mask has the bit of its row, and else as
      it is. */
  lemma StoredBits(w: Widths, c: Setup, word: nat, address: nat, k: nat)
    requires word < Pow2(w.data) && k < w.data
    ensures 0 <= Stored(w, c, word, address) < Pow2(w.data)
    ensures Bit(Stored(w, c, word, address), k) != Bit(word, k) <==> Bit(c.selectionMask, MaskedRow(w, c, address)) == 1
  {
    BitIsDigit(c.selectionMask, MaskedRow(w, c, address));
    ComplementBit(word, w.data, k);
  }
}
