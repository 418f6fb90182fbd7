/** Conversion between DRAM coordinates and bus or DMA addresses. */
module Addresses {
  import opened Bits

  /** Field widths, and the base-2 logarithms of the burst length, of the DRAM port width in bus words,
      and of the bus width in bytes. */
  datatype Converter = Converter(colBits: nat, rowBits: nat, bankBits: nat, align: nat, portShift: nat, wordShift: nat)
  {
    function BusShift(): int { portShift + wordShift - align }
    predicate Fits(p: Place) { p.bank < Pow2(bankBits) && p.row < Pow2(rowBits) && p.col < Pow2(colBits) }
  }

  datatype Place = Place(bank: nat, row: nat, col: nat)

  datatype Result<T> = Ok(value: T) | AssertionError

  const BASE: nat := 0x40000000

  function ShiftLeft(a: nat, n: nat): nat { a * Pow2(n) }
  function ShiftRight(a: nat, n: nat): nat { Over(a, Pow2(n)) }

  /** Row, bank and column fields or-ed together. */
  function Encode(c: Converter, p: Place): Result<nat> {
    if !c.Fits(p) then AssertionError
    else Ok(BitOr(BitOr(ShiftLeft(p.row, c.bankBits + c.colBits), ShiftLeft(p.bank, c.colBits)), p.col))
  }

  function Extract(value: nat, width: nat, offset: nat): nat {
    ShiftRight(BitAnd(value, ShiftLeft(Pow2(width) - 1, offset)), offset)
  }

  function Decode(c: Converter, address: nat): Place {
    Place(Extract(address, c.bankBits, c.colBits),
          Extract(address, c.rowBits, c.bankBits + c.colBits),
          Extract(address, c.colBits, 0))
  }

  function Shifted(a: nat, shift: int): nat { if shift > 0 then ShiftLeft(a, shift) else ShiftRight(a, -shift) }

  function EncodeBus(c: Converter, p: Place): Result<nat> {
    match Encode(c, p)
    case AssertionError => AssertionError
    case Ok(address) => Ok(BASE + Shifted(address, c.BusShift()))
  }

  function DecodeBus(c: Converter, address: nat): Place
    requires address >= BASE
  {
    Decode(c, Shifted(address - BASE, -c.BusShift()))
  }

  function EncodeDma(c: Converter, p: Place): Result<nat> {
    match Encode(c, p)
    case AssertionError => AssertionError
    case Ok(address) => Ok(ShiftRight(address, c.align))
  }

  function DecodeDma(c: Converter, address: nat): Place { Decode(c, ShiftLeft(address, c.align)) }

  // ------------------------------------------------------- The fields as a number

  /** The coordinates as the digits of one number. */
  function Linear(c: Converter, p: Place): nat { p.col + (p.bank + p.row * Pow2(c.bankBits)) * Pow2(c.colBits) }

  lemma Product(a: nat, b: nat, d: nat)
    ensures a * (b * d) == a * b * d
  {
  }

  lemma EncodeLinear(c: Converter, p: Place)
    requires c.Fits(p)
    ensures Encode(c, p) == Ok(Linear(c, p))
  {
    EncodeUpper(c, p.bank, p.row);
    var upper := p.bank + p.row * Pow2(c.bankBits);
    OrCommutes(ShiftLeft(upper, c.colBits), p.col);
    OrDisjoint(p.col, upper, c.colBits);
  }

  /** Coordinates are refused exactly when one of them does not fit its field. */
  lemma EncodeOkIff(c: Converter, p: Place)
    ensures Encode(c, p).Ok? <==> p.bank < Pow2(c.bankBits) && p.row < Pow2(c.rowBits) && p.col < Pow2(c.colBits)
    ensures EncodeBus(c, p).Ok? <==> Encode(c, p).Ok?
    ensures EncodeDma(c, p).Ok? <==> Encode(c, p).Ok?
  {
  }

  lemma EncodeUpper(c: Converter, bank: nat, row: nat)
    requires bank < Pow2(c.bankBits)
    ensures BitOr(ShiftLeft(row, c.bankBits + c.colBits), ShiftLeft(bank, c.colBits))
            == ShiftLeft(bank + row * Pow2(c.bankBits), c.colBits)
  {
    var low, high := ShiftLeft(bank, c.colBits), ShiftLeft(row, c.bankBits + c.colBits);
    Pow2Add(c.bankBits, c.colBits);
    Product(row, Pow2(c.bankBits), Pow2(c.colBits));
    BelowProduct(bank, Pow2(c.bankBits), Pow2(c.colBits));
    Distribute(bank, row * Pow2(c.bankBits), Pow2(c.colBits));
    OrCommutes(high, low);
    OrDisjoint(low, row, c.bankBits + c.colBits);
  }

  lemma BelowProduct(a: nat, b: nat, unit: nat)
    requires a < b && unit > 0
    ensures a * unit < b * unit
  {
    MulMonotone(a + 1, b, unit);
  }

  lemma Distribute(a: nat, b: nat, unit: nat)
    ensures (a + b) * unit == a * unit + b * unit
  {
  }

  /** Masking above bit `offset` is masking what is left of it. */
  lemma {:induction false} MaskShifts(value: nat, mask: nat, offset: nat, q: nat, r: nat)
    requires value == q * Pow2(offset) + r && r < Pow2(offset)
    ensures BitAnd(value, mask * Pow2(offset)) == BitAnd(q, mask) * Pow2(offset)
  {
    if offset > 0 {
      var unit := Pow2(offset - 1);
      Product(q, unit, 2);
      MaskShifts(value / 2, mask, offset - 1, q, r / 2);
      DoubledMask(value, mask * unit);
      Product(mask, unit, 2);
      Product(BitAnd(q, mask), unit, 2);
    }
  }

  lemma DoubledMask(a: nat, mask: nat)
    ensures BitAnd(a, 2 * mask) == 2 * BitAnd(a / 2, mask)
  {
    assert (2 * mask) / 2 == mask && (2 * mask) % 2 == 0;
  }

  /** A masked and shifted field is the digit at its place. */
  lemma ExtractParts(value: nat, width: nat, offset: nat, q: nat, r: nat, upper: nat, field: nat)
    requires value == q * Pow2(offset) + r && r < Pow2(offset) && q == upper * Pow2(width) + field && field < Pow2(width)
    ensures Extract(value, width, offset) == field
  {
    MaskShifts(value, Pow2(width) - 1, offset, q, r);
    MaskIsRemainder(q, width, upper, field);
    SplitAt(0, field, Pow2(offset));
  }

  // ------------------------------------------------------- Round trips

  lemma DecodeLinear(c: Converter, p: Place)
    requires c.Fits(p)
    ensures Decode(c, Linear(c, p)) == p
  {
    DecodeLow(c, p);
    DecodeRow(c, p);
  }

  lemma DecodeLow(c: Converter, p: Place)
    requires c.Fits(p)
    ensures Extract(Linear(c, p), c.colBits, 0) == p.col
    ensures Extract(Linear(c, p), c.bankBits, c.colBits) == p.bank
  {
    var upper := p.bank + p.row * Pow2(c.bankBits);
    ExtractParts(Linear(c, p), c.colBits, 0, Linear(c, p), 0, upper, p.col);
    ExtractParts(Linear(c, p), c.bankBits, c.colBits, upper, p.col, p.row, p.bank);
  }

  lemma DecodeRow(c: Converter, p: Place)
    requires c.Fits(p)
    ensures Extract(Linear(c, p), c.rowBits, c.bankBits + c.colBits) == p.row
  {
    Pow2Add(c.bankBits, c.colBits);
    TopDigit(p.col, p.bank, p.row, Pow2(c.bankBits), Pow2(c.colBits));
    ExtractParts(Linear(c, p), c.rowBits, c.bankBits + c.colBits, p.row, p.col + p.bank * Pow2(c.colBits), 0, p.row);
  }

  lemma TopDigit(low: nat, middle: nat, high: nat, size: nat, unit: nat)
    requires low < unit && middle < size
    ensures low + (middle + high * size) * unit == high * (size * unit) + (low + middle * unit)
    ensures low + middle * unit < size * unit
  {
    Product(high, size, unit);
    Distribute(middle, high * size, unit);
    MulMonotone(middle + 1, size, unit);
  }

  /** Dropping and restoring the low bits rounds down. */
  function Rounded(a: nat, bits: nat): nat { ShiftLeft(ShiftRight(a, bits), bits) }

  lemma RoundedTo(a: nat, bits: nat, q: nat, r: nat)
    requires a == q * Pow2(bits) + r && r < Pow2(bits)
    ensures Rounded(a, bits) == q * Pow2(bits)
  {
    SplitAt(r, q, Pow2(bits));
  }

  lemma RoundDigits(col: nat, upper: nat, bits: nat, more: nat, size: nat, q: nat, r: nat)
    requires col == q * Pow2(bits) + r && r < Pow2(bits) && size == more * Pow2(bits)
    ensures Rounded(col, bits) == q * Pow2(bits) <= col
    ensures Rounded(col + upper * size, bits) == Rounded(col, bits) + upper * size
  {
    assert upper * size == upper * (more * Pow2(bits));
    Product(upper, more, Pow2(bits));
    Distribute(q, upper * more, Pow2(bits));
    RoundedTo(col, bits, q, r);
    RoundedTo(col + upper * size, bits, q + upper * more, r);
  }

  lemma RoundsDown(a: nat, bits: nat)
    ensures Rounded(a, bits) <= a
  {
    DivMod(a, Pow2(bits));
  }

  lemma LinearIs(c: Converter, p: Place)
    ensures Linear(c, p) == p.col + (p.bank + p.row * Pow2(c.bankBits)) * Pow2(c.colBits)
  {
  }

  lemma LinearOf(c: Converter, p: Place, col: nat, upper: nat)
    requires upper == p.bank + p.row * Pow2(c.bankBits)
    ensures Linear(c, p.(col := col)) == col + upper * Pow2(c.colBits)
  {
  }

  lemma RoundedFits(c: Converter, p: Place, bits: nat)
    requires c.Fits(p)
    ensures c.Fits(p.(col := Rounded(p.col, bits)))
  {
    RoundsDown(p.col, bits);
  }

  /** Rounding the number is rounding the column, as long as only column bits are dropped. */
  lemma RoundLinear(c: Converter, p: Place, bits: nat)
    requires c.Fits(p) && bits <= c.colBits
    ensures c.Fits(p.(col := Rounded(p.col, bits)))
    ensures Rounded(Linear(c, p), bits) == Linear(c, p.(col := Rounded(p.col, bits)))
  {
    var upper := p.bank + p.row * Pow2(c.bankBits);
    RoundedFits(c, p, bits);
    LinearOf(c, p, p.col, upper);
    LinearOf(c, p, Rounded(p.col, bits), upper);
    RoundDigitsAt(p.col, upper, bits, c.colBits);
  }

  lemma RoundDigitsAt(col: nat, upper: nat, bits: nat, width: nat)
    requires bits <= width
    ensures Rounded(col + upper * Pow2(width), bits) == Rounded(col, bits) + upper * Pow2(width)
  {
    var q, r := Divide(col, Pow2(bits));
    Pow2Add(width - bits, bits);
    RoundDigits(col, upper, bits, Pow2(width - bits), Pow2(width), q, r);
  }

  lemma ShiftInverse(a: nat, bits: nat)
    ensures ShiftRight(ShiftLeft(a, bits), bits) == a
    ensures ShiftLeft(a, 0) == a == ShiftRight(a, 0)
  {
    SplitAt(0, a, Pow2(bits));
  }

  /** Column bits that a bus address does not carry. */
  function DroppedBits(c: Converter): nat { if c.BusShift() >= 0 then 0 else -c.BusShift() }

  /** A bus address gives back bank and row, and the column without the bits it does not carry. */
  lemma BusRoundTrip(c: Converter, p: Place)
    requires c.Fits(p) && DroppedBits(c) <= c.colBits
    ensures EncodeBus(c, p).Ok? && EncodeBus(c, p).value >= BASE
    ensures DecodeBus(c, EncodeBus(c, p).value) == p.(col := Rounded(p.col, DroppedBits(c)))
  {
    var a, shift := Linear(c, p), c.BusShift();
    EncodeLinear(c, p);
    if shift >= 0 {
      ShiftInverse(a, shift);
      ShiftInverse(p.col, 0);
      assert Shifted(Shifted(a, shift), -shift) == a;
      DecodeLinear(c, p);
    } else {
      RoundLinear(c, p, -shift);
      DecodeLinear(c, p.(col := Rounded(p.col, -shift)));
    }
  }

  predicate BusExact(c: Converter, p: Place) {
    var r := EncodeBus(c, p); r.Ok? && r.value >= BASE && DecodeBus(c, r.value) == p
  }

  /** Bus addresses determine all coordinates exactly when the shift is not negative. */
  lemma BusExactIff(c: Converter)
    requires c.colBits > 0 && DroppedBits(c) <= c.colBits
    ensures c.BusShift() >= 0 <==> forall p :: c.Fits(p) ==> BusExact(c, p)
  {
    if c.BusShift() >= 0 {
      forall p | c.Fits(p)
        ensures BusExact(c, p)
      {
        BusRoundTrip(c, p);
        ShiftInverse(p.col, 0);
      }
    } else {
      var p, bits := Place(0, 0, 1), DroppedBits(c);
      assert Pow2(c.colBits) == 2 * Pow2(c.colBits - 1) && Pow2(bits) == 2 * Pow2(bits - 1);
      BusRoundTrip(c, p);
      RoundedTo(1, bits, 0, 1);
      assert c.Fits(p) && !BusExact(c, p);
    }
  }

  /** A DMA address gives back bank and row, and the column rounded down to the burst. */
  lemma DmaRoundTrip(c: Converter, p: Place)
    requires c.Fits(p) && c.align <= c.colBits
    ensures EncodeDma(c, p).Ok?
    ensures DecodeDma(c, EncodeDma(c, p).value) == p.(col := Rounded(p.col, c.align))
  {
    EncodeLinear(c, p);
    RoundLinear(c, p, c.align);
    DecodeLinear(c, p.(col := Rounded(p.col, c.align)));
  }

  // ------------------------------------------------------- Distances

  lemma ShiftUp(a: nat, k: nat, align: nat, shift: nat, size: nat)
    requires size == align + shift
    ensures ShiftLeft(a + k * Pow2(align), shift) == ShiftLeft(a, shift) + k * Pow2(size)
  {
    Pow2Add(align, shift);
    Distribute(a, k * Pow2(align), Pow2(shift));
    Product(k, Pow2(align), Pow2(shift));
  }

  lemma ShiftDown(a: nat, k: nat, align: nat, drop: nat, size: nat)
    requires align == size + drop
    ensures ShiftRight(a + k * Pow2(align), drop) == ShiftRight(a, drop) + k * Pow2(size)
  {
    var q, r := Divide(a, Pow2(drop));
    Pow2Add(size, drop);
    Product(k, Pow2(size), Pow2(drop));
    Distribute(q, k * Pow2(size), Pow2(drop));
    SplitAt(r, q, Pow2(drop));
    SplitAt(r, q + k * Pow2(size), Pow2(drop));
  }

  /** Addresses that are `k` bursts apart, on the bus and for the DMA. */
  lemma BurstsApart(c: Converter, a: nat, k: nat)
    ensures Shifted(a + k * Pow2(c.align), c.BusShift()) == Shifted(a, c.BusShift()) + k * Pow2(c.portShift + c.wordShift)
    ensures ShiftRight(a + k * Pow2(c.align), c.align) == ShiftRight(a, c.align) + k
  {
    var size, shift := c.portShift + c.wordShift, c.BusShift();
    if shift > 0 {
      ShiftUp(a, k, c.align, shift, size);
    } else {
      ShiftDown(a, k, c.align, -shift, size);
    }
    ShiftDown(a, k, c.align, c.align, 0);
  }

  lemma EncodedAs(c: Converter, p: Place, a: nat)
    requires c.Fits(p) && a == Linear(c, p)
    ensures EncodeBus(c, p) == Ok(BASE + Shifted(a, c.BusShift())) && EncodeDma(c, p) == Ok(ShiftRight(a, c.align))
  {
    EncodeLinear(c, p);
  }

  /** The bus addresses of the first place and, as the default, of the memory. */
  lemma FirstPlace(c: Converter)
    ensures EncodeBus(c, Place(0, 0, 0)) == Ok(0x40000000) && EncodeDma(c, Place(0, 0, 0)) == Ok(0)
  {
    EncodedAs(c, Place(0, 0, 0), 0);
    NoneShifted(c.align);
    if c.BusShift() > 0 { NoneShifted(c.BusShift()); } else { NoneShifted(-c.BusShift()); }
  }

  lemma NoneShifted(n: nat)
    ensures ShiftLeft(0, n) == 0 && ShiftRight(0, n) == 0
  {
  }

  /** The same of two places. */
  lemma PlacesApart(c: Converter, p: Place, q: Place, k: nat, a: nat, b: nat)
    requires c.Fits(p) && c.Fits(q) && a == Linear(c, p) && b == Linear(c, q) && b == a + k * Pow2(c.align)
    ensures EncodeBus(c, p).Ok? && EncodeBus(c, q).Ok? && EncodeDma(c, p).Ok? && EncodeDma(c, q).Ok?
    ensures EncodeBus(c, q).value == EncodeBus(c, p).value + k * Pow2(c.portShift + c.wordShift)
    ensures EncodeDma(c, q).value == EncodeDma(c, p).value + k
  {
    EncodedAs(c, p, a);
    EncodedAs(c, q, b);
    BurstsApart(c, a, k);
  }

  lemma OneTimes(a: nat)
    ensures 1 * a == a
  {
  }

  /** Columns a burst apart are as many bytes apart on the bus as the port is wide, bus words times bytes of one, and
      one word apart for the DMA. */
  lemma ColumnDistance(c: Converter, p: Place, q: Place)
    requires c.Fits(p) && c.Fits(q) && q == p.(col := p.col + Pow2(c.align))
    ensures EncodeBus(c, p).Ok? && EncodeBus(c, q).Ok? && EncodeDma(c, p).Ok? && EncodeDma(c, q).Ok?
    ensures EncodeBus(c, q).value == EncodeBus(c, p).value + Pow2(c.portShift) * Pow2(c.wordShift)
    ensures EncodeDma(c, q).value == EncodeDma(c, p).value + 1
  {
    LinearIs(c, p);
    LinearIs(c, q);
    OneTimes(Pow2(c.align));
    PlacesApart(c, p, q, 1, Linear(c, p), Linear(c, q));
    OneTimes(Pow2(c.portShift + c.wordShift));
    Pow2Add(c.portShift, c.wordShift);
  }

  lemma NextRowLinear(c: Converter, p: Place)
    ensures Linear(c, p.(row := p.row + 1)) == Linear(c, p) + Pow2(c.bankBits + c.colBits)
  {
    Pow2Add(c.bankBits, c.colBits);
    Distribute(p.row, 1, Pow2(c.bankBits));
    Distribute(p.bank + p.row * Pow2(c.bankBits), Pow2(c.bankBits), Pow2(c.colBits));
  }

  /** Neighbouring rows are as many bursts apart as the columns of all banks hold. */
  lemma RowDistance(c: Converter, p: Place, q: Place, bursts: nat)
    requires c.Fits(p) && c.Fits(q) && q == p.(row := p.row + 1)
    requires c.align <= c.colBits && bursts == Pow2(c.bankBits + c.colBits - c.align)
    ensures EncodeBus(c, p).Ok? && EncodeBus(c, q).Ok? && EncodeDma(c, p).Ok? && EncodeDma(c, q).Ok?
    ensures EncodeBus(c, q).value == EncodeBus(c, p).value + bursts * Pow2(c.portShift + c.wordShift)
    ensures EncodeDma(c, q).value == EncodeDma(c, p).value + bursts
  {
    NextRowLinear(c, p);
    Pow2Add(c.bankBits + c.colBits - c.align, c.align);
    PlacesApart(c, p, q, bursts, Linear(c, p), Linear(c, q));
  }
}
