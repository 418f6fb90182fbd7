/** The memory range that covers a list of rows. */
module RowRanges {
  import opened Bits
  import opened Addresses

  /** Offset from the start of RAM, and size. */
  datatype Range = Range(offset: int, size: int)

  datatype Outcome = Found(range: Range) | ValueError | AssertionFailed

  function Min(rows: seq<nat>): (m: nat)
    requires rows != []
    ensures m in rows && forall r :: r in rows ==> m <= r
  {
    if |rows| == 1 then rows[0]
    else
      var rest := Min(rows[1..]);
      assert rows == [rows[0]] + rows[1..];
      if rows[0] <= rest then rows[0] else rest
  }

  function Max(rows: seq<nat>): (m: nat)
    requires rows != []
    ensures m in rows && forall r :: r in rows ==> r <= m
  {
    if |rows| == 1 then rows[0]
    else
      var rest := Max(rows[1..]);
      assert rows == [rows[0]] + rows[1..];
      if rows[0] >= rest then rows[0] else rest
  }

  /** The end is the row above the highest one, or the end of RAM when there is none. */
  function GetRangeFromRows(c: Converter, ramBase: nat, ramSize: nat, rows: seq<nat>): Outcome {
    if rows == [] then ValueError
    else
      var maxRow := Max(rows) + 1;
      match EncodeBus(c, Place(0, Min(rows), 0))
      case AssertionError => AssertionFailed
      case Ok(start) =>
        if maxRow < Pow2(c.rowBits) then
          match EncodeBus(c, Place(0, maxRow, 0))
          case AssertionError => AssertionFailed
          case Ok(end) => Found(Range(start - ramBase, end - start))
        else Found(Range(start - ramBase, ramBase + ramSize - start))
  }

  predicate Inside(ramBase: nat, range: Range, address: int) {
    ramBase + range.offset <= address < ramBase + range.offset + range.size
  }

  lemma LinearRow(c: Converter, p: Place) returns (low: nat)
    requires c.Fits(p)
    ensures Linear(c, p) == p.row * Pow2(c.bankBits + c.colBits) + low && low < Pow2(c.bankBits + c.colBits)
    ensures p.bank == 0 && p.col == 0 ==> low == 0
  {
    low := p.col + p.bank * Pow2(c.colBits);
    Pow2Add(c.bankBits, c.colBits);
    TopDigit(p.col, p.bank, p.row, Pow2(c.bankBits), Pow2(c.colBits));
  }

  /** Bus addresses of a row are one stretch, and the stretches of the rows follow each other. */
  lemma RowStretch(c: Converter, p: Place) returns (within: nat)
    requires c.Fits(p) && DroppedBits(c) <= c.bankBits + c.colBits
    ensures EncodeBus(c, p) == Ok(BASE + (p.row * Stride(c) + within)) && within < Stride(c)
    ensures p.bank == 0 && p.col == 0 ==> within == 0
  {
    EncodeLinear(c, p);
    var low := LinearRow(c, p);
    within := ShiftedStretch(p.row, low, c.bankBits + c.colBits, c.BusShift());
  }

  lemma ShiftedStretch(row: nat, low: nat, bits: nat, shift: int) returns (within: nat)
    requires low < Pow2(bits) && -shift <= bits
    ensures Shifted(row * Pow2(bits) + low, shift) == row * Pow2(bits + shift) + within
    ensures within < Pow2(bits + shift) && (low == 0 ==> within == 0)
  {
    if shift > 0 {
      Pow2Add(bits, shift);
      within := StretchLeft(row, low, Pow2(bits), Pow2(shift), Pow2(bits + shift));
    } else {
      Pow2Add(bits + shift, -shift);
      within := StretchRight(row, low, Pow2(bits), Pow2(-shift), Pow2(bits + shift));
    }
  }

  /** Addresses per row. */
  function Stride(c: Converter): nat
    requires DroppedBits(c) <= c.bankBits + c.colBits
  {
    Pow2(c.bankBits + c.colBits + c.BusShift())
  }

  lemma StretchLeft(row: nat, low: nat, unit: nat, scale: nat, stride: nat) returns (within: nat)
    requires low < unit && scale > 0 && stride == unit * scale
    ensures (row * unit + low) * scale == row * stride + within
    ensures within < stride && (low == 0 ==> within == 0)
  {
    within := low * scale;
    Distribute(row * unit, low, scale);
    Product(row, unit, scale);
    MulMonotone(low + 1, unit, scale);
  }

  lemma StretchRight(row: nat, low: nat, unit: nat, scale: nat, stride: nat) returns (within: nat)
    requires low < unit && scale > 0 && unit == stride * scale
    ensures (row * unit + low) / scale == row * stride + within
    ensures within < stride && (low == 0 ==> within == 0)
  {
    var q, r := Divide(low, scale);
    within := q;
    if q >= stride {
      MulMonotone(stride, q, scale);
    }
    if q > 0 {
      MulMonotone(1, q, scale);
    }
    Regrouped(row, stride, scale, unit, q, r, low);
    SplitAt(r, row * stride + q, scale);
  }

  lemma Regrouped(row: nat, stride: nat, scale: nat, unit: nat, q: nat, r: nat, low: nat)
    requires unit == stride * scale && low == q * scale + r
    ensures row * unit + low == r + (row * stride + q) * scale
  {
    Product(row, stride, scale);
    Distribute(row * stride, q, scale);
  }

  lemma Stretches(row: nat, within: nat, stride: nat, bound: nat)
    requires within < stride
    ensures bound * stride <= row * stride + within <==> bound <= row
  {
    if bound <= row {
      MulMonotone(bound, row, stride);
    } else {
      MulMonotone(row + 1, bound, stride);
    }
  }

  /** An address lies in the range exactly when its row lies between the lowest and the highest listed
      row; when there is no row above the highest one, the end of RAM takes its place. */
  lemma RangeIffBetween(c: Converter, ramBase: nat, ramSize: nat, rows: seq<nat>, p: Place)
    requires rows != [] && Min(rows) < Pow2(c.rowBits) && c.Fits(p) && DroppedBits(c) <= c.bankBits + c.colBits
    ensures var r, a := GetRangeFromRows(c, ramBase, ramSize, rows), EncodeBus(c, p);
            && r.Found? && a.Ok?
            && (Inside(ramBase, r.range, a.value) <==>
                  && Min(rows) <= p.row
                  && if Max(rows) + 1 < Pow2(c.rowBits) then p.row <= Max(rows) else a.value < ramBase + ramSize)
  {
    var stride := Stride(c);
    var within := RowStretch(c, p);
    var low, high := Min(rows), Max(rows) + 1;
    var w0 := RowStretch(c, Place(0, low, 0));
    Stretches(p.row, within, stride, low);
    if high < Pow2(c.rowBits) {
      var w1 := RowStretch(c, Place(0, high, 0));
      Stretches(p.row, within, stride, high);
    }
  }

  /** In particular every address of every listed row is inside, below the last row. */
  lemma RangeCovers(c: Converter, ramBase: nat, ramSize: nat, rows: seq<nat>, p: Place)
    requires p.row in rows && Max(rows) + 1 < Pow2(c.rowBits) && c.Fits(p) && DroppedBits(c) <= c.bankBits + c.colBits
    ensures var r, a := GetRangeFromRows(c, ramBase, ramSize, rows), EncodeBus(c, p);
            r.Found? && a.Ok? && Inside(ramBase, r.range, a.value)
  {
    RangeIffBetween(c, ramBase, ramSize, rows, p);
  }

  /** No range of no rows; an assertion fails exactly when even the lowest row does not exist. */
  lemma RangeOutcome(c: Converter, ramBase: nat, ramSize: nat, rows: seq<nat>)
    ensures GetRangeFromRows(c, ramBase, ramSize, rows).ValueError? <==> rows == []
    ensures GetRangeFromRows(c, ramBase, ramSize, rows).AssertionFailed? <==>
            rows != [] && forall r :: r in rows ==> r >= Pow2(c.rowBits)
  {
  }
}
