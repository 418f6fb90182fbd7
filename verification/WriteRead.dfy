/** Writing a pattern and reading it back: when does the reader report errors of a perfect memory? */
module WriteRead {
  import opened Bits
  import opened Pattern
  import opened BistWriter
  import BistReader

  /** The memory after a sequence of writes. */
  function Memory(sent: seq<Transfer>): map<nat, int> {
    if sent == [] then map[]
    else
      var t := sent[|sent| - 1];
      Memory(sent[..|sent| - 1])[t.address := t.data]
  }

  /** A cell holds what the last transfer to it wrote. */
  lemma {:induction false} LastTransfer(sent: seq<Transfer>, k: nat) returns (j: nat)
    requires k < |sent|
    ensures j < |sent| && sent[j].address == sent[k].address
    ensures forall i :: j < i < |sent| ==> sent[i].address != sent[k].address
    ensures sent[k].address in Memory(sent) && Memory(sent)[sent[k].address] == sent[j].data
  {
    var n := |sent| - 1;
    if sent[n].address == sent[k].address {
      j := n;
    } else {
      j := LastTransfer(sent[..n], k);
    }
  }

  /** No later one of the `n` transfers goes to the same address. */
  predicate Last(w: Widths, c: Setup, n: nat, j: nat)
    requires Valid(w, c)
  {
    forall i :: j < i < n ==> AddressOf(w, c, i) != AddressOf(w, c, j)
  }

  lemma LastWriter(w: Widths, c: Setup, n: nat, k: nat) returns (j: nat)
    requires Valid(w, c) && k < n
    ensures j < n && AddressOf(w, c, j) == AddressOf(w, c, k) && Last(w, c, n, j)
    ensures AddressOf(w, c, k) in Memory(Transfers(w, c, n))
    ensures Memory(Transfers(w, c, n))[AddressOf(w, c, k)] == TransferOf(w, c, j).data
  {
    var sent := Transfers(w, c, n);
    j := LastTransfer(sent, k);
    assert sent[j] == TransferOf(w, c, j) && sent[k] == TransferOf(w, c, k);
    forall i | j < i < n
      ensures AddressOf(w, c, i) != AddressOf(w, c, j)
    {
      assert sent[i] == TransferOf(w, c, i);
    }
  }

  /** Every read returns what the memory holds after the writes of the same setup. */
  predicate ReadBack(w: Widths, c: Setup, answers: seq<int>)
    requires Valid(w, c)
  {
    && |answers| == c.count
    && forall k :: 0 <= k < c.count ==>
         && AddressOf(w, c, k) in Memory(Transfers(w, c, c.count))
         && answers[k] == Memory(Transfers(w, c, c.count))[AddressOf(w, c, k)]
  }

  lemma {:induction false} NoMismatch(w: Widths, c: Setup, answers: seq<int>)
    requires Valid(w, c)
    ensures BistReader.Mismatches(w, c, answers) == [] <==>
            forall k :: 0 <= k < |answers| ==> answers[k] == BistReader.Expected(w, c, k)
  {
    if answers != [] {
      var n := |answers| - 1;
      NoMismatch(w, c, answers[..n]);
      assert forall k :: 0 <= k < n ==> answers[..n][k] == answers[k];
    }
  }

  /** Transfers to the same address carry the same data. */
  predicate Agrees(w: Widths, c: Setup)
    requires Valid(w, c)
  {
    forall j, k :: 0 <= j < c.count && 0 <= k < c.count && AddressOf(w, c, j) == AddressOf(w, c, k) ==>
      TransferOf(w, c, j).data == TransferOf(w, c, k).data
  }

  lemma MaskExpects(w: Widths, c: Setup, k: nat)
    requires Valid(w, c) && !c.modulo
    ensures BistReader.Expected(w, c, k) == TransferOf(w, c, k).data
  {
  }

  /** In mask mode a perfect memory gives no errors exactly when the pattern does not contradict itself. */
  lemma WriteThenRead(w: Widths, c: Setup, answers: seq<int>)
    requires Valid(w, c) && !c.modulo && ReadBack(w, c, answers)
    ensures BistReader.Mismatches(w, c, answers) == [] <==> Agrees(w, c)
  {
    NoMismatch(w, c, answers);
    if Agrees(w, c) {
      forall k | 0 <= k < c.count
        ensures answers[k] == BistReader.Expected(w, c, k)
      {
        var j := LastWriter(w, c, c.count, k);
        MaskExpects(w, c, k);
      }
    } else {
      var j, k :| 0 <= j < c.count && 0 <= k < c.count && AddressOf(w, c, j) == AddressOf(w, c, k)
                  && TransferOf(w, c, j).data != TransferOf(w, c, k).data;
      MaskExpects(w, c, j);
      MaskExpects(w, c, k);
    }
  }

  predicate WordZero(w: Widths, c: Setup, k: nat)
    requires Valid(w, c)
  {
    IndexInRange(w, c, k);
    c.words[Index(c, k)] == c.words[0]
  }

  /** The last word written to each address is word 0. */
  predicate EndsWithWordZero(w: Widths, c: Setup)
    requires Valid(w, c)
  {
    forall j :: 0 <= j < c.count && Last(w, c, c.count, j) ==> WordZero(w, c, j)
  }

  lemma ModuloExpects(w: Widths, c: Setup, j: nat, k: nat)
    requires Valid(w, c) && c.modulo && AddressOf(w, c, j) == AddressOf(w, c, k)
    ensures BistReader.Expected(w, c, k) == TransferOf(w, c, j).data <==> WordZero(w, c, j)
  {
    IndexInRange(w, c, j);
  }

  /** In modulo mode the reader's data index never moves: a perfect memory gives no errors exactly when
      the last word written to each address is word 0. */
  lemma ModuloExpectsWordZero(w: Widths, c: Setup, answers: seq<int>)
    requires Valid(w, c) && c.modulo && ReadBack(w, c, answers)
    ensures BistReader.Mismatches(w, c, answers) == [] <==> EndsWithWordZero(w, c)
  {
    NoMismatch(w, c, answers);
    if EndsWithWordZero(w, c) {
      forall k | 0 <= k < c.count
        ensures answers[k] == BistReader.Expected(w, c, k)
      {
        var j := LastWriter(w, c, c.count, k);
        ModuloExpects(w, c, j, k);
      }
    } else {
      var k :| 0 <= k < c.count && Last(w, c, c.count, k) && !WordZero(w, c, k);
      var j := LastWriter(w, c, c.count, k);
      ModuloExpects(w, c, j, k);
      assert j == k;
      assert answers[k] != BistReader.Expected(w, c, k);
    }
  }

  /** The answers of a perfect memory. */
  lemma PerfectMemory(w: Widths, c: Setup) returns (answers: seq<int>)
    requires Valid(w, c)
    ensures ReadBack(w, c, answers)
  {
    var m := Memory(Transfers(w, c, c.count));
    forall k | 0 <= k < c.count
      ensures AddressOf(w, c, k) in m
    {
      var j := LastWriter(w, c, c.count, k);
    }
    answers := seq(c.count, k requires 0 <= k < c.count => m[AddressOf(w, c, k)]);
  }

  /** Two words at two addresses, written and read in modulo mode: the second read is reported. */
  lemma ModuloReportsErrors(w: Widths) returns (c: Setup, answers: seq<int>)
    requires w.index == 1
    ensures Valid(w, c) && c.modulo && c.addresses == [0, 1] && c.words == [0, 1] && c.count == 2
    ensures ReadBack(w, c, answers) && BistReader.Mismatches(w, c, answers) != []
  {
    c := Setup(2, true, 0, 0, 1, 0, 0, [0, 1], [0, 1]);
    assert Pow2(1) == 2;
    answers := PerfectMemory(w, c);
    ModuloExpectsWordZero(w, c, answers);
    assert Last(w, c, 2, 1) && !WordZero(w, c, 1);
  }
}
