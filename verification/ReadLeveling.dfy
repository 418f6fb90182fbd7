/** The choice of bitslip and delay from the results of read leveling. */
module ReadLeveling {
  import opened Wrappers

  datatype Score = Score(delay: int, errors: nat)

  /** The delays tested with one bitslip, in order. */
  datatype Column = Column(bitslip: int, scores: seq<Score>)

  /** Positions of a window: its first delay, and the position after its last. */
  datatype Span = Span(first: nat, after: nat)

  datatype Best = Best(bitslip: int, delay: int, length: int)

  /** The caller tests increasing delays. */
  predicate Increasing(ds: seq<Score>) { forall i, j :: 0 <= i < j < |ds| ==> ds[i].delay < ds[j].delay }

  /** A longest run of error-free delays: positions `i` to `j - 1`. */
  predicate Window(ds: seq<Score>, i: nat, j: nat) {
    && i < j <= |ds|
    && (forall k :: i <= k < j ==> ds[k].errors == 0)
    && (i == 0 || ds[i - 1].errors != 0) && (j == |ds| || ds[j].errors != 0)
  }

  /** The end recorded for a window: the first delay with errors, or the last delay tested. */
  function End(ds: seq<Score>, j: nat): int
    requires 0 < j <= |ds|
  {
    if j < |ds| then ds[j].delay else ds[j - 1].delay
  }

  function Length(ds: seq<Score>, i: nat, j: nat): int
    requires i < j <= |ds|
  {
    End(ds, j) - ds[i].delay
  }

  function Recorded(ds: seq<Score>, span: Span): (int, int)
    requires span.first < span.after <= |ds|
  {
    (ds[span.first].delay, End(ds, span.after))
  }

  ghost predicate AllWindows(ds: seq<Score>, spans: seq<Span>) {
    && (forall k :: 0 <= k < |spans| ==> Window(ds, spans[k].first, spans[k].after))
    && (forall i: nat, j: nat :: Window(ds, i, j) ==> Span(i, j) in spans)
    && (forall k, l :: 0 <= k < l < |spans| ==> spans[k].first < spans[l].first)
  }

  /** The windows that end before position `n`. */
  ghost predicate Closed(ds: seq<Score>, spans: seq<Span>, n: nat) {
    && (forall k :: 0 <= k < |spans| ==> spans[k].after < n && Window(ds, spans[k].first, spans[k].after))
    && (forall i: nat, j: nat :: Window(ds, i, j) && j < n ==> Span(i, j) in spans)
    && (forall k, l :: 0 <= k < l < |spans| ==> spans[k].first < spans[l].first)
  }

  /** A window that has not ended at position `n`. */
  predicate Open(ds: seq<Score>, start: nat, n: nat) {
    && start < n <= |ds| && (start == 0 || ds[start - 1].errors != 0)
    && forall k :: start <= k < n ==> ds[k].errors == 0
  }

  lemma NothingEnds(ds: seq<Score>, spans: seq<Span>, n: nat)
    requires Closed(ds, spans, n) && n < |ds| && (n == 0 || ds[n - 1].errors != 0 || ds[n].errors == 0)
    ensures Closed(ds, spans, n + 1)
  {
    assert forall i: nat :: !Window(ds, i, n);
  }

  lemma WindowEnds(ds: seq<Score>, spans: seq<Span>, start: nat, n: nat)
    requires Closed(ds, spans, n) && Open(ds, start, n) && (n == |ds| || ds[n].errors != 0)
    ensures Closed(ds, spans + [Span(start, n)], n + 1)
  {
    var more := spans + [Span(start, n)];
    assert Window(ds, start, n) && more[|spans|] == Span(start, n);
    forall i: nat, j: nat | Window(ds, i, j) && j < n + 1
      ensures Span(i, j) in more
    {
      if j == n {
        OneStart(ds, i, start, n);
      } else {
        assert Span(i, j) in spans;
      }
    }
  }

  predicate Listed(ds: seq<Score>, windows: seq<(int, int)>, spans: seq<Span>) {
    && |windows| == |spans|
    && forall k :: 0 <= k < |spans| ==> spans[k].first < spans[k].after <= |ds| && windows[k] == Recorded(ds, spans[k])
  }

  /** The windows that end before position `n`, as recorded. */
  ghost predicate Scanned(ds: seq<Score>, windows: seq<(int, int)>, spans: seq<Span>, n: nat) {
    Closed(ds, spans, n) && Listed(ds, windows, spans)
  }

  lemma ScanSkips(ds: seq<Score>, windows: seq<(int, int)>, spans: seq<Span>, n: nat)
    requires Scanned(ds, windows, spans, n) && n < |ds| && (n == 0 || ds[n - 1].errors != 0 || ds[n].errors == 0)
    ensures Scanned(ds, windows, spans, n + 1)
  {
    NothingEnds(ds, spans, n);
  }

  lemma ListMore(ds: seq<Score>, windows: seq<(int, int)>, spans: seq<Span>, span: Span)
    requires Listed(ds, windows, spans) && span.first < span.after <= |ds|
    ensures Listed(ds, windows + [Recorded(ds, span)], spans + [span])
  {
  }

  lemma ScanCloses(ds: seq<Score>, windows: seq<(int, int)>, spans: seq<Span>, start: nat, n: nat)
    requires Scanned(ds, windows, spans, n) && Open(ds, start, n) && (n == |ds| || ds[n].errors != 0)
    ensures Scanned(ds, windows + [(ds[start].delay, End(ds, n))], spans + [Span(start, n)], n + 1)
  {
    WindowEnds(ds, spans, start, n);
    ListMore(ds, windows, spans, Span(start, n));
  }

  lemma AllScanned(ds: seq<Score>, windows: seq<(int, int)>, spans: seq<Span>, n: nat)
    requires Scanned(ds, windows, spans, n)
    requires n == |ds| + 1 || (n == |ds| && (ds == [] || ds[n - 1].errors != 0))
    ensures AllWindows(ds, spans) && Listed(ds, windows, spans)
  {
  }

  /** The loop over the delays. */
  method ScanDelays(ds: seq<Score>) returns (windows: seq<(int, int)>, ghost spans: seq<Span>)
    ensures AllWindows(ds, spans) && Listed(ds, windows, spans)
  {
    windows, spans := [], [];
    var inWindow, windowStart := false, 0;
    ghost var start := 0;
    for n := 0 to |ds|
      invariant Scanned(ds, windows, spans, n)
      invariant inWindow ==> Open(ds, start, n) && windowStart == ds[start].delay
      invariant !inWindow ==> n == 0 || ds[n - 1].errors != 0
    {
      if ds[n].errors == 0 && !inWindow {
        ScanSkips(ds, windows, spans, n);
        windowStart, inWindow := ds[n].delay, true;
        start := n;
        assert Open(ds, start, n + 1);
      } else if inWindow && ds[n].errors != 0 {
        ScanCloses(ds, windows, spans, start, n);
        windows := windows + [(windowStart, ds[n].delay)];
        spans := spans + [Span(start, n)];
        inWindow := false;
      } else {
        ScanSkips(ds, windows, spans, n);
        assert inWindow ==> Open(ds, start, n + 1);
      }
    }
    if inWindow {
      ScanCloses(ds, windows, spans, start, |ds|);
      windows := windows + [(windowStart, ds[|ds| - 1].delay)];
      spans := spans + [Span(start, |ds|)];
      AllScanned(ds, windows, spans, |ds| + 1);
    } else {
      AllScanned(ds, windows, spans, |ds|);
    }
  }

  lemma WindowListed(ds: seq<Score>, windows: seq<(int, int)>, spans: seq<Span>, i: nat, j: nat)
    requires AllWindows(ds, spans) && Listed(ds, windows, spans) && Window(ds, i, j)
    ensures Recorded(ds, Span(i, j)) in windows
  {
    var k :| 0 <= k < |spans| && spans[k] == Span(i, j);
    assert windows[k] == Recorded(ds, spans[k]);
  }

  /** The windows of one bitslip: exactly the longest error-free runs, in order. */
  method FindWindows(ds: seq<Score>) returns (windows: seq<(int, int)>, ghost spans: seq<Span>)
    ensures AllWindows(ds, spans) && |windows| == |spans|
    ensures forall k :: 0 <= k < |spans| ==> windows[k] == Recorded(ds, spans[k])
    ensures forall i: nat, j: nat :: Window(ds, i, j) ==> Recorded(ds, Span(i, j)) in windows
  {
    windows, spans := ScanDelays(ds);
    forall i: nat, j: nat | Window(ds, i, j)
      ensures Recorded(ds, Span(i, j)) in windows
    {
      WindowListed(ds, windows, spans, i, j);
    }
  }

  lemma OneStart(ds: seq<Score>, i: nat, start: nat, j: nat)
    requires Window(ds, i, j) && Window(ds, start, j)
    ensures i == start
  {
  }

  /** The first of the longest windows of a bitslip. */
  ghost predicate Longest(ds: seq<Score>, i: nat, j: nat) {
    && Window(ds, i, j)
    && (forall k: nat, l: nat :: Window(ds, k, l) ==> Length(ds, k, l) <= Length(ds, i, j))
    && (forall k: nat, l: nat :: Window(ds, k, l) && k < i ==> Length(ds, k, l) < Length(ds, i, j))
  }

  predicate AllFail(ds: seq<Score>) { forall k :: 0 <= k < |ds| ==> ds[k].errors != 0 }

  ghost predicate Blank(ds: seq<Score>) { forall i: nat, j: nat :: !Window(ds, i, j) }

  function Extent(window: (int, int)): int { window.1 - window.0 }

  /** The first of the largest of a list. */
  predicate FirstLargest(windows: seq<(int, int)>, best: nat) {
    && best < |windows|
    && (forall k :: 0 <= k < |windows| ==> Extent(windows[k]) <= Extent(windows[best]))
    && (forall k :: 0 <= k < best ==> Extent(windows[k]) < Extent(windows[best]))
  }

  method MaxByLength(windows: seq<(int, int)>) returns (best: nat)
    requires windows != []
    ensures FirstLargest(windows, best)
  {
    best := 0;
    for k := 1 to |windows|
      invariant best < k
      invariant forall l :: 0 <= l < k ==> Extent(windows[l]) <= Extent(windows[best])
      invariant forall l :: 0 <= l < best ==> Extent(windows[l]) < Extent(windows[best])
    {
      if Extent(windows[k]) > Extent(windows[best]) {
        best := k;
      }
    }
  }

  lemma FirstLargestIsLongest(ds: seq<Score>, windows: seq<(int, int)>, spans: seq<Span>, best: nat)
    requires AllWindows(ds, spans) && |windows| == |spans| && FirstLargest(windows, best)
    requires forall k :: 0 <= k < |spans| ==> windows[k] == Recorded(ds, spans[k])
    ensures Longest(ds, spans[best].first, spans[best].after)
  {
    var i, j := spans[best].first, spans[best].after;
    forall k: nat, l: nat | Window(ds, k, l)
      ensures Length(ds, k, l) <= Length(ds, i, j) && (k < i ==> Length(ds, k, l) < Length(ds, i, j))
    {
      assert Span(k, l) in spans;
      var m :| 0 <= m < |spans| && spans[m] == Span(k, l);
      assert windows[m] == Recorded(ds, spans[m]) && windows[best] == Recorded(ds, spans[best]);
    }
  }

  lemma NoneListed(ds: seq<Score>, spans: seq<Span>)
    requires AllWindows(ds, spans)
    ensures spans == [] <==> AllFail(ds)
  {
    BlankMeans(ds);
    if spans == [] {
      assert forall i: nat, j: nat :: Window(ds, i, j) ==> Span(i, j) in spans;
    } else {
      assert Window(ds, spans[0].first, spans[0].after);
    }
  }

  /** The longest window of a bitslip, if it has any. */
  method LongestWindow(ds: seq<Score>) returns (window: Option<(int, int)>, ghost i: nat, ghost j: nat)
    ensures window.None? <==> AllFail(ds)
    ensures window.Some? ==> Longest(ds, i, j) && window.value == Recorded(ds, Span(i, j))
  {
    var windows, spans := FindWindows(ds);
    i, j := 0, 0;
    NoneListed(ds, spans);
    if |windows| == 0 {
      return None, i, j;
    }
    var best := MaxByLength(windows);
    FirstLargestIsLongest(ds, windows, spans, best);
    i, j := spans[best].first, spans[best].after;
    window := Some(windows[best]);
  }

  /** Window `i` to `j` of bitslip number `b`: no window is longer, and none before it is as long. */
  ghost predicate Chosen(scores: seq<Column>, b: nat, i: nat, j: nat) {
    && b < |scores| && Longest(scores[b].scores, i, j)
    && (forall c, k: nat, l: nat :: 0 <= c < |scores| && Window(scores[c].scores, k, l) ==>
          Length(scores[c].scores, k, l) <= Length(scores[b].scores, i, j))
    && (forall c, k: nat, l: nat :: 0 <= c < b && Window(scores[c].scores, k, l) ==>
          Length(scores[c].scores, k, l) < Length(scores[b].scores, i, j))
  }

  /** Halving as the source does it. */
  function Middle(a: int, b: int): int { (a + b) / 2 }

  lemma LengthNotNegative(ds: seq<Score>, i: nat, j: nat)
    requires Increasing(ds) && Window(ds, i, j)
    ensures Length(ds, i, j) >= 0
  {
  }

  method FindBest(scores: seq<Column>) returns (best: Option<Best>, ghost b: nat, ghost i: nat, ghost j: nat)
    requires scores != [] && forall c :: 0 <= c < |scores| ==> Increasing(scores[c].scores)
    ensures best.None? <==> forall c :: 0 <= c < |scores| ==> AllFail(scores[c].scores)
    ensures best.Some? ==> Chosen(scores, b, i, j)
    ensures best.Some? ==> var ds := scores[b].scores;
              best.value == Best(scores[b].bitslip, Middle(ds[i].delay, End(ds, j)), Length(ds, i, j))
    ensures best.Some? ==> var ends := scores[b].scores[i].delay + End(scores[b].scores, j);
              2 * best.value.delay == ends || 2 * best.value.delay == ends - 1
  {
    var windows: seq<Option<(int, int)>> := [];
    ghost var spans: seq<Span> := [];
    for c := 0 to |scores|
      invariant |windows| == |spans| == c
      invariant forall k :: 0 <= k < c ==> (windows[k].None? <==> AllFail(scores[k].scores))
      invariant forall k :: 0 <= k < c && windows[k].Some? ==>
        Longest(scores[k].scores, spans[k].first, spans[k].after) && windows[k].value == Recorded(scores[k].scores, spans[k])
    {
      var window, k, l := LongestWindow(scores[c].scores);
      windows := windows + [window];
      spans := spans + [Span(k, l)];
    }
    var top := 0;
    for c := 1 to |scores|
      invariant top < c
      invariant forall k :: 0 <= k < c ==> Rating(windows[k]) <= Rating(windows[top])
      invariant forall k :: 0 <= k < top ==> Rating(windows[k]) < Rating(windows[top])
    {
      if Rating(windows[c]) > Rating(windows[top]) {
        top := c;
      }
    }
    b, i, j := top, spans[top].first, spans[top].after;
    forall c, k: nat, l: nat | 0 <= c < |scores| && Window(scores[c].scores, k, l)
      ensures windows[c].Some? && 0 <= Length(scores[c].scores, k, l) <= Rating(windows[c])
    {
      LengthNotNegative(scores[c].scores, k, l);
    }
    if windows[top].None? {
      forall c | 0 <= c < |scores|
        ensures windows[c].None?
      {
        if windows[c].Some? {
          LengthNotNegative(scores[c].scores, spans[c].first, spans[c].after);
        }
      }
      return None, b, i, j;
    }
    best := Some(Best(scores[top].bitslip, Middle(windows[top].value.0, windows[top].value.1),
                      windows[top].value.1 - windows[top].value.0));
  }

  function Rating(window: Option<(int, int)>): int {
    match window
    case None => -1
    case Some(w) => Extent(w)
  }

  // ------------------------------------------------------- What the choice means

  /** There is a window exactly when some tested delay had no errors. */
  lemma {:induction false} BlankMeans(ds: seq<Score>)
    ensures Blank(ds) <==> AllFail(ds)
  {
    if !AllFail(ds) {
      var k: nat :| k < |ds| && ds[k].errors == 0;
      var i, j := Widen(ds, k, k, k + 1);
    }
    if !Blank(ds) {
      var i: nat, j: nat :| Window(ds, i, j);
      assert ds[i].errors == 0;
    }
  }

  lemma {:induction false} Widen(ds: seq<Score>, k: nat, i: nat, j: nat) returns (i': nat, j': nat)
    requires i <= k < j <= |ds| && forall l :: i <= l < j ==> ds[l].errors == 0
    ensures i' <= k < j' && Window(ds, i', j')
    decreases i + |ds| - j
  {
    if i > 0 && ds[i - 1].errors == 0 {
      i', j' := Widen(ds, k, i - 1, j);
    } else if j < |ds| && ds[j].errors == 0 {
      i', j' := Widen(ds, k, i, j + 1);
    } else {
      i', j' := i, j;
    }
  }

  /** Every tested delay from the start of a window to its middle is free of errors, and the middle is
      not outside. */
  lemma MiddleIsSafe(ds: seq<Score>, i: nat, j: nat, k: nat)
    requires Increasing(ds) && Window(ds, i, j) && k < |ds|
    requires ds[i].delay <= ds[k].delay <= Middle(ds[i].delay, End(ds, j))
    ensures ds[k].errors == 0 && i <= k < j
    ensures ds[i].delay <= Middle(ds[i].delay, End(ds, j)) <= End(ds, j)
  {
    DelaysOrder(ds, i, k);
    if j < |ds| {
      DelaysOrder(ds, i, j);
      DelaysOrder(ds, j, k);
    }
  }

  lemma DelaysOrder(ds: seq<Score>, a: nat, b: nat)
    requires Increasing(ds) && a < |ds| && b < |ds|
    ensures ds[a].delay <= ds[b].delay <==> a <= b
  {
  }
}
