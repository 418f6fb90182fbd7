/** The adaptive Half-Double search and the row generator it drives. */
module HalfDouble {

  datatype Stage = NOFLIP_DISTANCE_ONE | NOFLIP_DISTANCE_TWO | HAMMER_TOLERANCE | MAX_DILUTION

  datatype Config = Config(maxTotalReadCount: nat, readCountSteps: nat, initialDilution: nat, dilutionMultiplier: nat,
                           maxDilution: int, attackRowsStart: int, maxAttackRowIdx: int, decoyRowsStart: int)
  {
    /** The source divides by the steps and by the dilution. */
    predicate Valid() { readCountSteps >= 1 && initialDilution >= 1 && dilutionMultiplier >= 1 }

    function ReadStep(): nat
      requires Valid()
    {
      maxTotalReadCount / readCountSteps
    }
  }

  /** The updatable parameters of the row generator. */
  datatype Params = Params(nrRows: nat, distanceOne: bool, doubleSided: bool, distanceTwo: bool)

  datatype Update = NrRows(nrRows: nat) | DistanceOne(on: bool) | DoubleSided(on: bool) | DistanceTwo(on: bool)

  function Updated(p: Params, u: Update): Params {
    match u
    case NrRows(n) => p.(nrRows := n)
    case DistanceOne(on) => p.(distanceOne := on)
    case DoubleSided(on) => p.(doubleSided := on)
    case DistanceTwo(on) => p.(distanceTwo := on)
  }

  /** A column of the histograms: the dilution, infinite without distance-one rows, and the read count. */
  datatype Key = Key(dilution: Dilution, total: int)
  datatype Dilution = Finite(rows: nat) | Infinite

  datatype Search = Search(stage: Stage, dilution: nat, total: int, readCount: int, iteration: nat, params: Params,
                           rowCount: map<Key, nat>)

  function Initial(c: Config): Search
    requires c.Valid()
  {
    Search(NOFLIP_DISTANCE_ONE, c.initialDilution, c.maxTotalReadCount, c.maxTotalReadCount / c.initialDilution, 0,
           Params(c.initialDilution, true, true, false), map[])
  }

  predicate Done(c: Config, s: Search) { s.iteration >= c.maxAttackRowIdx - 4 }

  function NextRow(c: Config, s: Search): Search
    requires c.Valid()
  {
    s.(stage := NOFLIP_DISTANCE_ONE, dilution := c.initialDilution, total := c.maxTotalReadCount,
       readCount := c.maxTotalReadCount / c.initialDilution, iteration := s.iteration + 1,
       params := s.params.(distanceTwo := false, nrRows := c.initialDilution))
  }

  /** Hammering with another dilution. */
  function Diluted(s: Search, dilution: nat, total: int, stage: Stage): Search
    requires dilution >= 1
  {
    s.(dilution := dilution, total := total, readCount := total / dilution, stage := stage,
       params := s.params.(nrRows := dilution))
  }

  function NoflipDistanceOne(c: Config, s: Search, flipped: bool): Search
    requires c.Valid() && s.dilution >= 1
  {
    if !flipped then
      s.(stage := NOFLIP_DISTANCE_TWO, params := s.params.(distanceTwo := true, distanceOne := false))
    else
      Grown(s.dilution, c.dilutionMultiplier);
      var dilution := s.dilution * c.dilutionMultiplier;
      if dilution > c.maxDilution then NextRow(c, s.(dilution := dilution))
      else Diluted(s, dilution, s.total, s.stage)
  }

  function NoflipDistanceTwo(c: Config, s: Search, flipped: bool): Search
    requires c.Valid()
  {
    if !flipped then s.(stage := HAMMER_TOLERANCE, params := s.params.(distanceOne := true)) else NextRow(c, s)
  }

  function FindHammerTolerance(c: Config, s: Search, flipped: bool): Search
    requires c.Valid() && s.dilution >= 1
  {
    if !flipped || s.total <= c.ReadStep() then NextRow(c, s)
    else
      Grown(s.dilution, c.dilutionMultiplier);
      Diluted(s, s.dilution * c.dilutionMultiplier, s.total, MAX_DILUTION)
  }

  function FindMaxDilution(c: Config, s: Search, flipped: bool): Search
    requires c.Valid() && s.dilution >= 1
  {
    Grown(s.dilution, c.dilutionMultiplier);
    var dilution, less := s.dilution * c.dilutionMultiplier, s.total - c.ReadStep();
    if !flipped || dilution > c.maxDilution then
      if less > 0 then Diluted(s, c.initialDilution, less, HAMMER_TOLERANCE) else NextRow(c, s)
    else Diluted(s, dilution, s.total, s.stage)
  }

  lemma Grown(dilution: nat, multiplier: nat)
    requires dilution >= 1 && multiplier >= 1
    ensures dilution * multiplier >= dilution
    ensures multiplier >= 2 ==> dilution * multiplier > dilution
  {
  }

  /** Where a flip is counted; not in the first stage. */
  function Counted(s: Search): Key {
    Key(if s.stage == NOFLIP_DISTANCE_TWO then Infinite else Finite(s.dilution), s.total)
  }

  function Tally(counts: map<Key, nat>, key: Key): nat { if key in counts then counts[key] else 0 }

  /** What one hammering run and its result do to the search. */
  function Step(c: Config, s: Search, flipped: bool): Search
    requires c.Valid() && s.dilution >= 1
  {
    var t := if flipped && s.stage != NOFLIP_DISTANCE_ONE
             then s.(rowCount := s.rowCount[Counted(s) := Tally(s.rowCount, Counted(s)) + 1]) else s;
    match s.stage
    case NOFLIP_DISTANCE_ONE => NoflipDistanceOne(c, t, flipped)
    case NOFLIP_DISTANCE_TWO => NoflipDistanceTwo(c, t, flipped)
    case HAMMER_TOLERANCE => FindHammerTolerance(c, t, flipped)
    case MAX_DILUTION => FindMaxDilution(c, t, flipped)
  }

  // ------------------------------------------------------- Invariants

  /** Every hammering run uses the dilution the search has settled on, with the reads divided evenly; the
      rows of a stage are those it is named for. */
  predicate Inv(c: Config, s: Search)
    requires c.Valid()
  {
    && s.dilution >= c.initialDilution && s.params.nrRows == s.dilution && s.params.doubleSided
    && s.readCount == s.total / s.dilution && 0 <= s.total <= c.maxTotalReadCount
    && (c.maxTotalReadCount > 0 ==> s.total > 0)
    && (s.stage in {NOFLIP_DISTANCE_ONE, NOFLIP_DISTANCE_TWO} ==> s.total == c.maxTotalReadCount)
    && (s.params.distanceTwo <==> s.stage != NOFLIP_DISTANCE_ONE)
    && (s.stage == NOFLIP_DISTANCE_TWO ==> !s.params.distanceOne)
    && (s.stage in {HAMMER_TOLERANCE, MAX_DILUTION} ==> s.params.distanceOne)
    && (s.stage == MAX_DILUTION ==> s.total > c.ReadStep())
  }

  lemma StepKeeps(c: Config, s: Search, flipped: bool)
    requires c.Valid() && Inv(c, s)
    ensures Inv(c, Step(c, s, flipped))
  {
    Grown(s.dilution, c.dilutionMultiplier);
  }

  /** The last branch of `find_max_dilution` never ends a row: there is always a smaller read count left. */
  lemma MaxDilutionNeverEndsRow(c: Config, s: Search, flipped: bool)
    requires c.Valid() && Inv(c, s) && s.stage == MAX_DILUTION
    ensures Step(c, s, flipped).iteration == s.iteration && Step(c, s, flipped).stage in {HAMMER_TOLERANCE, MAX_DILUTION}
  {
    Grown(s.dilution, c.dilutionMultiplier);
  }

  // ------------------------------------------------------- Termination

  /** The search as the main loop runs it, with the answers of the hardware. */
  function After(c: Config, flips: nat -> bool, n: nat): (s: Search)
    requires c.Valid()
    ensures Inv(c, s)
  {
    if n == 0 then Initial(c)
    else
      var s := After(c, flips, n - 1);
      if Done(c, s) then s else
        StepKeeps(c, s, flips(n - 1));
        Step(c, s, flips(n - 1))
  }

  /** What a configuration must satisfy for the search to end whatever the hardware answers. */
  predicate Productive(c: Config)
    requires c.Valid()
  {
    && (c.dilutionMultiplier >= 2 || c.initialDilution > c.maxDilution)
    && (c.maxTotalReadCount == 0 || c.ReadStep() >= 1)
  }

  function Rank(stage: Stage): nat {
    match stage
    case NOFLIP_DISTANCE_ONE => 2
    case NOFLIP_DISTANCE_TWO => 1
    case HAMMER_TOLERANCE => 0
    case MAX_DILUTION => 0
  }

  function Turn(stage: Stage): nat { if stage == HAMMER_TOLERANCE then 1 else 0 }

  /** The measure: rows left, stage, reads, tolerance before dilution, dilution left. */
  predicate Smaller(c: Config, s': Search, s: Search) {
    || s'.iteration > s.iteration
    || (s'.iteration == s.iteration &&
        (|| Rank(s'.stage) < Rank(s.stage)
         || (Rank(s'.stage) == Rank(s.stage) &&
             (|| s'.total < s.total
              || (s'.total == s.total &&
                  (|| Turn(s'.stage) < Turn(s.stage)
                   || (Turn(s'.stage) == Turn(s.stage) && s.dilution < s'.dilution <= c.maxDilution)))))))
  }

  lemma StepShrinks(c: Config, s: Search, flipped: bool)
    requires c.Valid() && Inv(c, s) && Productive(c)
    ensures Smaller(c, Step(c, s, flipped), s)
  {
    Grown(s.dilution, c.dilutionMultiplier);
  }

  /** From every reachable state the search ends, for all answers. */
  lemma {:induction false} Ends(c: Config, flips: nat -> bool, k: nat, s: Search) returns (n: nat)
    requires c.Valid() && Productive(c) && s == After(c, flips, k)
    ensures Done(c, After(c, flips, n))
    decreases c.maxAttackRowIdx - 4 - s.iteration, Rank(s.stage), s.total, Turn(s.stage), c.maxDilution - s.dilution
  {
    if Done(c, s) {
      n := k;
    } else {
      StepShrinks(c, s, flips(k));
      n := Ends(c, flips, k + 1, After(c, flips, k + 1));
    }
  }

  /** Dilution that does not grow: flips at distance one keep the search in its first stage. */
  lemma {:induction false} StuckDiluting(c: Config, flips: nat -> bool, n: nat)
    requires c.Valid() && c.maxAttackRowIdx > 4 && c.dilutionMultiplier == 1 && c.initialDilution <= c.maxDilution
    requires forall k :: flips(k)
    ensures !Done(c, After(c, flips, n))
    ensures var s := After(c, flips, n);
            s.iteration == 0 && s.stage == NOFLIP_DISTANCE_ONE && s.dilution == c.initialDilution
  {
    if n > 0 {
      StuckDiluting(c, flips, n - 1);
    }
  }

  /** Reads that do not shrink: more steps than reads make the step 0. */
  lemma {:induction false} StuckTolerating(c: Config, flips: nat -> bool, n: nat)
    requires c.Valid() && c.maxAttackRowIdx > 4 && c.maxTotalReadCount > 0 && c.ReadStep() == 0
    requires forall k :: flips(k) <==> k >= 2
    ensures !Done(c, After(c, flips, n))
    ensures var s := After(c, flips, n);
            && s.iteration == 0 && s.total == c.maxTotalReadCount
            && s.stage == (if n == 0 then NOFLIP_DISTANCE_ONE else if n == 1 then NOFLIP_DISTANCE_TWO else s.stage)
            && (n >= 2 ==> s.stage in {HAMMER_TOLERANCE, MAX_DILUTION})
  {
    if n > 0 {
      StuckTolerating(c, flips, n - 1);
      StuckStep(c, After(c, flips, n - 1), flips(n - 1));
    }
  }

  lemma StuckStep(c: Config, s: Search, flipped: bool)
    requires c.Valid() && Inv(c, s) && c.maxTotalReadCount > 0 && c.ReadStep() == 0 && s.total == c.maxTotalReadCount
    requires s.stage in {NOFLIP_DISTANCE_ONE, NOFLIP_DISTANCE_TWO} <==> !flipped
    ensures var s' := Step(c, s, flipped);
            && s'.iteration == s.iteration && s'.total == s.total
            && (s.stage == NOFLIP_DISTANCE_ONE ==> s'.stage == NOFLIP_DISTANCE_TWO)
            && (s.stage != NOFLIP_DISTANCE_ONE ==> s'.stage in {HAMMER_TOLERANCE, MAX_DILUTION})
  {
    Grown(s.dilution, c.dilutionMultiplier);
  }

  ghost predicate EndsFor(c: Config, flips: nat -> bool)
    requires c.Valid()
  {
    exists n: nat :: Done(c, After(c, flips, n))
  }

  ghost predicate AlwaysEnds(c: Config)
    requires c.Valid()
  {
    forall flips: nat -> bool :: EndsFor(c, flips)
  }

  /** Exactly the productive configurations end whatever the hardware answers. */
  lemma EndsIffProductive(c: Config)
    requires c.Valid() && c.maxAttackRowIdx > 4
    ensures AlwaysEnds(c) <==> Productive(c)
  {
    if Productive(c) {
      forall flips: nat -> bool
        ensures EndsFor(c, flips)
      {
        var n := Ends(c, flips, 0, Initial(c));
      }
    } else if c.dilutionMultiplier == 1 && c.initialDilution <= c.maxDilution {
      var flips: nat -> bool := k => true;
      forall n: nat ensures !Done(c, After(c, flips, n)) { StuckDiluting(c, flips, n); }
      assert !EndsFor(c, flips);
    } else {
      var flips: nat -> bool := k => k >= 2;
      forall n: nat ensures !Done(c, After(c, flips, n)) { StuckTolerating(c, flips, n); }
      assert !EndsFor(c, flips);
    }
  }

  // ------------------------------------------------------- The row histogram

  /** The experiment of this column has been made on the current row. */
  predicate Passed(c: Config, s: Search, k: Key) {
    s.stage in {HAMMER_TOLERANCE, MAX_DILUTION} &&
    match k.dilution
    case Infinite => true
    case Finite(rows) => k.total > s.total || (k.total == s.total && rows < s.dilution)
  }

  ghost predicate CountsRows(c: Config, s: Search) {
    forall k :: Tally(s.rowCount, k) <= s.iteration + if Passed(c, s, k) then 1 else 0
  }

  /** The searches that make no experiment twice: those without rows or without a second read count, and those in
      which both the dilution and the read count change. */
  predicate CountsOnce(c: Config)
    requires c.Valid()
  {
    c.maxAttackRowIdx <= 4 || c.maxTotalReadCount <= c.ReadStep() || (c.dilutionMultiplier >= 2 && c.ReadStep() >= 1)
  }

  lemma StepCounts(c: Config, s: Search, flipped: bool)
    requires c.Valid() && Inv(c, s) && CountsRows(c, s) && CountsOnce(c) && c.maxAttackRowIdx > 4
    ensures CountsRows(c, Step(c, s, flipped))
  {
    Grown(s.dilution, c.dilutionMultiplier);
    var s' := Step(c, s, flipped);
    forall k
      ensures Tally(s'.rowCount, k) <= s'.iteration + if Passed(c, s', k) then 1 else 0
    {
      assert Tally(s.rowCount, k) <= s.iteration + if Passed(c, s, k) then 1 else 0;
    }
  }

  lemma {:induction false} CountsAlways(c: Config, flips: nat -> bool, n: nat)
    requires c.Valid() && CountsOnce(c)
    ensures CountsRows(c, After(c, flips, n))
    ensures Done(c, After(c, flips, n)) ==> After(c, flips, n).stage == NOFLIP_DISTANCE_ONE
  {
    if n > 0 {
      CountsAlways(c, flips, n - 1);
      var s := After(c, flips, n - 1);
      if !Done(c, s) {
        StepCounts(c, s, flips(n - 1));
        EndsInFirstStage(c, s, flips(n - 1));
      }
    }
  }

  lemma EndsInFirstStage(c: Config, s: Search, flipped: bool)
    requires c.Valid() && Inv(c, s)
    ensures var s' := Step(c, s, flipped); s'.iteration != s.iteration ==> s'.stage == NOFLIP_DISTANCE_ONE
  {
  }

  /** A count is at most the number of rows tried so far. */
  predicate OncePerRow(c: Config, s: Search, k: Key) { Tally(s.rowCount, k) <= s.iteration + if Done(c, s) then 0 else 1 }

  /** No column counts a victim row twice. */
  lemma HistogramCountsRows(c: Config, flips: nat -> bool, n: nat, k: Key)
    requires c.Valid() && CountsOnce(c)
    ensures OncePerRow(c, After(c, flips, n), k)
  {
    CountsAlways(c, flips, n);
    var s := After(c, flips, n);
    assert Tally(s.rowCount, k) <= s.iteration + if Passed(c, s, k) then 1 else 0;
  }

  /** The first row up to its first flip. */
  lemma FirstFlip(c: Config, flips: nat -> bool) returns (k: Key)
    requires c.Valid() && c.maxAttackRowIdx > 4 && c.maxTotalReadCount > c.ReadStep()
    requires !flips(0) && !flips(1) && flips(2)
    ensures k == Key(Finite(c.initialDilution), c.maxTotalReadCount)
    ensures var s := After(c, flips, 3);
            && s.stage == MAX_DILUTION && s.iteration == 0 && s.total == c.maxTotalReadCount && Tally(s.rowCount, k) == 1
            && s.dilution == c.initialDilution * c.dilutionMultiplier
  {
    k := Key(Finite(c.initialDilution), c.maxTotalReadCount);
    assert After(c, flips, 0) == Initial(c);
    var s1 := After(c, flips, 1);
    assert s1.stage == NOFLIP_DISTANCE_TWO;
    var s2 := After(c, flips, 2);
    assert s2.stage == HAMMER_TOLERANCE;
    Grown(c.initialDilution, c.dilutionMultiplier);
  }

  /** A multiplier of 1 repeats the experiment at once. */
  lemma CountedTwiceAtOnce(c: Config, flips: nat -> bool) returns (k: Key)
    requires c.Valid() && c.maxAttackRowIdx > 4 && c.maxTotalReadCount > c.ReadStep() && c.dilutionMultiplier == 1
    requires forall n :: flips(n) <==> n >= 2
    ensures !OncePerRow(c, After(c, flips, 4), k)
  {
    k := FirstFlip(c, flips);
    var s := After(c, flips, 3);
    assert Counted(s) == k;
    assert After(c, flips, 4) == Step(c, s, flips(3));
  }

  /** A step of 0 repeats it after the dilution has failed. */
  lemma CountedTwiceLater(c: Config, flips: nat -> bool) returns (k: Key)
    requires c.Valid() && c.maxAttackRowIdx > 4 && c.maxTotalReadCount > 0 && c.ReadStep() == 0
    requires forall n :: flips(n) <==> n >= 2 && n != 3
    ensures !OncePerRow(c, After(c, flips, 5), k)
  {
    k := FirstFlip(c, flips);
    var s, s4 := After(c, flips, 3), After(c, flips, 4);
    assert s4 == Step(c, s, flips(3)) && Counted(s4) == k && s4.stage == HAMMER_TOLERANCE;
    Grown(s4.dilution, c.dilutionMultiplier);
    assert After(c, flips, 5) == Step(c, s4, flips(4));
  }

  ghost predicate AlwaysOnce(c: Config)
    requires c.Valid()
  {
    forall flips: nat -> bool, n: nat, k: Key :: OncePerRow(c, After(c, flips, n), k)
  }

  /** The histogram counts rows, whatever the hardware answers, exactly for these configurations. */
  lemma HistogramIffOnce(c: Config)
    requires c.Valid()
    ensures AlwaysOnce(c) <==> CountsOnce(c)
  {
    if CountsOnce(c) {
      forall flips: nat -> bool, n: nat, k: Key ensures OncePerRow(c, After(c, flips, n), k) {
        HistogramCountsRows(c, flips, n, k);
      }
    } else if c.dilutionMultiplier == 1 {
      var flips: nat -> bool := n => n >= 2;
      var k := CountedTwiceAtOnce(c, flips);
      assert !OncePerRow(c, After(c, flips, 4), k);
    } else {
      var flips: nat -> bool := n => n >= 2 && n != 3;
      var k := CountedTwiceLater(c, flips);
      assert !OncePerRow(c, After(c, flips, 5), k);
    }
  }

  // ------------------------------------------------------- Which experiments are made

  /** What the first stage does: without a flip it goes on to distance two; with one it inflates the dilution while the
      limit allows, and else gives the row up. */
  lemma FirstStage(c: Config, s: Search, flipped: bool)
    requires c.Valid() && Inv(c, s) && s.stage == NOFLIP_DISTANCE_ONE
    ensures var s', more := Step(c, s, flipped), s.dilution * c.dilutionMultiplier;
            if !flipped then s'.stage == NOFLIP_DISTANCE_TWO && s'.dilution == s.dilution && s'.iteration == s.iteration
            else if more <= c.maxDilution then
              s'.stage == NOFLIP_DISTANCE_ONE && s'.dilution == more && s'.iteration == s.iteration && s'.total == s.total
            else s'.stage == NOFLIP_DISTANCE_ONE && s'.dilution == c.initialDilution && s'.iteration == s.iteration + 1
  {
    Grown(s.dilution, c.dilutionMultiplier);
  }

  /** The tolerance stage goes on from a flip unless the read count is down to one step. */
  lemma ToleranceStage(c: Config, s: Search, flipped: bool)
    requires c.Valid() && Inv(c, s) && s.stage == HAMMER_TOLERANCE
    ensures var s' := Step(c, s, flipped);
            if flipped && s.total > c.maxTotalReadCount / c.readCountSteps then
              s'.stage == MAX_DILUTION && s'.dilution == s.dilution * c.dilutionMultiplier && s'.total == s.total
            else s'.stage == NOFLIP_DISTANCE_ONE && s'.iteration == s.iteration + 1 && s'.total == c.maxTotalReadCount
  {
    Grown(s.dilution, c.dilutionMultiplier);
  }

  /** `dilution` multiplied `n` times. */
  function Inflated(dilution: nat, multiplier: nat, n: nat): nat {
    if n == 0 then dilution else Inflated(dilution, multiplier, n - 1) * multiplier
  }

  /** The state after `n` flips. */
  function Flipped(c: Config, s: Search, n: nat): (s': Search)
    requires c.Valid() && Inv(c, s)
    ensures Inv(c, s')
  {
    if n == 0 then s
    else
      var s1 := Flipped(c, s, n - 1);
      StepKeeps(c, s1, true);
      Step(c, s1, true)
  }

  /** In the last stage flips visit the dilutions up to the limit one after the other, with the same read count. */
  lemma {:induction false} DilutionsVisited(c: Config, s: Search, n: nat)
    requires c.Valid() && Inv(c, s) && s.stage == MAX_DILUTION
    requires forall k :: 0 < k <= n ==> Inflated(s.dilution, c.dilutionMultiplier, k) <= c.maxDilution
    ensures var s' := Flipped(c, s, n);
            && s'.stage == MAX_DILUTION && s'.dilution == Inflated(s.dilution, c.dilutionMultiplier, n)
            && s'.total == s.total && s'.iteration == s.iteration && s'.readCount == s.total / s'.dilution
  {
    if n > 0 {
      DilutionsVisited(c, s, n - 1);
      assert Inflated(s.dilution, c.dilutionMultiplier, n) <= c.maxDilution;
      MaxDilutionStage(c, Flipped(c, s, n - 1), true);
    }
  }

  /** It is left, for the tolerance stage with one step fewer reads, exactly without a flip or when the next dilution
      exceeds the limit. */
  lemma MaxDilutionStage(c: Config, s: Search, flipped: bool)
    requires c.Valid() && Inv(c, s) && s.stage == MAX_DILUTION
    ensures var s', more := Step(c, s, flipped), s.dilution * c.dilutionMultiplier;
            && s'.iteration == s.iteration
            && if flipped && more <= c.maxDilution then
                 s'.stage == MAX_DILUTION && s'.dilution == more && s'.total == s.total
               else s'.stage == HAMMER_TOLERANCE && s'.dilution == c.initialDilution
                    && s'.total == s.total - c.maxTotalReadCount / c.readCountSteps
  {
    Grown(s.dilution, c.dilutionMultiplier);
  }

  /** The flips of the first `n` runs that belong to a column: at distance two without a dilution, later with the one
      of the run, and with its total read count. */
  function Hits(c: Config, flips: nat -> bool, n: nat, k: Key): nat
    requires c.Valid()
  {
    if n == 0 then 0
    else
      var s := After(c, flips, n - 1);
      Hits(c, flips, n - 1, k)
      + if !Done(c, s) && flips(n - 1) && k.total == s.total
           && ((s.stage == NOFLIP_DISTANCE_TWO && k.dilution == Infinite)
               || (s.stage in {HAMMER_TOLERANCE, MAX_DILUTION} && k.dilution == Finite(s.dilution))) then 1 else 0
  }

  lemma StepTallies(c: Config, s: Search, flipped: bool, k: Key)
    requires c.Valid() && Inv(c, s)
    ensures Tally(Step(c, s, flipped).rowCount, k) ==
            Tally(s.rowCount, k)
            + if flipped && k.total == s.total
                 && ((s.stage == NOFLIP_DISTANCE_TWO && k.dilution == Infinite)
                     || (s.stage in {HAMMER_TOLERANCE, MAX_DILUTION} && k.dilution == Finite(s.dilution))) then 1 else 0
  {
    Grown(s.dilution, c.dilutionMultiplier);
  }

  /** The histogram counts exactly these flips. */
  lemma {:induction false} HistogramIsCount(c: Config, flips: nat -> bool, n: nat, k: Key)
    requires c.Valid()
    ensures Tally(After(c, flips, n).rowCount, k) == Hits(c, flips, n, k)
  {
    if n > 0 {
      HistogramIsCount(c, flips, n - 1, k);
      StepTallies(c, After(c, flips, n - 1), flips(n - 1), k);
    }
  }

  // ------------------------------------------------------- The rows of a stage

  datatype Rows = Rows(rows: seq<int>) | AttributeError

  function Victim(c: Config, iteration: nat): int
    requires c.maxAttackRowIdx > 4
  {
    c.attackRowsStart + (iteration + 2) % (c.maxAttackRowIdx - 2)
  }

  /** Row `i` of the main loop; one-sided hammering refers to a field that does not exist. */
  function MainRow(c: Config, p: Params, iteration: nat, i: nat): int
    requires c.maxAttackRowIdx > 4
  {
    if p.distanceTwo then
      if i % 2 != 0 && p.doubleSided then c.attackRowsStart + (iteration + 4) % c.maxAttackRowIdx
      else c.attackRowsStart + iteration % (c.maxAttackRowIdx - 4)
    else if !p.doubleSided || i % 2 == 0 then c.decoyRowsStart + 1
    else c.decoyRowsStart + 2
  }

  function MainRows(p: Params): nat {
    var ends := if p.doubleSided then 2 else 1;
    if p.nrRows <= ends then 0 else p.nrRows - ends
  }

  function EndRows(c: Config, p: Params, iteration: nat): seq<int>
    requires c.maxAttackRowIdx > 4
  {
    if !p.distanceOne then []
    else [c.attackRowsStart + (iteration + 1) % (c.maxAttackRowIdx - 3)]
         + if p.doubleSided then [c.attackRowsStart + (iteration + 3) % (c.maxAttackRowIdx - 1)] else []
  }

  function Generated(c: Config, p: Params, iteration: nat): Rows
    requires c.maxAttackRowIdx > 4
  {
    if !p.doubleSided && MainRows(p) > 0 then AttributeError
    else Rows(seq(MainRows(p), i requires 0 <= i < MainRows(p) => MainRow(c, p, iteration, i)) + EndRows(c, p, iteration))
  }

  function Alternating(even: int, odd: int, n: nat): seq<int> { seq(n, i => if i % 2 == 0 then even else odd) }

  lemma SmallModulo(x: nat, m: nat)
    requires x < m
    ensures x % m == x
  {
  }

  /** While the search is not done no row number wraps around. */
  lemma MainRowAt(c: Config, p: Params, iteration: nat, i: nat)
    requires iteration < c.maxAttackRowIdx - 4 && p.doubleSided
    ensures var v := Victim(c, iteration);
            MainRow(c, p, iteration, i) ==
            if p.distanceTwo then (if i % 2 == 0 then v - 2 else v + 2)
            else if i % 2 == 0 then c.decoyRowsStart + 1 else c.decoyRowsStart + 2
  {
    SmallModulo(iteration + 2, c.maxAttackRowIdx - 2);
    SmallModulo(iteration + 4, c.maxAttackRowIdx);
    SmallModulo(iteration, c.maxAttackRowIdx - 4);
  }

  lemma EndRowsAt(c: Config, p: Params, iteration: nat)
    requires iteration < c.maxAttackRowIdx - 4 && p.doubleSided
    ensures var v := Victim(c, iteration); EndRows(c, p, iteration) == if p.distanceOne then [v - 1, v + 1] else []
  {
    SmallModulo(iteration + 2, c.maxAttackRowIdx - 2);
    SmallModulo(iteration + 1, c.maxAttackRowIdx - 3);
    SmallModulo(iteration + 3, c.maxAttackRowIdx - 1);
  }

  /** What every run of the search hammers, seen from the victim: decoys, or the rows two away in turn,
      and at the end the rows next to it. */
  lemma RowsAroundVictim(c: Config, s: Search)
    requires c.Valid() && Inv(c, s) && !Done(c, s)
    ensures var v, main := Victim(c, s.iteration), if s.dilution >= 2 then s.dilution - 2 else 0;
            Generated(c, s.params, s.iteration) == Rows(
              (if s.stage == NOFLIP_DISTANCE_ONE then Alternating(c.decoyRowsStart + 1, c.decoyRowsStart + 2, main)
               else Alternating(v - 2, v + 2, main))
              + if s.params.distanceOne then [v - 1, v + 1] else [])
  {
    var v, main := Victim(c, s.iteration), MainRows(s.params);
    EndRowsAt(c, s.params, s.iteration);
    forall i | 0 <= i < main
      ensures MainRow(c, s.params, s.iteration, i) ==
              if s.params.distanceTwo then (if i % 2 == 0 then v - 2 else v + 2)
              else if i % 2 == 0 then c.decoyRowsStart + 1 else c.decoyRowsStart + 2
    {
      MainRowAt(c, s.params, s.iteration, i);
    }
    var rows := if s.stage == NOFLIP_DISTANCE_ONE then Alternating(c.decoyRowsStart + 1, c.decoyRowsStart + 2, main)
                else Alternating(v - 2, v + 2, main);
    assert rows == seq(main, i requires 0 <= i < main => MainRow(c, s.params, s.iteration, i));
  }

  /** The first run of all hammers the decoys in turn, and then both neighbours of the first victim. */
  lemma FirstRun(c: Config)
    requires c.Valid() && c.maxAttackRowIdx > 4
    ensures var s, v := Initial(c), Victim(c, 0);
            var main := if c.initialDilution >= 2 then c.initialDilution - 2 else 0;
            Generated(c, s.params, s.iteration) ==
            Rows(Alternating(c.decoyRowsStart + 1, c.decoyRowsStart + 2, main) + [v - 1, v + 1])
  {
    RowsAroundVictim(c, Initial(c));
  }

  lemma RowsGenerated(c: Config, s: Search) returns (n: nat)
    requires c.Valid() && Inv(c, s) && !Done(c, s) && s.dilution >= 2
    ensures Generated(c, s.params, s.iteration).Rows? && n == |Generated(c, s.params, s.iteration).rows| <= s.dilution
    ensures s.params.distanceOne ==> n == s.dilution
  {
    RowsAroundVictim(c, s);
    n := |Generated(c, s.params, s.iteration).rows|;
  }

  /** The activations of a run: each generated row is read `readCount` times, within the budget. */
  lemma ReadsWithinBudget(c: Config, s: Search)
    requires c.Valid() && Inv(c, s) && !Done(c, s) && s.dilution >= 2
    ensures var rows := Generated(c, s.params, s.iteration);
            && rows.Rows? && |rows.rows| <= s.dilution
            && |rows.rows| * s.readCount <= s.total
            && (s.params.distanceOne ==> s.total - s.dilution < |rows.rows| * s.readCount)
  {
    var n := RowsGenerated(c, s);
    Share(s.readCount, s.total % s.dilution, s.dilution, n);
  }

  lemma Share(q: nat, r: nat, dilution: nat, n: nat)
    requires r < dilution && n <= dilution
    ensures n * q <= dilution * q <= dilution * q + r < dilution * q + dilution
  {
    assert (dilution - n) * q >= 0;
  }

  /** The distance-one rows are not restored for a new row: it starts with them exactly when the last row
      ended in one of the later stages, or in the first one with them still on. */
  lemma NewRowDistanceOne(c: Config, s: Search, flipped: bool)
    requires c.Valid() && Inv(c, s) && Step(c, s, flipped).iteration != s.iteration
    ensures Step(c, s, flipped).params.distanceOne <==>
            s.stage == HAMMER_TOLERANCE || (s.stage == NOFLIP_DISTANCE_ONE && s.params.distanceOne)
  {
    if s.stage == MAX_DILUTION {
      MaxDilutionNeverEndsRow(c, s, flipped);
    }
  }

  /** So the first stage of the second row can hammer no neighbour of the victim at all. */
  lemma StaleDistanceOne(c: Config, flips: nat -> bool)
    requires c.Valid() && c.maxAttackRowIdx > 5 && !flips(0) && flips(1)
    ensures var s := After(c, flips, 2);
            !Done(c, s) && s.stage == NOFLIP_DISTANCE_ONE && s.iteration == 1 && !s.params.distanceOne
  {
    assert After(c, flips, 0) == Initial(c);
    assert After(c, flips, 1) == Step(c, Initial(c), false);
  }
}
