/** The Half-Double search as its two objects: the analysis that decides, and the row generator whose
    parameters it updates. */
module HalfDoubleObjects {
  import opened HalfDouble

  class RowGenerator {
    const setup: Config
    /** The configuration dictionary, and the fields loaded from it. */
    var config: Params
    var params: Params

    ghost predicate Valid()
      reads this
    {
      config == params && setup.maxAttackRowIdx > 4
    }

    constructor (setup: Config, config: Params)
      requires setup.maxAttackRowIdx > 4
      ensures Valid() && this.setup == setup && params == config
    {
      this.setup, this.config, this.params := setup, config, config;
    }

    method LoadParams()
      modifies `params
      ensures params == config
    {
      params := Params(config.nrRows, config.distanceOne, config.doubleSided, config.distanceTwo);
    }

    method UpdateParam(u: Update)
      modifies this
      requires Valid()
      ensures Valid() && params == Updated(old(params), u)
    {
      match u {
        case NrRows(n) => config := config.(nrRows := n);
        case DistanceOne(on) => config := config.(distanceOne := on);
        case DoubleSided(on) => config := config.(doubleSided := on);
        case DistanceTwo(on) => config := config.(distanceTwo := on);
      }
      LoadParams();
    }

    method GenerateRows(iteration: nat) returns (rows: Rows)
      requires Valid()
      ensures rows == Generated(setup, params, iteration)
    {
      var list: seq<int> := [];
      var main := params.nrRows - if params.doubleSided then 2 else 1;
      for i := 0 to if main < 0 then 0 else main
        invariant params.doubleSided || i == 0
        invariant |list| == i <= MainRows(params)
        invariant forall k :: 0 <= k < i ==> list[k] == MainRow(setup, params, iteration, k)
      {
        if !params.doubleSided && i % 2 == 0 {
          return AttributeError;
        } else if params.distanceTwo {
          if i % 2 != 0 && params.doubleSided {
            list := list + [setup.attackRowsStart + (iteration + 4) % setup.maxAttackRowIdx];
          } else {
            list := list + [setup.attackRowsStart + iteration % (setup.maxAttackRowIdx - 4)];
          }
        } else if !params.doubleSided || i % 2 == 0 {
          list := list + [setup.decoyRowsStart + 1];
        } else {
          list := list + [setup.decoyRowsStart + 2];
        }
      }
      ghost var p, n := params, MainRows(params);
      assert list == seq(n, i requires 0 <= i < n => MainRow(setup, p, iteration, i));
      if params.distanceOne {
        list := list + [setup.attackRowsStart + (iteration + 1) % (setup.maxAttackRowIdx - 3)];
        if params.doubleSided {
          list := list + [setup.attackRowsStart + (iteration + 3) % (setup.maxAttackRowIdx - 1)];
        }
      }
      rows := Rows(list);
    }
  }

  class Analysis {
    const setup: Config
    var stage: Stage
    var dilution: nat
    var total: int
    var readCount: int
    var iteration: nat
    var rowCount: map<Key, nat>
    const generator: RowGenerator

    ghost predicate Valid()
      reads this, generator
    {
      setup.Valid() && generator.Valid() && generator.setup == setup && dilution >= 1
    }

    ghost function Current(): Search
      reads this, generator
    {
      Search(stage, dilution, total, readCount, iteration, generator.params, rowCount)
    }

    constructor (setup: Config)
      requires setup.Valid() && setup.maxAttackRowIdx > 4
      ensures Valid() && fresh(generator) && this.setup == setup && Current() == Initial(setup)
    {
      this.setup := setup;
      generator := new RowGenerator(setup, Params(setup.initialDilution, true, true, false));
      stage, iteration, rowCount := NOFLIP_DISTANCE_ONE, 0, map[];
      total, dilution := setup.maxTotalReadCount, setup.initialDilution;
      readCount := setup.maxTotalReadCount / setup.initialDilution;
    }

    method NextRow()
      requires Valid()
      modifies this, generator
      ensures Valid() && Current() == HalfDouble.NextRow(setup, old(Current()))
    {
      stage, dilution, total := NOFLIP_DISTANCE_ONE, setup.initialDilution, setup.maxTotalReadCount;
      readCount := total / dilution;
      generator.UpdateParam(DistanceTwo(false));
      generator.UpdateParam(NrRows(dilution));
      iteration := iteration + 1;
    }

    method Dilute()
      requires Valid()
      modifies `readCount, generator
      ensures Valid() && Current() == Diluted(old(Current()), dilution, total, stage)
    {
      generator.UpdateParam(NrRows(dilution));
      readCount := total / dilution;
    }

    method NoflipDistanceOne(flipped: bool)
      requires Valid()
      modifies this, generator
      ensures Valid() && Current() == HalfDouble.NoflipDistanceOne(setup, old(Current()), flipped)
    {
      if !flipped {
        stage := NOFLIP_DISTANCE_TWO;
        generator.UpdateParam(DistanceTwo(true));
        generator.UpdateParam(DistanceOne(false));
      } else {
        Grown(dilution, setup.dilutionMultiplier);
        dilution := dilution * setup.dilutionMultiplier;
        if dilution > setup.maxDilution { NextRow(); } else { Dilute(); }
      }
    }

    method NoflipDistanceTwo(flipped: bool)
      requires Valid()
      modifies this, generator
      ensures Valid() && Current() == HalfDouble.NoflipDistanceTwo(setup, old(Current()), flipped)
    {
      if !flipped {
        stage := HAMMER_TOLERANCE;
        generator.UpdateParam(DistanceOne(true));
      } else {
        NextRow();
      }
    }

    method FindHammerTolerance(flipped: bool)
      requires Valid()
      modifies this, generator
      ensures Valid() && Current() == HalfDouble.FindHammerTolerance(setup, old(Current()), flipped)
    {
      if !flipped || total <= setup.maxTotalReadCount / setup.readCountSteps {
        NextRow();
      } else {
        Grown(dilution, setup.dilutionMultiplier);
        dilution := dilution * setup.dilutionMultiplier;
        Dilute();
        stage := MAX_DILUTION;
      }
    }

    method FindMaxDilution(flipped: bool)
      requires Valid()
      modifies this, generator
      ensures Valid() && Current() == HalfDouble.FindMaxDilution(setup, old(Current()), flipped)
    {
      Grown(dilution, setup.dilutionMultiplier);
      if !flipped || dilution * setup.dilutionMultiplier > setup.maxDilution {
        dilution := setup.initialDilution;
        total := total - setup.maxTotalReadCount / setup.readCountSteps;
        if total > 0 {
          Dilute();
          stage := HAMMER_TOLERANCE;
        } else {
          NextRow();
        }
      } else {
        dilution := dilution * setup.dilutionMultiplier;
        Dilute();
      }
    }

    /** `rows` are the logical rows in which the memory test found errors. */
    method ProcessErrors(rows: set<int>)
      requires Valid()
      modifies this, generator
      ensures Valid() && Current() == Step(setup, old(Current()), Victim(setup, old(iteration)) in rows)
    {
      var victim := setup.attackRowsStart + (iteration + 2) % (setup.maxAttackRowIdx - 2);
      var flipped := victim in rows;
      if flipped && stage != NOFLIP_DISTANCE_ONE {
        var key := Key(if stage == NOFLIP_DISTANCE_TWO then Infinite else Finite(dilution), total);
        rowCount := rowCount[key := Tally(rowCount, key) + 1];
      }
      match stage {
        case NOFLIP_DISTANCE_ONE => NoflipDistanceOne(flipped);
        case NOFLIP_DISTANCE_TWO => NoflipDistanceTwo(flipped);
        case HAMMER_TOLERANCE => FindHammerTolerance(flipped);
        case MAX_DILUTION => FindMaxDilution(flipped);
      }
    }
  }

  /** One turn of the main loop: the rows to hammer, and what the answer of the hardware does. */
  method HammerOnce(analysis: Analysis, flipped: bool) returns (rows: Rows)
    requires analysis.Valid() && analysis.generator.params.doubleSided
    modifies analysis, analysis.generator
    ensures rows == Generated(analysis.setup, old(analysis.generator.params), old(analysis.iteration)) && rows.Rows?
    ensures analysis.Valid() && analysis.Current() == Step(analysis.setup, old(analysis.Current()), flipped)
  {
    var c := analysis.setup;
    rows := analysis.generator.GenerateRows(analysis.iteration);
    var victim := Victim(c, analysis.iteration);
    analysis.ProcessErrors(if flipped then {victim} else {});
  }

  /** A turn of the search that is not done. */
  lemma SearchTurns(c: Config, flips: nat -> bool, k: nat, s: Search)
    requires c.Valid() && Productive(c) && s == After(c, flips, k) && !Done(c, s)
    ensures s.params.doubleSided && After(c, flips, k + 1) == Step(c, s, flips(k))
    ensures Smaller(c, Step(c, s, flips(k)), s)
  {
    StepShrinks(c, s, flips(k));
  }

  lemma {:induction false} NotDoneEarlier(c: Config, flips: nat -> bool, n: nat, k: nat)
    requires c.Valid() && k <= n && !Done(c, After(c, flips, n))
    ensures !Done(c, After(c, flips, k))
  {
    if k < n {
      NotDoneEarlier(c, flips, n - 1, k);
    }
  }

  /** Once done, the search stays so. */
  lemma NotDoneBefore(c: Config, flips: nat -> bool, runs: nat)
    requires c.Valid() && (runs > 0 ==> !Done(c, After(c, flips, runs - 1)))
    ensures forall k: nat :: k < runs ==> !Done(c, After(c, flips, k))
  {
    forall k: nat | k < runs
      ensures !Done(c, After(c, flips, k))
    {
      NotDoneEarlier(c, flips, runs - 1, k);
    }
  }

  /** The main loop, for hardware whose answer to each run is given. */
  method SearchAll(setup: Config, flips: nat -> bool) returns (runs: nat, rowCount: map<Key, nat>)
    requires setup.Valid() && setup.maxAttackRowIdx > 4 && Productive(setup)
    ensures Done(setup, After(setup, flips, runs)) && rowCount == After(setup, flips, runs).rowCount
    ensures forall k: nat :: k < runs ==> !Done(setup, After(setup, flips, k))
  {
    var analysis := new Analysis(setup);
    runs := 0;
    ghost var s := analysis.Current();
    while analysis.iteration < setup.maxAttackRowIdx - 4
      invariant analysis.Valid() && analysis.setup == setup && fresh(analysis) && fresh(analysis.generator)
      invariant s == analysis.Current() == After(setup, flips, runs)
      invariant runs > 0 ==> !Done(setup, After(setup, flips, runs - 1))
      decreases setup.maxAttackRowIdx - 4 - s.iteration, Rank(s.stage), s.total, Turn(s.stage), setup.maxDilution - s.dilution
    {
      SearchTurns(setup, flips, runs, s);
      var rows := HammerOnce(analysis, flips(runs));
      s := analysis.Current();
      runs := runs + 1;
    }
    rowCount := analysis.rowCount;
    NotDoneBefore(setup, flips, runs);
  }
}
