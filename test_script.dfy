/** The older scanning script: five games for every pair of the first two
    personality parameters, keeping each game's largest bank through the
    transposed round list, and averaging without rounding. Its
    `call_halite` is the one of the tuning script, `RunAndParse.CallHalite`. */
module TestScript {
  import opened Outcomes
  import opened PyMath
  import Linalg
  import opened RunAndParse

  /** A row of its `averages`: the sample, then the mean best halite. */
  datatype TestRow = TestRow(sample: seq<real>, average: real)

  /** Games played per sample. */
  const Repeats: nat := 5

  /** `list(zip(*halite_data))`: the round column and the halite column,
      or no columns at all when there are no rounds. */
  function Columns(rounds: seq<RoundPair>): (columns: seq<seq<int>>)
    ensures |rounds| == 0 ==> columns == []
    ensures |rounds| > 0 ==> |columns| == 2 && |columns[0]| == |rounds| && |columns[1]| == |rounds|
    ensures |rounds| > 0 ==> forall k :: 0 <= k < |rounds| ==>
              columns[0][k] == rounds[k].round && columns[1][k] == rounds[k].halite
  {
    if |rounds| == 0 then []
    else
      [seq(|rounds|, k requires 0 <= k < |rounds| => rounds[k].round),
       seq(|rounds|, k requires 0 <= k < |rounds| => rounds[k].halite)]
  }

  /** `max(list(zip(*halite_data))[1])`, which raises `IndexError` when
      the game has no rounds. */
  function MaxHalite(rounds: seq<RoundPair>): Result<int, Failure>
  {
    var columns := Columns(rounds);
    if |columns| < 2 then Err(IndexError) else Ok(MaxOf(columns[1]))
  }

  /** Both scripts read the same best halite off a game: the largest
      entry of the halite column is the halite of the first round of the
      descending sort, and both raise `IndexError` on an empty game. */
  lemma ColumnMaxAgreesWithBest(rounds: seq<RoundPair>)
    ensures |rounds| == 0 ==> MaxHalite(rounds) == Err(IndexError)
    ensures |rounds| > 0 ==> MaxHalite(rounds) == Ok(BestRound(rounds).halite)
  {
    if |rounds| > 0 {
      var column := Columns(rounds)[1];
      var m := MaxOf(column);
      var best := BestRound(rounds);
      var i :| 0 <= i < |column| && column[i] == m;
      assert rounds[i].halite <= best.halite;
      var j := FirstMaxIndex(rounds, HaliteOf);
      assert column[j] == best.halite;
    }
  }

  /** One game's largest bank, as this script computes it. */
  function GameMax(output: GameOutput): Result<int, Failure>
  {
    match RunOf(output)
    case Err(e) => Err(e)
    case Ok(data) => MaxHalite(data.halite)
  }

  lemma GameMaxIsGameBest(output: GameOutput)
    ensures GameMax(output) == GameBest(output)
  {
    if RunOf(output).Ok? {
      ColumnMaxAgreesWithBest(RunOf(output).value.halite);
    }
  }

  /** The five games of one sample: their largest banks, or the first
      exception. */
  function TestMaxes(sample: seq<real>, games: Games): (r: Result<seq<int>, Failure>)
    ensures r.Ok? ==> |r.value| == Repeats && forall k :: 0 <= k < Repeats ==> GameMax(games(sample, k)) == Ok(r.value[k])
  {
    Collect(seq(Repeats, k requires 0 <= k < Repeats => GameMax(games(sample, k))))
  }

  function TestSampleRow(sample: seq<real>, games: Games): (r: Result<TestRow, Failure>)
    ensures r.Ok? <==> TestMaxes(sample, games).Ok?
    ensures r.Ok? ==> r.value.sample == sample
  {
    match TestMaxes(sample, games)
    case Err(e) => Err(e)
    case Ok(maxes) => Ok(TestRow(sample, Mean(maxes)))
  }

  /** The rows for `samples`, in order, or the first exception. */
  function TestRows(samples: seq<seq<real>>, games: Games): (r: Result<seq<TestRow>, Failure>)
    ensures r.Ok? ==> |r.value| == |samples|
    ensures r.Ok? ==> forall k :: 0 <= k < |samples| ==> TestSampleRow(samples[k], games) == Ok(r.value[k])
  {
    Collect(seq(|samples|, k requires 0 <= k < |samples| => TestSampleRow(samples[k], games)))
  }

  /** The inner loop: five games with one sample. */
  method PlayFive(sample: seq<real>, games: Games) returns (r: Result<seq<int>, Failure>)
    ensures r == TestMaxes(sample, games)
  {
    ghost var results := seq(Repeats, k requires 0 <= k < Repeats => GameMax(games(sample, k)));
    var maxes: seq<int> := [];
    for t := 0 to Repeats
      invariant Collect(results[..t]) == Ok(maxes)
    {
      CollectNext(results, t);
      var data := CallHalite(games(sample, t));
      if data.Err? {
        CollectFailureSticks(results, t + 1);
        return Err(data.error);
      }
      var twoColumns := Columns(data.value.halite);
      if |twoColumns| < 2 {
        CollectFailureSticks(results, t + 1);
        return Err(IndexError);
      }
      var maxHalite := MaxOf(twoColumns[1]);
      maxes := maxes + [maxHalite];
    }
    assert results[..Repeats] == results;
    return Ok(maxes);
  }

  /** `scan_pvalues(P0_values, P1_values)`: every pair of the two lists,
      in `itertools.product` order, with the mean of its five best
      banks. */
  method TestScan(p0Values: seq<real>, p1Values: seq<real>, games: Games) returns (r: Result<seq<TestRow>, Failure>)
    ensures r == TestRows(Linalg.Product([p0Values, p1Values]), games)
  {
    var samples := Linalg.Product([p0Values, p1Values]);
    ghost var results := seq(|samples|, k requires 0 <= k < |samples| => TestSampleRow(samples[k], games));
    var averages: seq<TestRow> := [];
    for s := 0 to |samples|
      invariant Collect(results[..s]) == Ok(averages)
    {
      var sample := samples[s];
      CollectNext(results, s);
      var maxes := PlayFive(sample, games);
      if maxes.Err? {
        CollectFailureSticks(results, s + 1);
        return Err(maxes.error);
      }
      averages := averages + [TestRow(sample, Mean(maxes.value))];
    }
    assert results[..|samples|] == results;
    return Ok(averages);
  }

  /** Per sample, this script and the tuning script with five games agree:
      both fail alike, and the tuning script's score is this script's
      average, rounded. */
  lemma SampleRowsAgree(sample: seq<real>, games: Games)
    ensures TestMaxes(sample, games) == BestHalites(sample, Repeats, games)
    ensures TestSampleRow(sample, games).Ok? <==> SampleRow(sample, Repeats, games).Ok?
    ensures TestSampleRow(sample, games).Ok? ==>
              SampleRow(sample, Repeats, games).value.score == RoundHalfEven(TestSampleRow(sample, games).value.average)
  {
    var mine := seq(Repeats, k requires 0 <= k < Repeats => GameMax(games(sample, k)));
    var theirs := seq(Repeats, k requires 0 <= k < Repeats => GameBest(games(sample, k)));
    forall k | 0 <= k < Repeats
      ensures mine[k] == theirs[k]
    {
      GameMaxIsGameBest(games(sample, k));
    }
    assert mine == theirs;
    assert TestMaxes(sample, games) == Collect(mine);
    assert BestHalites(sample, Repeats, games) == Collect(theirs);
  }

  /** Over a whole scan the two scripts agree: one succeeds exactly when
      the other does, and then row by row on the sample and on the score. */
  lemma ScansAgree(samples: seq<seq<real>>, games: Games)
    ensures TestRows(samples, games).Ok? <==> ScanRows(samples, Repeats, games).Ok?
    ensures TestRows(samples, games).Ok? ==> forall k :: 0 <= k < |samples| ==>
              ScanRows(samples, Repeats, games).value[k].sample == TestRows(samples, games).value[k].sample
              && ScanRows(samples, Repeats, games).value[k].score == RoundHalfEven(TestRows(samples, games).value[k].average)
  {
    var mine := seq(|samples|, k requires 0 <= k < |samples| => TestSampleRow(samples[k], games));
    assert TestRows(samples, games) == Collect(mine);
    CollectSucceeds(mine);
    ScanRowsFailure(samples, Repeats, games);
    forall k | 0 <= k < |samples|
      ensures TestSampleRow(samples[k], games).Ok? <==> SampleRow(samples[k], Repeats, games).Ok?
    {
      SampleRowsAgree(samples[k], games);
    }
    if TestRows(samples, games).Ok? {
      forall k | 0 <= k < |samples|
        ensures ScanRows(samples, Repeats, games).value[k].sample == TestRows(samples, games).value[k].sample
        ensures ScanRows(samples, Repeats, games).value[k].score == RoundHalfEven(TestRows(samples, games).value[k].average)
      {
        SampleRowsAgree(samples[k], games);
      }
    }
  }
}
