# Halite III tuning bot, modelled in Dafny

This project models a small Halite III toolkit. It has four parts.

- **The agent** (`MyBot.py`). Each ship picks a target. The target is the
  shipyard when the ship is full, or when it is loaded and sits on a depleted
  cell. Otherwise the ship searches a square spiral around itself for the
  first cell rich enough to mine. The ship then steps to the neighbour that
  brings it closest to that target while avoiding cells already claimed this
  turn. After all ships have moved, the agent spawns a new ship when the bank,
  the fleet size and a free shipyard allow it. Three personality parameters
  `p` set the thresholds `q`. The agent logs the map and, every round, the
  turn number and its bank.
- **The tuning scripts** (`RunAndParse.py`, `test.py`). They run one game,
  read the engine's standard error for the map seed and the collision count,
  and read the agent's log for the map and the per-round bank. For every
  combination of personality parameters they play several games. From each
  game they keep the best bank, average those over the games, and rank the
  combinations by that average.
- **The surrogate models** (`EGO.py`, `p_gaussian.py`). These are Gaussian
  process regressions used to pick the next parameters to try. They build a
  covariance matrix from a kernel over the data points, weight the observed
  values by it, and choose the sample point whose estimate plus its deviation
  is largest.
- **The quadratic fit** (`quad_solver.py`). It fits a parabola through three
  points and returns its vertex.

## Modelling choices

- **Modules.** Each source file is one module: `MyBot`, `RunAndParse`,
  `TestScript`, `Ego`, `PGaussian` and `QuadSolver`. Four helper modules model
  the Python and numpy built-ins these files use:
  - `Text`: `str.find`, `str.split`, `int()`, `str()`.
  - `PyMath`: `round`, `statistics.mean`, `max`, `sorted`.
  - `Linalg`: sums, dot products, columns, `np.argmax`, `itertools.product`.
  - `Outcomes`: `Option` and `Result`.
- **Arithmetic.** All arithmetic is exact (`int` and `real`). `exp`, `sqrt` and
  the kernel are function-valued parameters. A property that needs
  `exp(0) = 1` or `sqrt(0) = 0` states it as a precondition.
- **Matrix inversion.** The weight matrix `inv(K) · K*` is an input required
  to solve `K · W = K*`.
- **Imperative code.** Loops that build a list become methods with `while` or
  `for` loops. Each is proved equal to a specification function that recurses
  from the back. The generator `spiral_walk` becomes `SpiralWalk`, which
  returns its first `n` positions.
- **Mutable objects.** The objects whose methods update fields are classes:
  `Ego.Ego`, `PGaussian.PredictionEngine`, and the turn state
  `MyBot.Turn` (committed cells, moved ships, command queue).
- **Exceptions.** An exception the scripts let escape is an `Err` of a
  `Failure` value. "The first exception of a loop escapes" is `Collect`.
- **Recursion.** `move_ship_recursive` becomes the mutually recursive
  methods `MoveShip` (the fallback), `Rounds` (the while loop), `Attempt`
  (one pass), `Round`, `ClearTarget` (the scan) and `Yield` (the recursive
  call). They terminate because each nested call ignores one more ship of
  the fleet. The ghost field `movers` records the ship each command is for.
- **Shared code.** The `call_halite` of `test.py` (test.py:9-42) reads a game
  exactly as the one in `RunAndParse.py` does, so both scripts use
  `RunAndParse.CallHalite`.
- **Outside inputs.** The engine's output for a game is a `GameOutput` value,
  and the sequence of games is a function `Games`. The map read by the agent
  is a function from positions to halite.

## Model

| member | source | states |
|---|---|---|
| MyBot.DistProperties | MyBot.py:65-67 | the squared distance is non-negative, symmetric, and zero exactly for equal positions |
| MyBot.StepIsUnit | MyBot.py:106-110 | a step in any option direction lands at squared distance 1 |
| MyBot.LegAt | MyBot.py:53-62 | the k-th position of a straight leg is the start moved k+1 times by the leg's unit step |
| MyBot.Spiral | MyBot.py:43-47 | the spiral prefix has length n and starts at the ship's own position |
| MyBot.SpiralWalk | MyBot.py:43-63 | the loop yields exactly the first n positions of the spiral |
| MyBot.SpiralTurn | MyBot.py:50-63 | one pass of the while loop yields one cycle of four legs and leaves the cursor one step left and one step down (y+1) |
| MyBot.CyclesPrefix | MyBot.py:49-63 | the walk after fewer cycles is a prefix of the walk after more |
| MyBot.WalkPrefix | MyBot.py:43-63 | every prefix of a completed walk is the spiral of that length |
| MyBot.CycleAt | MyBot.py:50-62 | the exact coordinates of every position of a cycle, leg by leg |
| MyBot.CycleShape | MyBot.py:50-62 | a cycle starts on the east side, ends one step left and down, and consecutive positions after the first are neighbours |
| MyBot.TurnStart | MyBot.py:48-63 | after m cycles the walk is at (sx-m, sy+m), and the next cycle starts at (sx+m+1, sy+m) |
| MyBot.WalkLength | MyBot.py:48-63 | after m cycles the walk has yielded 1 + 3m(m+1) positions |
| MyBot.SpiralShift | MyBot.py:43-63 | the spiral from (sx, sy) is the spiral from the origin translated by (sx, sy) |
| MyBot.Personality | MyBot.py:213-216 | for p in [0,1]: the depleted threshold is in [0,200], the returning cargo is between 50% and 75% of the maximum, and the fleet limit is in [1,30] |
| MyBot.FirstRich | MyBot.py:76-80 | the index of the first cell of the walk whose halite reaches the depleted threshold, and no earlier cell reaches it |
| MyBot.Target | MyBot.py:69-86 | the shipyard when the ship goes home; otherwise the first rich cell among the first 4·side²+1 spiral positions, or the ship's own position when none is rich |
| MyBot.DetermineTarget | MyBot.py:69-86 | the search loop with its two early returns computes `Target` |
| MyBot.DesiredMove | MyBot.py:88-116 | stays put when the cargo cannot pay or the ship is on target; otherwise takes the first strictly closest uncommitted neighbour below the bound (1000 on the shipyard), else stays; a move goes to an uncommitted neighbour |
| MyBot.Turn.constructor | MyBot.py:171-180 | a turn starts with no committed cells, no moved ships and no commands |
| MyBot.Turn.MoveShip | MyBot.py:118-165 | the lists only grow, every new command is for a fleet ship or this one, and this ship's command comes last; that command is either its desired move, chosen against the cells committed when its last round began, never a step into a cell committed before it, with the ship marked moved once; or the stay-still fallback, with the ship not marked; a ship that no other ship shares a cell with always gets its desired move; with distinct positions, moved ships and commands stay in step and no ship is marked twice |
| MyBot.Turn.Rounds | MyBot.py:121-159 | the while loop ends with the ship's desired move committed, or with the ship unmarked; it never runs out of rounds for a ship alone on its cell |
| MyBot.Turn.Attempt | MyBot.py:123-159 | one pass of the while loop keeps the growth since the loop began; a pass that fails for a ship alone on its cell leaves more of its four neighbours committed than before |
| MyBot.Turn.Round | MyBot.py:124-157 | the ships on the desired destination move first; if the destination is still free the desired move is committed and the ship marked moved, otherwise nothing is marked for the ship |
| MyBot.RoundFailed | MyBot.py:122-125 | a round that a ship alone on its cell could not commit asked for a neighbour that was free at its start and is committed now, so the count of committed neighbours rises |
| MyBot.Turn.ClearTarget | MyBot.py:134-145 | the scan moves every unmoved, unignored ship on the destination first; it reports clear only if a destination that was free is still free, and not clear only if the destination is committed and another fleet ship stands on it |
| MyBot.Turn.Yield | MyBot.py:136-139 | the recursive call for a blocking ship, with this ship added to what it ignores, commands only fleet ships and never marks this ship |
| MyBot.PendingShrinks | MyBot.py:136-139 | each recursive call leaves fewer fleet ships that are neither ignored nor the moving one, so the recursion ends |
| MyBot.Turn.Settle | MyBot.py:147-157 | committing a cleared desired move makes it the ship's last command, with the ship marked moved and the step into a cell nobody committed before |
| MyBot.Turn.Commit | MyBot.py:147-157 | `stay_still` or `move(d)` is queued, the ship's cell or destination committed and the ship marked moved |
| MyBot.Turn.StayStill | MyBot.py:162-165 | after ten failed rounds `stay_still` is queued and the ship's cell committed, without marking it moved |
| MyBot.Turn.MoveUnlessMoved | MyBot.py:188-189 | a ship already moved by an earlier recursion keeps its command; any other ship is moved now; either way it is commanded |
| MyBot.Turn.MoveFleet | MyBot.py:187-189 | after the loop every fleet ship has a command and every command is for a fleet ship; with distinct positions no ship is marked twice |
| MyBot.FleetQueue | MyBot.py:187-193 | every queued command is for a fleet ship, the shipyard is committed exactly when some command leaves its ship there, and with distinct positions no ship has two commands |
| MyBot.OneGameStep | MyBot.py:167-196 | every ship of the fleet gets a command and every command is for a fleet ship, then a spawn exactly when the bank covers the ship cost, the fleet is within the limit and no command leaves its ship on the shipyard; when no two ships share a cell, no ship gets two commands |
| MyBot.RoundLogLineFields | MyBot.py:173 | the round log message splits on ':' into the tag, the turn and the bank |
| RunAndParse.StderrStepEffect | RunAndParse.py:23-27 | one stderr line fails exactly when it holds the seed marker with an unparsable seed; otherwise it adds one collision for a `[P0]`…`collided` line and sets the seed from a seed line |
| RunAndParse.StderrScanMeaning | RunAndParse.py:22-27 | the stderr scan succeeds exactly when every seed line parses, and then counts the collision lines |
| RunAndParse.StderrFailureSticks | RunAndParse.py:22-27 | once a line has raised, later lines do not change the outcome |
| RunAndParse.StderrSeedAbsent | RunAndParse.py:23-25 | no seed is found exactly when no line holds the seed marker |
| RunAndParse.StderrSeedLast | RunAndParse.py:23-25 | the seed found is the one parsed from the last line holding the marker |
| RunAndParse.ScanStderr | RunAndParse.py:21-27 | the loop over the lines of stderr computes `StderrScan` |
| RunAndParse.SeedLineParses | RunAndParse.py:23-25 | the engine's seed line holds the marker, and the text from offset 18 parses back to the seed |
| RunAndParse.RoundOf | RunAndParse.py:36-37 | a round line reads fields 3 and 4 as integers; IndexError when fields are missing, ValueError when one does not parse |
| RunAndParse.LogStepEffect | RunAndParse.py:31-37 | a log line adds a round pair exactly when it holds the round tag, and sets the map when it holds the map tag |
| RunAndParse.LogFailureSticks | RunAndParse.py:31-37 | once a log line has raised, later lines do not change the outcome |
| RunAndParse.LogScanRounds | RunAndParse.py:35-37 | the rounds are exactly the parsed round lines, one per round line, in order |
| RunAndParse.LogScanMap | RunAndParse.py:32-34 | no map is found exactly when no line holds the map tag |
| RunAndParse.LogStepMap | RunAndParse.py:32-34 | a map line sets the map to its field 3; other lines keep it |
| RunAndParse.LogMapLast | RunAndParse.py:32-34 | the map found is field 3 of the last line holding the map tag |
| RunAndParse.ScanLog | RunAndParse.py:29-37 | the loop over the log computes `LogScan` |
| RunAndParse.TagContains | RunAndParse.py:32-35 | a logged message contains a `##` tag exactly when the message starts with it |
| RunAndParse.RoundMessageTags | MyBot.py:173 | the agent's round line holds the round tag and not the map tag |
| RunAndParse.MapLineTags | MyBot.py:206-209 | the agent's map line holds the map tag and not the round tag |
| RunAndParse.RoundMessageSplit | MyBot.py:173 | the logged round line splits into INFO, root, the tag, the turn and the bank followed by the newline |
| RunAndParse.RoundLineReads | RunAndParse.py:35-37 | the tuning script reads back the turn and bank the agent logged |
| RunAndParse.MapLineStep | RunAndParse.py:32-34 | the tuning script reads back the map text the agent logged, with its trailing newline |
| RunAndParse.EmittedRoundsParse | RunAndParse.py:35-37 | a run of logged round lines appends exactly the logged pairs |
| RunAndParse.GameLogParses | RunAndParse.py:29-37 | a whole agent log reads back as its map and all its round pairs |
| RunAndParse.CallHalite | RunAndParse.py:11-42 | one game's result is the seed, the collision count, the map and the rounds, or the exception that escaped |
| RunAndParse.RunOfMeaning | RunAndParse.py:21-42 | a game succeeds exactly when both scans succeed and a map line and a seed line exist; it then counts collisions and has one pair per round line |
| RunAndParse.GameRoundTrip | RunAndParse.py:11-42 | a game whose agent logged a map and rounds reads back as exactly that map and those rounds, with the seed and collisions from stderr |
| RunAndParse.BestRound | RunAndParse.py:54 | the head of the descending sort on halite is the first round of largest halite, and no round has more |
| RunAndParse.Collect | RunAndParse.py:48-57 | a loop that appends one value per pass yields each pass's value, in order |
| RunAndParse.CollectSucceeds | RunAndParse.py:48-57 | the loop completes exactly when no pass raises |
| RunAndParse.CollectFirstFailure | RunAndParse.py:48-57 | when it fails, the error is the first raising pass's, and all earlier passes succeeded |
| RunAndParse.GameBestIsLargest | RunAndParse.py:52-54 | a game's best bank is attained by some round and no round exceeds it |
| RunAndParse.BestHalites | RunAndParse.py:51-57 | the best bank of each repeated game, in order |
| RunAndParse.SampleRow | RunAndParse.py:51-58 | a row exists exactly when there is at least one repeat and every game succeeds, and it carries its sample |
| RunAndParse.ScanRows | RunAndParse.py:47-58 | one row per sample, in order |
| RunAndParse.ScanRowsFailure | RunAndParse.py:47-58 | the scan succeeds exactly when every sample's row does; otherwise the first failing sample's error escapes |
| RunAndParse.PlayRepeats | RunAndParse.py:51-57 | the repeats loop computes `BestHalites` |
| RunAndParse.ScanPValues | RunAndParse.py:44-60 | the scan over `itertools.product` of the parameter lists computes `ScanRows` |
| RunAndParse.ScoreWithinBest | RunAndParse.py:58 | the rounded mean lies between any bounds on the best banks |
| RunAndParse.ScoreOfOneGame | RunAndParse.py:65 | with one repeat the score is that game's best bank |
| RunAndParse.Ranked | RunAndParse.py:68 | the ranking is in descending score order and is a permutation of the rows |
| RunAndParse.ScriptGrid | RunAndParse.py:62-65 | the script scans 125 samples of three values, each from the P value list |
| RunAndParse.RankedRowsComeFromSamples | RunAndParse.py:65-68 | every ranked row's sample is one of the scanned samples |
| RunAndParse.ScriptShape | RunAndParse.py:62-68 | the script's ranking has 125 rows of three P values, in descending score order |
| TestScript.Columns | test.py:51 | transposing the rounds gives the round column and the halite column, or nothing for no rounds |
| TestScript.ColumnMaxAgreesWithBest | test.py:51-52 | the maximum of the halite column equals the tuning script's best round halite; both raise IndexError on an empty game |
| TestScript.GameMaxIsGameBest | test.py:49-52 | the two scripts read the same best bank from any game |
| TestScript.TestMaxes | test.py:47-54 | the best bank of each of the five games, in order |
| TestScript.TestSampleRow | test.py:47-55 | a row exists exactly when all five games succeed, and it carries its sample |
| TestScript.TestRows | test.py:44-57 | one row per sample, in order |
| TestScript.PlayFive | test.py:48-54 | the five-game loop computes `TestMaxes` |
| TestScript.TestScan | test.py:44-57 | the scan over the product of the two lists computes `TestRows` |
| TestScript.SampleRowsAgree | test.py:47-55 | per sample, the older script and the tuning script with five repeats fail alike, and the tuning score is the older average rounded half to even |
| TestScript.ScansAgree | test.py:44-57 | over a whole scan, the two scripts succeed together and agree row by row |
| Ego.SumOfSquares | EGO.py:33-37 | the weighted sum of squared differences is non-negative |
| Ego.SumOfSquaresSymmetric | EGO.py:33-37 | that sum is symmetric in the two points |
| Ego.SumOfSquaresSelf | EGO.py:33-37 | that sum is zero between a point and itself |
| Ego.SqExpKernelAtZero | EGO.py:89-91 | the squared-exponential kernel at separation 0 is its amplitude |
| Ego.SqExpKernelEven | EGO.py:89-91 | the kernel is even in the separation |
| Ego.Himmelblau | EGO.py:93-98 | Himmelblau's function is non-negative and vanishes at (3, 2) |
| Ego.Ego.constructor | EGO.py:12-44 | a new model has no data and unit thetas unless thetas are given |
| Ego.Ego.AddPoint | EGO.py:46-48 | a point of the right width is appended with its value; any other width is refused and nothing changes |
| Ego.Ego.Dims | EGO.py:35 | `zip` runs over as many dimensions as both the field count and the thetas have |
| Ego.Ego.SquaredSeparation | EGO.py:33-37 | the accumulation loop computes the weighted sum of squares over those dimensions |
| Ego.Ego.Separations | EGO.py:29-41 | entry (i, j) is the separation of a[j] from b[i] (query point j against data point i in the cross use at EGO.py:72) |
| Ego.Ego.OneDimensionalSeparations | EGO.py:39-41 | with one field, the separation is the signed difference: antisymmetric, zero on the diagonal |
| Ego.Ego.MultiDimensionalSeparations | EGO.py:29-37 | with several fields, the separations are symmetric and zero on the diagonal when sqrt(0) = 0 |
| Ego.Ego.GpCov | EGO.py:50-56 | the covariance is the kernel of the separations plus the noise on the diagonal |
| Ego.Ego.GpCovSymmetric | EGO.py:50-56 | the covariance is symmetric, with kernel(0) + noise on the diagonal |
| Ego.Ego.DataCov | EGO.py:68 | the data covariance is square in the number of data points |
| Ego.Ego.CrossCov | EGO.py:72-73 | entry (i, j) is the kernel of the separation between query j and data point i |
| Ego.Ego.GeneratePredictions | EGO.py:63-87 | no prediction without data; otherwise, per query point, the centred weighted mean, the scaled posterior variance and its root |
| Ego.CentredMeans | EGO.py:78-79 | each mean is the weights' dot product with the centred values, plus the average |
| Ego.PosteriorVariances | EGO.py:82-85 | each variance is the scale times kernel(0) minus the dot product of the cross covariance and weight columns |
| Ego.CentredMeanDecomposition | EGO.py:79 | the centred mean equals the raw weighted sum plus the average times one minus the weight total |
| Ego.ZeroWeightsGiveAverage | EGO.py:79 | with zero weights the prediction is the data average |
| Ego.ConstantDataPredictsConstant | EGO.py:78-79 | with constant data the prediction is that constant, whatever the weights |
| PGaussian.InternalSum | p_gaussian.py:69 | the sum of squared differences is non-negative |
| PGaussian.InternalSumSymmetric | p_gaussian.py:69 | that sum is symmetric |
| PGaussian.InternalSumSelf | p_gaussian.py:69 | that sum is zero between a point and itself |
| PGaussian.KernelProperties | p_gaussian.py:67-75 | the kernel is symmetric and equals 1 on equal points |
| PGaussian.CalcBigR | p_gaussian.py:77-80 | the correlation matrix is N×N: the kernel plus the i-th noise on the diagonal |
| PGaussian.BigRProperties | p_gaussian.py:77-80 | that matrix is symmetric, with 1 + noise[i] on the diagonal |
| PGaussian.CalcBigRAsCalled | p_gaussian.py:43-44 | with the (N,1) noise column actually passed, `np.diag` yields one element that is broadcast to the whole N×N matrix |
| PGaussian.BigRAsCalledBroadcastsNoise | p_gaussian.py:43-44 | as called, every entry gets the noise, off the diagonal too |
| PGaussian.BigRAsCalledDiffers | p_gaussian.py:43-44 | for two one-dimensional points the as-called matrix differs from the intended one off the diagonal |
| PGaussian.CalcSmallR | p_gaussian.py:82-84 | entry (j, i) is the kernel between sample point i and data point j |
| PGaussian.Samples | p_gaussian.py:35 | one row of ten jittered band starts per dimension |
| PGaussian.LengthProductOfDivisions | p_gaussian.py:36 | the product of d lists of ten has 10^d elements |
| PGaussian.GridProperties | p_gaussian.py:33-36 | 10^d sample points, each with d coordinates in [0, 1), each coordinate in one of the ten bands |
| PGaussian.Estimates | p_gaussian.py:51 | each estimate is the weight column's dot product with the known values |
| PGaussian.Variances | p_gaussian.py:56-57 | each variance is one minus the dot product of the correlation and weight columns |
| PGaussian.Scores | p_gaussian.py:58-63 | each score is the estimate plus the root of the variance |
| PGaussian.UncentredZeroWeights | p_gaussian.py:51 | with zero weights the estimate is 0 (no centring, unlike EGO) |
| PGaussian.PredictionEngine.constructor | p_gaussian.py:15-17 | a new engine has no data |
| PGaussian.PredictionEngine.Append | p_gaussian.py:19-26 | the first point starts the data; later points of the same width are appended with their value; others are refused and nothing changes |
| PGaussian.PredictionEngine.DetermineMax | p_gaussian.py:28-65 | none without data; otherwise the first sample point of largest score, with its estimate |
| QuadSolver.DesignRows | quad_solver.py:7-9 | one row (x², x, 1) per x value |
| QuadSolver.DesignMatrix | quad_solver.py:7-10 | the loop builds exactly those rows |
| QuadSolver.CramerRow | quad_solver.py:13 | Cramer's cofactor identity holds for every row of a 3×3 system |
| QuadSolver.CramerSolution | quad_solver.py:13 | with a non-zero determinant, Cramer's rule solves all three equations |
| QuadSolver.Solve | quad_solver.py:13 | a non-square matrix is refused; a solution satisfies every equation |
| QuadSolver.SolveOutcome | quad_solver.py:13 | the system is singular exactly when the determinant is zero, and solvable exactly when it is not and the values match |
| QuadSolver.Cramer | quad_solver.py:13 | the solution it returns satisfies the system |
| QuadSolver.Fit | quad_solver.py:5-13 | a fitted parabola passes through all three points |
| QuadSolver.Vertex | quad_solver.py:15 | the vertex exists exactly when the curvature is non-zero, and the derivative vanishes there |
| QuadSolver.OnCurve | quad_solver.py:7-13 | a solution of the design system puts every point on the parabola |
| QuadSolver.SolveQuad | quad_solver.py:5-15 | `solve_quad` returns the vertex of the fitted parabola, which passes through the three points |
| QuadSolver.VandermondeDet | quad_solver.py:10-13 | the design determinant is (x0-x1)(x0-x2)(x1-x2), non-zero for distinct x |
| QuadSolver.DesignInvertible | quad_solver.py:10-13 | three distinct x values make the design matrix invertible |
| QuadSolver.DistinctPointsFit | quad_solver.py:5-13 | three distinct x values always yield a fit |
| QuadSolver.VertexIsExtremum | quad_solver.py:15 | the vertex is the minimum of an upward parabola and the maximum of a downward one |
| QuadSolver.Example | quad_solver.py:17-19 | the script's points (1,4), (4,6), (5,5) fit -5/12 x² + 11/4 x + 5/3, with vertex 3.3 |
| Linalg.FirstArgmax | p_gaussian.py:63 | `np.argmax` gives the first index of the largest value |
| Linalg.ProductShape | RunAndParse.py:47 | `itertools.product` yields the product of the lengths many tuples, each taking coordinate d from list d |
| Linalg.CombineAt | p_gaussian.py:36 | the product enumerates in odometer order, the last list varying fastest |
| PyMath.RoundHalfEven | RunAndParse.py:58 | `round` picks the nearest integer, the even one on a tie |
| PyMath.MeanBounds | RunAndParse.py:58 | the mean lies between any bounds on its values |
| PyMath.SortDescendingCorrect | RunAndParse.py:68 | the reverse sort by key is descending and a permutation |
| PyMath.SortDescendingHead | RunAndParse.py:54 | the head of the stable reverse sort is the first element of largest key |
| Text.SplitJoin | RunAndParse.py:36 | splitting a join of separator-free pieces gives back the pieces |
| Text.ParseShowInt | RunAndParse.py:37 | `int()` reads back `str()` of any integer, also with a trailing newline |
| Text.ParsePaddedInt | RunAndParse.py:25 | `int()` reads back `str()` of any integer surrounded by any Python whitespace, non-ASCII spaces included |

## Left out

- Matrix inversion (`np.linalg.inv`, EGO.py:76, p_gaussian.py:49): the weight matrix is an input required to solve the covariance system. The model does not compute it.
- Floating point: all arithmetic is exact. `exp`, `sqrt` and the kernel are parameters. Float rounding, `nan` and `inf` are not modelled.
- QuadSolver.Vertex: numpy's division by a zero `a` (which gives `inf` or `nan`) is modelled as the error `ZeroCurvature`.
- QuadSolver.Solve: numpy's `LinAlgError` for a singular or non-square matrix is modelled as the errors `Singular` and `NotSquare`.
- Randomness: the jitter `0.1*random.random()` of `determine_max` (p_gaussian.py:35) is a parameter with each entry in [0, 0.1).
- EGO's `corr_noise` (Cholesky sampling, EGO.py:58-61) is not modelled.
- The demos, plotting and `__main__` blocks of EGO.py and p_gaussian.py are not modelled.
- Ego.Ego.GeneratePredictions: with no data, numpy's `np.average` of an empty array warns and yields `nan`; the model returns no prediction instead.
- Ego.Ego.GeneratePredictions: with `num_fields = 0` the constructor succeeds, but the one-dimensional `delta_f` (EGO.py:40) indexes `x1[np.newaxis,:,0]` on an array of width 0 and raises `IndexError`; the model requires at least one field here and does not model that error.
- Ego.Ego.DataCov: requires at least one field, for the `IndexError` of EGO.py:40 described for `GeneratePredictions`.
- Ego.Ego.CrossCov: requires at least one field, for the same reason.
- Ego.Ego.AddPoint: `np.vstack` raises on a wrong width; the model refuses the point and returns false.
- Running the engine: `subprocess.run`, the command line, replays, `os.remove`, `time` and the opening of `bot-0.log` are not modelled. A game is its captured stderr text and log lines, a `GameOutput` value, and the games of a scan are a function `Games` of the sample and the repeat number.
- `json.loads` of the map (RunAndParse.py:34) is not modelled: the map is kept as the text of field 3, trailing newline included.
- The printing of test.py (the stdout echo at test.py:27, the final print) and the writing of results are not modelled. Neither is the string formatting of the arguments passed to the agent.
- RunAndParse.CallHalite: a game with no map line or no seed line raises `UnboundLocalError` in the source; the model gives the error `Unbound`.
- Text.ParseInt: Python's `int()` also accepts underscores between digits and non-ASCII digits; the model accepts an optional sign and ASCII digits inside optional whitespace (Python's whitespace set, non-ASCII spaces included).
- The logging framework: a logged line is modelled as Python's default `INFO:root:` format followed by the message and a newline.
- The hlt SDK (game engine protocol, `Game`, `GameMap`, command encoding, `update_frame`, `end_turn`) is not part of this model. The map is a function from positions to halite, and wrapping around the torus is not modelled.
- The argument parsing of MyBot.py (MyBot.py:18-36), its logging set-up and its game loop (MyBot.py:224-228) are not modelled.
- MyBot.StaysPut: `cargo < cell*0.1` is modelled as `10·cargo < cell`, exact rather than with float rounding.
- `sc_log` is used before it is defined (MyBot.py:34). Logging in the agent is not modelled.
- `desired_move` calls `determine_target(ship, shipyard_position)` without `game_map` (MyBot.py:93), and it reads `game_map` as a global (MyBot.py:95). The model passes the map to both.
- `move_ship_recursive` passes the boolean `ship.position == me.shipyard.position` where `desired_move` expects the shipyard position (MyBot.py:125). `on_shipyard` (MyBot.py:89) then compares that boolean with a Position. What this yields depends on the hlt SDK's `Position`, which is not part of this model. The model passes the shipyard position, as the parameter's name says.
- MyBot.Turn.Yield: the source passes `[...].append(ship.id)` as `ignore_ships` to the recursive call (MyBot.py:139). `list.append` returns None, so the test `other_ship.id not in ignore_ships` (MyBot.py:136) raises TypeError inside that call whenever another ship stands on the blocking ship's own destination, the first ship included. The model passes `ignore + [ship.id]`, the list the comment at MyBot.py:131-138 describes, and has no TypeError path.
- MyBot.Turn.MoveShip: with shared cells, a ship's fallback `stay_still` is queued without marking it moved, so `one_game_step` can queue a second command for it. The model allows this; it proves one command per ship only when no two ships share a cell.
- `command_queue` is appended to as a global in `move_ship_recursive` (MyBot.py:150) but created locally in `one_game_step` (MyBot.py:171). The model keeps one queue in `MyBot.Turn`.
- MyBot.OneGameStep: requires distinct ship ids, which the engine guarantees. With duplicate ids, `moved_ships` would skip a ship. The commands are not in fleet order, because a blocking ship's command comes before the command of the ship it blocks.
- PGaussian.PredictionEngine.Append: `np.append` raises ValueError when a point's width differs from the data's (p_gaussian.py:25). The model refuses the point, returns false and changes nothing.
- PGaussian.PredictionEngine.DetermineMax: with no data, `self.x_known` is None, so `self.x_known[0]` raises TypeError (p_gaussian.py:33). The model returns None instead.
- PGaussian.PredictionEngine.DetermineMax: as called in the source, the correlation matrix broadcasts the noise (see Findings). The model's engine uses the corrected matrix.

## Findings

| source | as written | input that shows it | evidently intended | confidence | as-written member | corrected member |
|---|---|---|---|---|---|---|
| p_gaussian.py:43-44 with p_gaussian.py:77-80 | `calc_big_r` receives the noise as an (N,1) column; `np.diag` of a 2-D array extracts its diagonal, a single element, and that one-element array is added to every entry of the N×N kernel matrix | two data points [0] and [1] with noise 1e-9: the off-diagonal entry is kernel + 1e-9 instead of kernel | noise added on the diagonal only, entry i being noise[i] | not executed | PGaussian.BigRAsCalledDiffers | PGaussian.BigRProperties |
