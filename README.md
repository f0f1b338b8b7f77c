# CSCI 460 teaching utilities: the dataset generators and display helpers in Dafny

This project models the discrete logic of two utility files from an introductory
machine-learning course:

- `csci460/Utils/DataGenerators.py` builds small synthetic datasets:
  - two intertwined spirals;
  - points inside or outside the unit circle;
  - the XOR truth table, plus a sign-rule test set;
  - the one-bit full adder truth table;
  - two clusters on either side of the line y = x;
  - a four-column frame that has only two latent dimensions.
- `csci460/Utils/PlottingAndDisplay.py` contains:
  - an ASCII renderer for a character bitmap (`ShowMNISTCharacter`);
  - a concept-map rasteriser (`Plot2DConceptMap`). It queries a classifier over an
    R×R grid and writes each cell's class into an image.

The model has three modules:

- `Basics` (`basics.dfy`): 2D points, the Python exceptions that can escape a call
  (`Result`), and Python's `min`/`max`.
- `DataGenerators` (`data_generators.dfy`): the generators are pure functions over
  exact reals. The random draws are passed in as sequences, and `cos` and `sin` as
  functions from reals to reals.
  - Each split-based generator returns its pre-split labelled set (`Labelled`).
  - The XOR and adder generators return their four arrays in the source's return order.
- `PlottingAndDisplay` (`plotting_and_display.dfy`): written in imperative form.
  - `ShowMNISTCharacter` reads an `array2<real>` in nested loops and returns the
    lines it prints.
  - `Plot2DConceptMap` allocates the R×R image and fills it in place, one column per
    call of `FillColumn`.
  - The per-pixel glyph rule (`Glyph`) and the per-cell class rule (`CellClass`) are
    functions.
  - The fill methods are proved against those functions. Lemmas state what the
    functions promise.

Modelling choices:

- `np.round` is defined exactly on reals as round-half-to-even (`RoundHalfEven`).
- `np.linspace` is defined exactly on reals (`Linspace`).
- The predictor is a function from a point to a 0-d, 1-d or 2-d output (`Output`).
  The access `y[0][1]` succeeds only on a 2-d output with at least one row and at
  least two columns (`Index01`).
- On any other output the source's bare `except` swallows the `IndexError`, so the
  `np.max` rule stands.
- `np.max` of an output with no entries raises `ValueError` before the `try`. The
  model returns `Raised(ValueError)` for it, and for `min`/`max` of an empty
  `dataRange`.

Two facts came out of the proofs:

- Rounding before the 0.5 thresholds never changes a cell's class: a value rounds
  above one half exactly when it was above one half (`ClassIgnoresRounding`).
- The spiral's labels are consistent only while the arm has at most 104 points. At
  index 104 the radius `6.5*(104-idx)/104` reaches zero, so the origin is labelled
  both 1 and 0 (`SpiralOriginClash`). The default of 97 points stays below that.

## Model

| member | source | states |
|---|---|---|
| `Basics.MaxOf` | csci460/Utils/PlottingAndDisplay.py:48-49 | `max` of a non-empty sequence is one of its elements and no element exceeds it |
| `Basics.MinOf` | csci460/Utils/PlottingAndDisplay.py:48-49 | `min` of a non-empty sequence is one of its elements and no element is below it |
| `Basics.Abs` | csci460/Utils/DataGenerators.py:109-110 | `np.abs` is non-negative and equals the value or its negation |
| `DataGenerators.Fill` | csci460/Utils/DataGenerators.py:22 | `np.array([v]*n)` has length n and every entry is v |
| `DataGenerators.OnesThenZeros` | csci460/Utils/DataGenerators.py:22 | label vector of length 2k: entry i is 1 exactly when i < k, else 0 |
| `DataGenerators.OnesThenZerosCounts` | csci460/Utils/DataGenerators.py:112-118 | exactly k labels are 1 and exactly k are 0 |
| `DataGenerators.Reshape2` | csci460/Utils/DataGenerators.py:35 | row-major reshape into (n, 2): row i is (draws[2i], draws[2i+1]) and there are half as many rows as draws |
| `DataGenerators.ReshapeRoundTrip` | csci460/Utils/DataGenerators.py:35 | flattening the reshaped rows gives back the draws exactly |
| `DataGenerators.FlattenRoundTrip` | csci460/Utils/DataGenerators.py:63 | reshaping flattened rows gives back the rows: the reshape loses nothing either way |
| `DataGenerators.Phi` | csci460/Utils/DataGenerators.py:18 | the angle is zero at index 0 and positive after it |
| `DataGenerators.PhiTurns` | csci460/Utils/DataGenerators.py:18 | the angle strictly increases along the arm and completes a turn of 2 · 3.1415926 every 32 points |
| `DataGenerators.Radius` | csci460/Utils/DataGenerators.py:19 | the arm radius is positive for every index below 104 and zero at 104 |
| `DataGenerators.RadiusStrictlyDecreasing` | csci460/Utils/DataGenerators.py:19 | the radius strictly decreases along the arm |
| `DataGenerators.SpiralArm` | csci460/Utils/DataGenerators.py:17-20 | the arm has exactly numPoints points |
| `DataGenerators.GenerateSpiralData` | csci460/Utils/DataGenerators.py:17-22 | 2N points and labels; point i < N is (Radius(i)·cos Phi(i), Radius(i)·sin Phi(i)) and point N + i is its reflection; the first N labels are 1, the rest 0 |
| `DataGenerators.SpiralLayout` | csci460/Utils/DataGenerators.py:21-22 | Xpts has 2N rows: the arm, then row N+i is the negation of row i; Ypts is 1 for the first N rows and 0 after |
| `DataGenerators.SpiralClassCounts` | csci460/Utils/DataGenerators.py:17-22 | the spiral has 2N samples, exactly N labelled 1 and N labelled 0 |
| `DataGenerators.SpiralClassesReflect` | csci460/Utils/DataGenerators.py:21-22 | every class-0 point is the point reflection of a class-1 point, and every class-1 point has its reflection in class 0 |
| `DataGenerators.ArmPointNorm` | csci460/Utils/DataGenerators.py:20 | with cos²+sin² = 1, the point (r·cos, r·sin) has squared norm r² |
| `DataGenerators.ArmPointsNotReflected` | csci460/Utils/DataGenerators.py:17-21 | with at most 104 points and an exact cos/sin, no arm point is the reflection of an arm point, itself included |
| `DataGenerators.SpiralClassesDisjoint` | csci460/Utils/DataGenerators.py:17-22 | with at most 104 points and an exact cos/sin, no point carries both labels |
| `DataGenerators.SpiralOriginClash` | csci460/Utils/DataGenerators.py:19-22 | with more than 104 points, sample 104 and sample N+104 are both the origin, labelled 1 and 0 |
| `DataGenerators.CircleLabel` | csci460/Utils/DataGenerators.py:36 | the label is 0 or 1, and it is 1 exactly when x²+y² > 1 |
| `DataGenerators.CircleData` | csci460/Utils/DataGenerators.py:35-36 | numPoints rows laid out from the draws in row-major order; each label is 0 or 1, and 1 exactly when that row lies outside the unit circle |
| `DataGenerators.GenerateCircleDataAsWritten` | csci460/Utils/DataGenerators.py:35-37 | as written, the function never returns a dataset: the name `sk` raises |
| `DataGenerators.XorTrainX` | csci460/Utils/DataGenerators.py:52 | four training rows of two entries, each +1 or -1 |
| `DataGenerators.XorTrainY` | csci460/Utils/DataGenerators.py:59 | four training labels, each +1 or -1 |
| `DataGenerators.XorTrainLabels` | csci460/Utils/DataGenerators.py:47-59 | each training label is -(x0·x1), and it is True (+1) exactly when its two inputs differ in truth: the XOR table |
| `DataGenerators.XorTrainCorners` | csci460/Utils/DataGenerators.py:47-52 | the four training rows are distinct, and every ±1 combination is among them |
| `DataGenerators.XorTestLabel` | csci460/Utils/DataGenerators.py:64 | a test label is +1 or -1, and +1 exactly when x0·x1 < 0 (a zero product gives -1) |
| `DataGenerators.XorTestQuadrants` | csci460/Utils/DataGenerators.py:41-45 | the positive test points are exactly those strictly in the top-left or bottom-right quadrant |
| `DataGenerators.XorTestRuleAgreesWithTable` | csci460/Utils/DataGenerators.py:52-64 | the test-set sign rule reproduces the training labels at the four corners |
| `DataGenerators.GenerateXOR` | csci460/Utils/DataGenerators.py:40-66 | returns the fixed table, and m = 20 test rows of two columns laid out from the 40 draws, each labelled ±1 by the sign rule |
| `DataGenerators.FullAdder` | csci460/Utils/DataGenerators.py:87-96 | the reference full adder gives two bits (sum, carry) with sum + 2·carry = x1 + x2 + cin |
| `DataGenerators.AdderInputs` | csci460/Utils/DataGenerators.py:78-85 | eight input rows of three bits |
| `DataGenerators.AdderOutputs` | csci460/Utils/DataGenerators.py:89-96 | eight output rows of two bits |
| `DataGenerators.AdderInputsCount` | csci460/Utils/DataGenerators.py:77-85 | input row i is i in binary (x1, x2, cin), so every 3-bit combination appears, exactly once, in counting order |
| `DataGenerators.AdderOutputsAreFullAdder` | csci460/Utils/DataGenerators.py:87-96 | every output row is the full-adder (sum, carry) of its input row |
| `DataGenerators.FullAdderParityMajority` | csci460/Utils/DataGenerators.py:87-96 | the sum bit is the parity of the three inputs and the carry is their majority |
| `DataGenerators.GenerateAdder` | csci460/Utils/DataGenerators.py:98-102 | returns the two tables as training set, and the identical tables as test set |
| `DataGenerators.Above` | csci460/Utils/DataGenerators.py:109 | point i has x1 = x1p[i] and lies exactly abs(noise[i]) above the line x2 = x1 + 0.1, so never below it |
| `DataGenerators.Below` | csci460/Utils/DataGenerators.py:110 | point i has x1 = x1n[i] and lies exactly abs(noise[i]) below the line x2 = x1 − 0.1, so never above it |
| `DataGenerators.HalfSize` | csci460/Utils/DataGenerators.py:106 | `int(m/2)` is the k with 2k ≤ m < 2k + 2 |
| `DataGenerators.GenerateLinearlySeparableData` | csci460/Utils/DataGenerators.py:105-118 | 2·int(m/2) samples; sample i < k = int(m/2) is labelled 1 and is (x1p[i], x1p[i] + 0.1 + abs(noiseP[i])); sample k + j is labelled 0 and is (x1n[j], x1n[j] − 0.1 − abs(noiseN[j])); so every 1 lies at least 0.1 above y = x and every 0 at least 0.1 below |
| `DataGenerators.LinearlySeparableSize` | csci460/Utils/DataGenerators.py:106-118 | there are m samples for even m and m − 1 for odd m, half labelled 1 and half 0 |
| `DataGenerators.LinearlySeparableByDiagonal` | csci460/Utils/DataGenerators.py:109-118 | the rule "x2 > x1" reproduces every label, and the classes are at least 0.2 apart in x2 − x1 |
| `DataGenerators.GenerateRedundantDF` | csci460/Utils/DataGenerators.py:123-139 | the four columns all have the length of the latent samples |
| `DataGenerators.ColumnA` | csci460/Utils/DataGenerators.py:130 | column A is 4 wherever x = 1 or y = −2 |
| `DataGenerators.ColumnB` | csci460/Utils/DataGenerators.py:131 | column B is −5 wherever x = 1 or y = 1/3 |
| `DataGenerators.ColumnC` | csci460/Utils/DataGenerators.py:132 | column C is −2 wherever x = 1 or y = −3/2 |
| `DataGenerators.ColumnD` | csci460/Utils/DataGenerators.py:133 | column D is −2 wherever x = −1/2 or y = 1 |
| `DataGenerators.ColumnsFactored` | csci460/Utils/DataGenerators.py:130-133 | A = (x − 1)(y + 2) + 4, B = (x − 1)(3y − 1) − 5, C = −(x − 1)(2y + 3) − 2, D = (2x + 1)(y − 1) − 2 |
| `DataGenerators.RedundantFrameIsTwoDimensional` | csci460/Utils/DataGenerators.py:124-133 | every row gives back its latent pair (x, y) from columns A, C, D, and 11·A + B + 7·C = 25 in every row |
| `PlottingAndDisplay.Glyph` | csci460/Utils/PlottingAndDisplay.py:15-20 | a pixel renders '#' iff value > 0.66, 'x' iff 0.33 < value ≤ 0.66, '.' iff value ≤ 0.33 |
| `PlottingAndDisplay.GlyphMonotone` | csci460/Utils/PlottingAndDisplay.py:15-20 | a larger intensity never yields a lighter glyph in the order '.' < 'x' < '#' |
| `PlottingAndDisplay.ShowMNISTCharacter` | csci460/Utils/PlottingAndDisplay.py:7-21 | exactly nRows lines; line r holds the glyph of each of the nCols pixels of row r, then a newline |
| `PlottingAndDisplay.PrintedLength` | csci460/Utils/PlottingAndDisplay.py:13-21 | the printed text of lines that are all w long has length (number of lines)·w |
| `PlottingAndDisplay.PrintedAt` | csci460/Utils/PlottingAndDisplay.py:13-21 | character c of line r appears at position r·w + c of the printed text |
| `PlottingAndDisplay.RoundHalfEven` | csci460/Utils/PlottingAndDisplay.py:55 | `np.round` gives an integer within 1/2 of the value, and an even one on a tie |
| `PlottingAndDisplay.RoundedAboveHalf` | csci460/Utils/PlottingAndDisplay.py:55-64 | a rounded value exceeds 0.5 exactly when the raw value does, so a tie at 0.5 rounds down to 0 and stays below |
| `PlottingAndDisplay.RoundAll` | csci460/Utils/PlottingAndDisplay.py:55 | rounding a vector rounds each entry and keeps its length |
| `PlottingAndDisplay.RoundRows` | csci460/Utils/PlottingAndDisplay.py:55 | rounding a 2-d output rounds each row and keeps the number of rows |
| `PlottingAndDisplay.RoundRowsConcat` | csci460/Utils/PlottingAndDisplay.py:55 | rounding row by row and then flattening equals flattening and then rounding |
| `PlottingAndDisplay.ConcatMembers` | csci460/Utils/PlottingAndDisplay.py:59 | the flattened rows contain every entry of every row, and nothing else |
| `PlottingAndDisplay.EntriesMembers` | csci460/Utils/PlottingAndDisplay.py:59 | `np.max` ranges over the scalar itself, the whole vector, or every entry of every row of a 2-d output and nothing else |
| `PlottingAndDisplay.Index01` | csci460/Utils/PlottingAndDisplay.py:64 | `y[0][1]` exists exactly for a 2-d output with a first row of at least two entries; it is then that entry, one of the entries `np.max` ranges over |
| `PlottingAndDisplay.RoundOutput` | csci460/Utils/PlottingAndDisplay.py:55 | `np.round` keeps the output's shape: the same kind of array, the same number of rows and the same row lengths |
| `PlottingAndDisplay.RoundOutputEntries` | csci460/Utils/PlottingAndDisplay.py:55-64 | the entries after rounding are the rounded entries; `y[0][1]` exists before rounding exactly when it exists after, and is then rounded |
| `PlottingAndDisplay.CellClass` | csci460/Utils/PlottingAndDisplay.py:57-66 | raises ValueError exactly when the output has no entries; otherwise 0 or 1; when `y[0][1]` exists it alone decides (> 0.5); otherwise the class is 1 exactly when some entry exceeds 0.5 (`max > 0.5`) |
| `PlottingAndDisplay.ClassIgnoresRounding` | csci460/Utils/PlottingAndDisplay.py:55-66 | the class of the rounded output equals the class of the raw output |
| `PlottingAndDisplay.SecondColumnOverridesMax` | csci460/Utils/PlottingAndDisplay.py:59-66 | for the output [[0.9, 0.2]] the max says positive, but `y[0][1]` makes the class 0; for [[0.2, 0.9]] the class is 1 |
| `PlottingAndDisplay.ScalarOutputsDecideByMax` | csci460/Utils/PlottingAndDisplay.py:55-66 | scalar 0.4 gives class 0, scalar 0.7 gives 1, the vector [0.1, 0.8] gives 1 by its max, and an empty vector raises ValueError |
| `PlottingAndDisplay.Tick` | csci460/Utils/PlottingAndDisplay.py:48-49 | the first tick is the lower end, and the last of at least two ticks is the upper end |
| `PlottingAndDisplay.Linspace` | csci460/Utils/PlottingAndDisplay.py:48-49 | n ticks, the first being the lower end |
| `PlottingAndDisplay.TickMonotone` | csci460/Utils/PlottingAndDisplay.py:48-49 | a later tick is never smaller than an earlier one |
| `PlottingAndDisplay.TickWithin` | csci460/Utils/PlottingAndDisplay.py:48-49 | every tick lies within [lo, hi], and the last of at least two ticks is hi |
| `PlottingAndDisplay.LinspaceSpansRange` | csci460/Utils/PlottingAndDisplay.py:48-49 | the ticks are non-decreasing, all within [min, max], and the last equals max when there are at least two |
| `PlottingAndDisplay.Ticks` | csci460/Utils/PlottingAndDisplay.py:48-49 | both axes get the same R ticks, each between min(dataRange) and max(dataRange) |
| `PlottingAndDisplay.ClassifyCell` | csci460/Utils/PlottingAndDisplay.py:53-66 | the loop body's class for grid point (xticks[col], yticks[row]) equals the specified cell class, and raises when it does |
| `PlottingAndDisplay.FillColumn` | csci460/Utils/PlottingAndDisplay.py:52-69 | on success every cell of column x1dx holds its class and the cells are written top to bottom; otherwise some cell of the column raises; other columns are unchanged |
| `PlottingAndDisplay.Plot2DConceptMap` | csci460/Utils/PlottingAndDisplay.py:45-69 | empty range raises ValueError; otherwise succeeds exactly when no grid query raises, and then the fresh R×R image holds at [row, col] the class at (xticks[col], yticks[row]) with each write logged in loop order |
| `PlottingAndDisplay.ColumnsDoNotOverlap` | csci460/Utils/PlottingAndDisplay.py:51-52 | the writes of column a all come before those of a later column b |
| `PlottingAndDisplay.WriteIndexBelowArea` | csci460/Utils/PlottingAndDisplay.py:51-52 | every cell of the grid is visited at a loop position below R² |
| `PlottingAndDisplay.WriteIndexInjective` | csci460/Utils/PlottingAndDisplay.py:51-52 | two cells with the same loop position are the same cell |
| `PlottingAndDisplay.GridWrittenOnce` | csci460/Utils/PlottingAndDisplay.py:51-69 | the R² logged writes cover every cell of the image, and no cell is written twice |
| `PlottingAndDisplay.ConstantPredictorCells` | csci460/Utils/PlottingAndDisplay.py:55-66 | on any ticks every cell classifies: as 0 under a predictor that answers the scalar 0, as 1 under one that answers [[0.0, 0.9]] |
| `PlottingAndDisplay.ConstantPredictorMaps` | csci460/Utils/PlottingAndDisplay.py:45-69 | `Plot2DConceptMap` on those two predictors yields an all-zero and an all-one R×R image |

## Left out

- `train_test_split` (sklearn): it is a foreign, randomised call. The spiral, circle and linearly-separable generators are modelled up to the arrays they pass to it.
- Random sampling (`np.random.uniform`, `np.random.normal`): the drawn values are parameters. So are `cos` and `sin` in the spiral. The range of the uniform draws is not assumed anywhere.
- Floating point: every quantity is an exact real. This covers the thresholds 0.66, 0.33 and 0.5, the constant 3.1415926, `np.linspace`, `np.round` and the arithmetic of the generators. Results that hinge on rounding error are not modelled.
- SpiralClassesDisjoint: assumes an exact cosine and sine (cos² + sin² = 1), which floating-point trigonometry only approximates.
- SpiralArm: its contract states only the number of points. The coordinates r·cos φ and r·sin φ of each point are stated by the contract of `GenerateSpiralData`, and the lemmas about them are `ArmPointNorm` and `SpiralClassesDisjoint`.
- `PlotTrainingPerformance` and `SaveImage`: matplotlib drawing and file output with no logic to check.
- In `Plot2DConceptMap`, everything after the fill loops is left out: `pcolor`, the optional scatter overlay of `data` with its colour map and `None` test, `savefig` and the closing `print`. The model returns the filled image instead.
- `ShowMNISTCharacter` prints to standard output. The model returns the printed lines, and `Printed` joins them into the text.
- Predictor outputs of three or more dimensions are not modelled, nor ragged rows. Exceptions raised by the predictor itself are not modelled either. The image stores the integers 0 and 1 where NumPy stores the floats 0.0 and 1.0.
- Negative sizes are not modelled: `numPoints`, `m` and `mapResolution` are natural numbers. In the source a negative size does not always fail where it is used:
  - in the spiral, `range(numPoints)` and `[1]*numPoints` are empty (DataGenerators.py:17, 22), so the arrays are empty and only the split is left to reject them;
  - `int(m/2)` is 0 for m = −1 (DataGenerators.py:106), with the same effect;
  - `np.random.uniform` and `np.random.normal` reject a negative size: in the circle, for m ≤ −2, and in `GenerateRedundantDF`;
  - `np.reshape` rejects a negative `mapResolution`.
- GenerateRedundantDF: returns a record of four equal-length columns in place of a pandas DataFrame. Its contract states only the shape; the meaning of the columns is stated by `RedundantFrameIsTwoDimensional`.

## Findings

| source | as written | input that shows it | evidently intended | confidence | as-written member | corrected member |
|---|---|---|---|---|---|---|
| csci460/Utils/DataGenerators.py:37 | `return sk.train_test_split(...)`, but the module imports `sklearn.model_selection` under the name `sklearnmodels`, so `sk` is unbound and every call raises `NameError` | any call, e.g. `GenerateCircleData()` with its defaults | `sklearnmodels.train_test_split(Xpts, Ypts, test_size=testSplit)`, as in the spiral and linearly-separable generators | high; not executed | `DataGenerators.GenerateCircleDataAsWritten` | `DataGenerators.CircleData` |
