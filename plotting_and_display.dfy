/**
 * The two display helpers with logic of their own: the ASCII rendering of a
 * character bitmap and the rasterisation of a classifier's decision regions.
 * Drawing, file output and console messages are not part of the model.
 */
module PlottingAndDisplay {
  import opened Basics

  // ---------------------------------------------------------------------------
  // ShowMNISTCharacter
  // ---------------------------------------------------------------------------

  /** The glyph of one pixel: dark above 0.66, light above 0.33, blank otherwise. */
  function Glyph(v: real): (g: char)
    ensures g == '#' <==> v > 0.66
    ensures g == 'x' <==> 0.33 < v <= 0.66
    ensures g == '.' <==> v <= 0.33
  {
    if v > 0.66 then '#' else if v > 0.33 then 'x' else '.'
  }

  /** How much ink a glyph shows: '.' < 'x' < '#'. */
  function Darkness(g: char): nat
  {
    if g == '#' then 2 else if g == 'x' then 1 else 0
  }

  /** A larger intensity never renders lighter. */
  lemma GlyphMonotone(v: real, w: real)
    requires v <= w
    ensures Darkness(Glyph(v)) <= Darkness(Glyph(w))
  {
  }

  /**
   * The lines `ShowMNISTCharacter` prints, one per row of the image: a glyph per
   * pixel, then the newline of the closing `print()`.
   */
  method ShowMNISTCharacter(image: array2<real>) returns (lines: seq<string>)
    ensures |lines| == image.Length0
    ensures forall r :: 0 <= r < |lines| ==> |lines[r]| == image.Length1 + 1 && lines[r][image.Length1] == '\n'
    ensures forall r, c :: 0 <= r < image.Length0 && 0 <= c < image.Length1 ==> lines[r][c] == Glyph(image[r, c])
  {
    var nRows, nCols := image.Length0, image.Length1;
    lines := [];
    for idx := 0 to nRows
      invariant |lines| == idx
      invariant forall r :: 0 <= r < idx ==> |lines[r]| == nCols + 1 && lines[r][nCols] == '\n'
      invariant forall r, c :: 0 <= r < idx && 0 <= c < nCols ==> lines[r][c] == Glyph(image[r, c])
    {
      var line := "";
      for jdx := 0 to nCols
        invariant |line| == jdx
        invariant forall c :: 0 <= c < jdx ==> line[c] == Glyph(image[idx, c])
      {
        if image[idx, jdx] > 0.66 {
          line := line + "#";
        } else if image[idx, jdx] > 0.33 {
          line := line + "x";
        } else {
          line := line + ".";
        }
      }
      lines := lines + [line + "\n"];
    }
  }

  /** The text that reaches standard output: the lines one after another. */
  function Printed(lines: seq<string>): string
  {
    if lines == [] then "" else lines[0] + Printed(lines[1..])
  }

  lemma PeelRow(r: nat, w: nat)
    requires r > 0
    ensures r * w == w + (r - 1) * w
  {
  }

  lemma {:induction false} PrintedLength(lines: seq<string>, w: nat)
    requires forall r :: 0 <= r < |lines| ==> |lines[r]| == w
    ensures |Printed(lines)| == |lines| * w
  {
    if lines != [] {
      PrintedLength(lines[1..], w);
      PeelRow(|lines|, w);
    }
  }

  /** With every line `w` characters long, character `c` of line `r` is printed at position `r*w + c`. */
  lemma {:induction false} PrintedAt(lines: seq<string>, w: nat, r: nat, c: nat)
    requires forall i :: 0 <= i < |lines| ==> |lines[i]| == w
    requires r < |lines| && c < w
    ensures r * w + c < |Printed(lines)| && Printed(lines)[r * w + c] == lines[r][c]
  {
    PrintedLength(lines, w);
    if r > 0 {
      PrintedAt(lines[1..], w, r - 1, c);
      PeelRow(r, w);
    }
  }

  // ---------------------------------------------------------------------------
  // Plot2DConceptMap: classifying one grid point
  // ---------------------------------------------------------------------------

  /** The shape of what the predictor returns: a 0-d, 1-d or 2-d NumPy array. */
  datatype Output = Scalar(v: real) | Vector(vs: seq<real>) | Matrix(rows: seq<seq<real>>)

  function Concat(rows: seq<seq<real>>): seq<real>
  {
    if rows == [] then [] else rows[0] + Concat(rows[1..])
  }

  /** The rows joined end to end hold every entry of every row, and nothing else. */
  lemma {:induction false} ConcatMembers(rows: seq<seq<real>>)
    ensures forall i, j :: 0 <= i < |rows| && 0 <= j < |rows[i]| ==> rows[i][j] in Concat(rows)
    ensures forall e :: e in Concat(rows) ==>
      exists i, j :: 0 <= i < |rows| && 0 <= j < |rows[i]| && rows[i][j] == e
  {
    if rows != [] {
      ConcatMembers(rows[1..]);
      assert forall i, j :: 1 <= i < |rows| && 0 <= j < |rows[i]| ==> rows[i][j] == rows[1..][i - 1][j];
      forall e | e in Concat(rows)
        ensures exists i, j :: 0 <= i < |rows| && 0 <= j < |rows[i]| && rows[i][j] == e
      {
        if e !in rows[0] {
          var i, j :| 0 <= i < |rows[1..]| && 0 <= j < |rows[1..][i]| && rows[1..][i][j] == e;
          assert rows[i + 1][j] == e;
        }
      }
    }
  }

  /** The entries of an output in row-major order, what `np.max` ranges over. */
  function Entries(y: Output): seq<real>
  {
    match y
    case Scalar(v) => [v]
    case Vector(vs) => vs
    case Matrix(rows) => Concat(rows)
  }

  /** What `np.max` ranges over: the scalar itself, the vector, or every entry of every row. */
  lemma EntriesMembers(y: Output)
    ensures y.Scalar? ==> Entries(y) == [y.v]
    ensures y.Vector? ==> Entries(y) == y.vs
    ensures y.Matrix? ==>
      (forall i, j :: 0 <= i < |y.rows| && 0 <= j < |y.rows[i]| ==> y.rows[i][j] in Entries(y)) &&
      (forall e :: e in Entries(y) ==> exists i, j :: 0 <= i < |y.rows| && 0 <= j < |y.rows[i]| && y.rows[i][j] == e)
  {
    if y.Matrix? {
      ConcatMembers(y.rows);
    }
  }

  /** `y[0][1]`, or None when the access raises (0-d and 1-d outputs, too few rows or columns). */
  function Index01(y: Output): (r: Option<real>)
    ensures r.Some? <==> y.Matrix? && |y.rows| > 0 && |y.rows[0]| > 1
    ensures r.Some? ==> r.value == y.rows[0][1] && r.value in Entries(y)
  {
    match y
    case Matrix(rows) => if |rows| > 0 && |rows[0]| > 1 then Some(rows[0][1]) else None
    case _ => None
  }

  /** `np.round` of one value: to the nearest integer, ties to the even one. */
  function RoundHalfEven(v: real): (r: int)
    ensures -0.5 <= r as real - v <= 0.5
    ensures (r as real - v == 0.5 || v - r as real == 0.5) ==> r % 2 == 0
  {
    var f := v.Floor;
    var frac := v - f as real;
    if frac < 0.5 then f
    else if frac > 0.5 then f + 1
    else if f % 2 == 0 then f
    else f + 1
  }

  /** After rounding, a value exceeds one half exactly when it did before. */
  lemma RoundedAboveHalf(v: real)
    ensures RoundHalfEven(v) as real > 0.5 <==> v > 0.5
  {
  }

  function RoundAll(s: seq<real>): (t: seq<real>)
    ensures |t| == |s|
    ensures forall i :: 0 <= i < |s| ==> t[i] == RoundHalfEven(s[i]) as real
  {
    seq(|s|, i requires 0 <= i < |s| => RoundHalfEven(s[i]) as real)
  }

  function RoundRows(rows: seq<seq<real>>): (t: seq<seq<real>>)
    ensures |t| == |rows|
    ensures forall i :: 0 <= i < |rows| ==> t[i] == RoundAll(rows[i])
  {
    seq(|rows|, i requires 0 <= i < |rows| => RoundAll(rows[i]))
  }

  /** `np.round` applied to a whole output, keeping its shape (see `RoundOutputEntries`). */
  function RoundOutput(y: Output): (r: Output)
    ensures r.Scalar? == y.Scalar? && r.Vector? == y.Vector? && r.Matrix? == y.Matrix?
    ensures r.Matrix? ==> |r.rows| == |y.rows| && forall i :: 0 <= i < |y.rows| ==> |r.rows[i]| == |y.rows[i]|
  {
    match y
    case Scalar(v) => Scalar(RoundHalfEven(v) as real)
    case Vector(vs) => Vector(RoundAll(vs))
    case Matrix(rows) => Matrix(RoundRows(rows))
  }

  lemma {:induction false} RoundRowsConcat(rows: seq<seq<real>>)
    ensures Concat(RoundRows(rows)) == RoundAll(Concat(rows))
  {
    if rows != [] {
      RoundRowsConcat(rows[1..]);
      assert RoundRows(rows)[1..] == RoundRows(rows[1..]);
      assert RoundAll(rows[0] + Concat(rows[1..])) == RoundAll(rows[0]) + RoundAll(Concat(rows[1..]));
    }
  }

  /** Rounding an output rounds each of its entries, and keeps `y[0][1]` where it is. */
  lemma RoundOutputEntries(y: Output)
    ensures Entries(RoundOutput(y)) == RoundAll(Entries(y))
    ensures Index01(y).Some? <==> Index01(RoundOutput(y)).Some?
    ensures Index01(y).Some? ==> Index01(RoundOutput(y)).value == RoundHalfEven(Index01(y).value) as real
  {
    if y.Matrix? {
      RoundRowsConcat(y.rows);
    }
  }

  /**
   * The class of one grid cell from the (already rounded) predictor output `y`:
   * `np.max(y) > 0.5`, overridden by `y[0][1] > 0.5` whenever that access succeeds.
   * `np.max` of an empty output raises `ValueError`, which the `try` does not cover.
   */
  function CellClass(y: Output): (r: Result<int>)
    ensures r.Raised? <==> |Entries(y)| == 0
    ensures r.Raised? ==> r.error == ValueError
    ensures r.Ok? ==> r.value == 0 || r.value == 1
    ensures r.Ok? && Index01(y).Some? ==> (r.value == 1 <==> Index01(y).value > 0.5)
    ensures r.Ok? && Index01(y).None? ==>
      (r.value == 1 <==> exists k :: 0 <= k < |Entries(y)| && Entries(y)[k] > 0.5)
  {
    if |Entries(y)| == 0 then Raised(ValueError)
    else
      var byMax := MaxOf(Entries(y)) > 0.5;
      var yClass := match Index01(y) case Some(v) => v > 0.5 case None => byMax;
      Ok(if yClass then 1 else 0)
  }

  /** Rounding the predictor output first never changes the class of a cell. */
  lemma ClassIgnoresRounding(y: Output)
    ensures CellClass(RoundOutput(y)) == CellClass(y)
  {
    RoundOutputEntries(y);
    var e, re := Entries(y), Entries(RoundOutput(y));
    forall k | 0 <= k < |e|
      ensures re[k] > 0.5 <==> e[k] > 0.5
    {
      RoundedAboveHalf(e[k]);
    }
    if Index01(y).Some? {
      RoundedAboveHalf(Index01(y).value);
    }
    if CellClass(y).Ok? && Index01(y).None? {
      if CellClass(y).value == 1 {
        var k :| 0 <= k < |e| && e[k] > 0.5;
        assert re[k] > 0.5;
      }
    }
  }

  /** A two-column output decides by its second column, whatever its maximum says. */
  lemma SecondColumnOverridesMax()
    ensures MaxOf(Entries(RoundOutput(Matrix([[0.9, 0.2]])))) > 0.5
    ensures CellClass(RoundOutput(Matrix([[0.9, 0.2]]))) == Ok(0)
    ensures CellClass(RoundOutput(Matrix([[0.2, 0.9]]))) == Ok(1)
  {
    var low := RoundOutput(Matrix([[0.9, 0.2]]));
    assert RoundHalfEven(0.9) == 1 && RoundHalfEven(0.2) == 0;
    assert RoundAll([0.9, 0.2]) == [1.0, 0.0];
    assert RoundAll([0.2, 0.9]) == [0.0, 1.0];
    assert RoundRows([[0.9, 0.2]]) == [[1.0, 0.0]];
    assert RoundRows([[0.2, 0.9]]) == [[0.0, 1.0]];
    assert low == Matrix([[1.0, 0.0]]);
    assert Entries(low) == [1.0, 0.0];
    var high := RoundOutput(Matrix([[0.2, 0.9]]));
    assert high == Matrix([[0.0, 1.0]]);
  }

  /** A scalar or 1-d output decides by its maximum, and 0.4 rounds to 0. */
  lemma ScalarOutputsDecideByMax()
    ensures CellClass(RoundOutput(Scalar(0.4))) == Ok(0)
    ensures CellClass(RoundOutput(Scalar(0.7))) == Ok(1)
    ensures CellClass(RoundOutput(Vector([0.1, 0.8]))) == Ok(1)
    ensures CellClass(RoundOutput(Vector([]))) == Raised(ValueError)
  {
    assert RoundHalfEven(0.4) == 0 && RoundHalfEven(0.7) == 1;
    assert RoundHalfEven(0.1) == 0 && RoundHalfEven(0.8) == 1;
    assert RoundOutput(Vector([0.1, 0.8])) == Vector([0.0, 1.0]);
    assert Entries(RoundOutput(Vector([0.1, 0.8])))[1] > 0.5;
  }

  // ---------------------------------------------------------------------------
  // Plot2DConceptMap: the grid
  // ---------------------------------------------------------------------------

  /** Tick `i` of `np.linspace(lo, hi, n)` on exact reals. */
  function Tick(lo: real, hi: real, n: nat, i: nat): (t: real)
    ensures i == 0 ==> t == lo
    ensures n >= 2 && i == n - 1 ==> t == hi
  {
    if n <= 1 then lo else lo + (i as real) * ((hi - lo) / ((n - 1) as real))
  }

  /** `np.linspace(lo, hi, n)` on exact reals. */
  function Linspace(lo: real, hi: real, n: nat): (t: seq<real>)
    ensures |t| == n
    ensures n >= 1 ==> t[0] == lo
  {
    seq(n, i requires 0 <= i < n => Tick(lo, hi, n, i))
  }

  lemma ScaleMonotone(a: real, b: real, step: real)
    requires a <= b && step >= 0.0
    ensures a * step <= b * step
  {
    assert b * step - a * step == (b - a) * step;
  }

  lemma StepSpansRange(lo: real, hi: real, d: real)
    requires lo <= hi && d > 0.0
    ensures (hi - lo) / d >= 0.0
    ensures d * ((hi - lo) / d) == hi - lo
  {
  }

  lemma TickMonotone(lo: real, hi: real, n: nat, i: nat, j: nat)
    requires lo <= hi && i <= j
    ensures Tick(lo, hi, n, i) <= Tick(lo, hi, n, j)
  {
    if n > 1 {
      var d := (n - 1) as real;
      StepSpansRange(lo, hi, d);
      ScaleMonotone(i as real, j as real, (hi - lo) / d);
    }
  }

  lemma TickWithin(lo: real, hi: real, n: nat, i: nat)
    requires lo <= hi && i < n
    ensures lo <= Tick(lo, hi, n, i) <= hi
    ensures i == n - 1 >= 1 ==> Tick(lo, hi, n, i) == hi
  {
    if n > 1 {
      var d := (n - 1) as real;
      var step := (hi - lo) / d;
      StepSpansRange(lo, hi, d);
      ScaleMonotone(0.0, i as real, step);
      ScaleMonotone(i as real, d, step);
    }
  }

  /** The ticks run from `lo` to `hi` inclusive, in non-decreasing order. */
  lemma LinspaceSpansRange(lo: real, hi: real, n: nat)
    requires lo <= hi
    ensures n >= 2 ==> Linspace(lo, hi, n)[n - 1] == hi
    ensures forall i :: 0 <= i < n ==> lo <= Linspace(lo, hi, n)[i] <= hi
    ensures forall i, j :: 0 <= i <= j < n ==> Linspace(lo, hi, n)[i] <= Linspace(lo, hi, n)[j]
  {
    var t := Linspace(lo, hi, n);
    forall i, j | 0 <= i <= j < n
      ensures t[i] <= t[j]
    {
      TickMonotone(lo, hi, n, i, j);
    }
    forall i | 0 <= i < n
      ensures lo <= t[i] <= hi
    {
      TickWithin(lo, hi, n, i);
    }
    if n >= 2 {
      TickWithin(lo, hi, n, n - 1);
    }
  }

  /** The ticks of both axes: `np.linspace(min(dataRange), max(dataRange), n)`. */
  function Ticks(dataRange: seq<real>, n: nat): (t: seq<real>)
    requires |dataRange| > 0
    ensures |t| == n
    ensures forall i :: 0 <= i < n ==> MinOf(dataRange) <= t[i] <= MaxOf(dataRange)
  {
    LinspaceSpansRange(MinOf(dataRange), MaxOf(dataRange), n);
    Linspace(MinOf(dataRange), MaxOf(dataRange), n)
  }

  /** A cell of the image: `row` indexes the second coordinate, `col` the first. */
  datatype Cell = Cell(row: nat, col: nat)

  predicate InGrid(c: Cell, n: nat)
  {
    c.row < n && c.col < n
  }

  /** The position of a cell in the order the nested loops visit it. */
  function WriteIndex(c: Cell, n: nat): nat
  {
    c.col * n + c.row
  }

  /** The class stored at `image[row, col]`: the predictor queried at (xticks[col], yticks[row]). */
  function CellAt(predictor: Point -> Output, xticks: seq<real>, yticks: seq<real>, row: nat, col: nat): Result<int>
    requires col < |xticks| && row < |yticks|
  {
    CellClass(RoundOutput(predictor(Point(xticks[col], yticks[row]))))
  }

  /** No query of the grid raises. */
  predicate AllCellsClassify(predictor: Point -> Output, ticks: seq<real>)
  {
    forall row, col :: 0 <= row < |ticks| && 0 <= col < |ticks| ==> CellAt(predictor, ticks, ticks, row, col).Ok?
  }

  /**
   * One step of the fill loops, for the grid point (xticks[col], yticks[row]):
   * round the prediction, take `np.max(y) > 0.5`, then replace it by
   * `y[0][1] > 0.5` when that access does not raise. The function `CellClass`
   * (through `CellAt`) is its specification; this method follows the loop
   * body's statements in order.
   */
  method ClassifyCell(predictor: Point -> Output, xticks: seq<real>, yticks: seq<real>, row: nat, col: nat)
    returns (r: Result<int>)
    requires col < |xticks| && row < |yticks|
    ensures r == CellAt(predictor, xticks, yticks, row, col)
  {
    var y := RoundOutput(predictor(Point(xticks[col], yticks[row])));
    if |Entries(y)| == 0 {
      return Raised(ValueError);
    }
    var yClass := MaxOf(Entries(y)) > 0.5;
    match Index01(y) {
      case Some(v) => yClass := v > 0.5;
      case None =>
    }
    r := Ok(if yClass then 1 else 0);
  }

  /**
   * The inner loop of the fill: column `x1dx` of the image, top to bottom. It
   * stops at the first query that raises; no other column changes.
   */
  method FillColumn(image: array2<int>, predictor: Point -> Output, xticks: seq<real>, yticks: seq<real>,
                    x1dx: nat, ghost writes: seq<Cell>)
    returns (ok: bool, ghost written: seq<Cell>)
    requires image.Length0 == |yticks| && image.Length1 == |xticks| && x1dx < |xticks|
    modifies image
    ensures forall row, col :: 0 <= row < image.Length0 && 0 <= col < image.Length1 && col != x1dx ==>
      image[row, col] == old(image[row, col])
    ensures ok ==> forall row :: 0 <= row < |yticks| ==>
      CellAt(predictor, xticks, yticks, row, x1dx).Ok? && image[row, x1dx] == CellAt(predictor, xticks, yticks, row, x1dx).value
    ensures !ok ==> exists row :: 0 <= row < |yticks| && !CellAt(predictor, xticks, yticks, row, x1dx).Ok?
    ensures ok ==> |written| == |writes| + |yticks| && written[..|writes|] == writes
    ensures ok ==> forall k :: |writes| <= k < |written| ==> written[k] == Cell(k - |writes|, x1dx)
  {
    written := writes;
    for x2dx := 0 to |yticks|
      invariant forall row, col :: 0 <= row < image.Length0 && 0 <= col < image.Length1 && col != x1dx ==>
        image[row, col] == old(image[row, col])
      invariant forall row :: 0 <= row < x2dx ==>
        CellAt(predictor, xticks, yticks, row, x1dx).Ok? && image[row, x1dx] == CellAt(predictor, xticks, yticks, row, x1dx).value
      invariant |written| == |writes| + x2dx && written[..|writes|] == writes
      invariant forall k :: |writes| <= k < |written| ==> written[k] == Cell(k - |writes|, x1dx)
    {
      var yClass := ClassifyCell(predictor, xticks, yticks, x2dx, x1dx);
      if yClass.Raised? {
        // np.max of an empty output raises outside the try
        return false, written;
      }
      image[x2dx, x1dx] := yClass.value;
      written := written + [Cell(x2dx, x1dx)];
    }
    ok := true;
  }

  /**
   * The grid-filling part of `Plot2DConceptMap`. On success the fresh
   * `mapResolution` by `mapResolution` image holds, at row `x2dx` and column
   * `x1dx`, the class of the predictor at (xticks[x1dx], yticks[x2dx]); `writes`
   * records the cells in the order they were written.
   */
  method Plot2DConceptMap(dataRange: seq<real>, mapResolution: nat, predictor: Point -> Output)
    returns (outcome: Result<array2<int>>, ghost writes: seq<Cell>)
    ensures |dataRange| == 0 ==> outcome == Raised(ValueError)
    ensures |dataRange| > 0 ==>
      (outcome.Ok? <==> AllCellsClassify(predictor, Ticks(dataRange, mapResolution)))
    ensures outcome.Raised? ==> outcome.error == ValueError
    ensures outcome.Ok? ==>
      var n, image, ticks := mapResolution, outcome.value, Ticks(dataRange, mapResolution);
      && fresh(image)
      && image.Length0 == n && image.Length1 == n
      && (forall row, col :: 0 <= row < n && 0 <= col < n ==>
            image[row, col] == CellAt(predictor, ticks, ticks, row, col).value)
      && |writes| == n * n
      && (forall k :: 0 <= k < |writes| ==> InGrid(writes[k], n) && WriteIndex(writes[k], n) == k)
  {
    writes := [];
    if |dataRange| == 0 {
      // min() of an empty sequence raises before anything is drawn
      return Raised(ValueError), writes;
    }
    var n := mapResolution;
    var image := new int[n, n]((_, _) => 0);
    var xticks := Linspace(MinOf(dataRange), MaxOf(dataRange), n);
    var yticks := Linspace(MinOf(dataRange), MaxOf(dataRange), n);
    ghost var ticks := Ticks(dataRange, n);
    assert xticks == ticks && yticks == ticks;

    for x1dx := 0 to n
      invariant |writes| == x1dx * n
      invariant forall k :: 0 <= k < |writes| ==> InGrid(writes[k], n) && WriteIndex(writes[k], n) == k
      invariant forall row, col :: 0 <= row < n && 0 <= col < x1dx ==>
        CellAt(predictor, ticks, ticks, row, col).Ok? && image[row, col] == CellAt(predictor, ticks, ticks, row, col).value
    {
      var ok;
      ok, writes := FillColumn(image, predictor, xticks, yticks, x1dx, writes);
      if !ok {
        return Raised(ValueError), writes;
      }
      assert x1dx * n + n == (x1dx + 1) * n;
    }
    outcome := Ok(image);
  }

  /** Rows of `n` cells: column `a` ends before column `b` starts. */
  lemma ColumnsDoNotOverlap(a: nat, b: nat, n: nat)
    requires a < b
    ensures a * n + n <= b * n
  {
    var d := b - a - 1;
    assert b * n == a * n + n + d * n;
  }

  lemma WriteIndexBelowArea(c: Cell, n: nat)
    requires InGrid(c, n)
    ensures WriteIndex(c, n) < n * n
  {
    ColumnsDoNotOverlap(c.col, n, n);
  }

  lemma WriteIndexInjective(c: Cell, d: Cell, n: nat)
    requires InGrid(c, n) && InGrid(d, n) && WriteIndex(c, n) == WriteIndex(d, n)
    ensures c == d
  {
    if c.col < d.col {
      ColumnsDoNotOverlap(c.col, d.col, n);
    } else if d.col < c.col {
      ColumnsDoNotOverlap(d.col, c.col, n);
    }
  }

  /** The write order of the fill loops visits every cell of the grid exactly once. */
  lemma GridWrittenOnce(writes: seq<Cell>, n: nat)
    requires |writes| == n * n
    requires forall k :: 0 <= k < |writes| ==> InGrid(writes[k], n) && WriteIndex(writes[k], n) == k
    ensures forall c :: InGrid(c, n) ==> WriteIndex(c, n) < |writes| && writes[WriteIndex(c, n)] == c
    ensures forall k, k' :: 0 <= k < k' < |writes| ==> writes[k] != writes[k']
  {
    forall c | InGrid(c, n)
      ensures WriteIndex(c, n) < |writes| && writes[WriteIndex(c, n)] == c
    {
      WriteIndexBelowArea(c, n);
      WriteIndexInjective(writes[WriteIndex(c, n)], c, n);
    }
  }

  /** A predictor that answers the scalar 0 everywhere. */
  function ZeroPredictor(p: Point): Output
  {
    Scalar(0.0)
  }

  /** A two-class softmax that gives the second class probability 0.9 everywhere. */
  function SoftmaxPredictor(p: Point): Output
  {
    Matrix([[0.0, 0.9]])
  }

  /** Every grid cell classifies: as 0 under `ZeroPredictor`, as 1 under `SoftmaxPredictor`. */
  lemma ConstantPredictorCells(ticks: seq<real>)
    ensures AllCellsClassify(ZeroPredictor, ticks) && AllCellsClassify(SoftmaxPredictor, ticks)
    ensures forall row, col :: 0 <= row < |ticks| && 0 <= col < |ticks| ==>
      CellAt(ZeroPredictor, ticks, ticks, row, col) == Ok(0) &&
      CellAt(SoftmaxPredictor, ticks, ticks, row, col) == Ok(1)
  {
    assert RoundHalfEven(0.0) == 0 && RoundHalfEven(0.9) == 1;
    assert RoundAll([0.0, 0.9]) == [0.0, 1.0];
    assert RoundRows([[0.0, 0.9]]) == [[0.0, 1.0]];
    assert RoundOutput(Scalar(0.0)) == Scalar(0.0);
    assert RoundOutput(Matrix([[0.0, 0.9]])) == Matrix([[0.0, 1.0]]);
  }

  /**
   * `Plot2DConceptMap` on the two constant predictors: `ZeroPredictor` gives an
   * all-zero map, `SoftmaxPredictor` an all-one map.
   */
  method ConstantPredictorMaps(dataRange: seq<real>, n: nat) returns (blank: array2<int>, full: array2<int>)
    requires |dataRange| > 0
    ensures blank.Length0 == blank.Length1 == full.Length0 == full.Length1 == n
    ensures forall row, col :: 0 <= row < n && 0 <= col < n ==> blank[row, col] == 0 && full[row, col] == 1
  {
    ConstantPredictorCells(Ticks(dataRange, n));
    var first, _ := Plot2DConceptMap(dataRange, n, ZeroPredictor);
    var second, _ := Plot2DConceptMap(dataRange, n, SoftmaxPredictor);
    blank, full := first.value, second.value;
  }
}
