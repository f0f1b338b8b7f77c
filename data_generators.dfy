/**
 * The synthetic datasets of the course utilities, before any train/test split.
 * The random draws of the original generators are parameters here, and so are
 * the trigonometric functions of the spiral.
 */
module DataGenerators {
  import opened Basics

  /** A point set with its index-aligned label vector. */
  datatype Labelled = Labelled(points: seq<Point>, labels: seq<int>)

  /** Number of occurrences of `v` in `s`. */
  function Count(s: seq<int>, v: int): nat
  {
    if s == [] then 0 else (if s[0] == v then 1 else 0) + Count(s[1..], v)
  }

  /** `np.array([v] * n)`. */
  function Fill(n: nat, v: int): (s: seq<int>)
    ensures |s| == n && forall i :: 0 <= i < n ==> s[i] == v
  {
    seq(n, _ => v)
  }

  lemma {:induction false} CountAppend(s: seq<int>, t: seq<int>, v: int)
    ensures Count(s + t, v) == Count(s, v) + Count(t, v)
  {
    if s == [] {
      assert s + t == t;
    } else {
      assert (s + t)[0] == s[0] && (s + t)[1..] == s[1..] + t;
      CountAppend(s[1..], t, v);
    }
  }

  lemma {:induction false} CountFill(n: nat, v: int, w: int)
    ensures Count(Fill(n, v), w) == if v == w then n else 0
  {
    if n > 0 {
      assert Fill(n, v)[1..] == Fill(n - 1, v);
      CountFill(n - 1, v, w);
    }
  }

  /** Labels `k` ones followed by `k` zeros, the layout of every two-class generator. */
  function OnesThenZeros(k: nat): (y: seq<int>)
    ensures |y| == 2 * k
    ensures forall i :: 0 <= i < 2 * k ==> y[i] == (if i < k then 1 else 0)
  {
    Fill(k, 1) + Fill(k, 0)
  }

  lemma OnesThenZerosCounts(k: nat)
    ensures Count(OnesThenZeros(k), 1) == k && Count(OnesThenZeros(k), 0) == k
  {
    CountAppend(Fill(k, 1), Fill(k, 0), 1);
    CountAppend(Fill(k, 1), Fill(k, 0), 0);
    CountFill(k, 1, 1);
    CountFill(k, 0, 1);
    CountFill(k, 1, 0);
    CountFill(k, 0, 0);
  }

  // ---------------------------------------------------------------------------
  // Reshaping a flat vector of draws into rows of two (`np.reshape(v, (n, 2))`)
  // ---------------------------------------------------------------------------

  /** Row-major reshape of a flat vector into rows of two coordinates. */
  function Reshape2(draws: seq<real>): (pts: seq<Point>)
    requires |draws| % 2 == 0
    ensures |pts| == |draws| / 2
    ensures forall i :: 0 <= i < |pts| ==> pts[i] == Point(draws[2 * i], draws[2 * i + 1])
  {
    if draws == [] then [] else [Point(draws[0], draws[1])] + Reshape2(draws[2..])
  }

  /** The inverse view: the rows laid out again in row-major order. */
  function Flatten2(pts: seq<Point>): (draws: seq<real>)
    ensures |draws| == 2 * |pts|
  {
    if pts == [] then [] else [pts[0].x1, pts[0].x2] + Flatten2(pts[1..])
  }

  lemma {:induction false} ReshapeRoundTrip(draws: seq<real>)
    requires |draws| % 2 == 0
    ensures Flatten2(Reshape2(draws)) == draws
  {
    if draws != [] {
      ReshapeRoundTrip(draws[2..]);
      assert Reshape2(draws)[1..] == Reshape2(draws[2..]);
    }
  }

  lemma {:induction false} FlattenRoundTrip(pts: seq<Point>)
    ensures Reshape2(Flatten2(pts)) == pts
  {
    if pts != [] {
      FlattenRoundTrip(pts[1..]);
      assert Flatten2(pts)[2..] == Flatten2(pts[1..]);
    }
  }

  // ---------------------------------------------------------------------------
  // GenerateSpiralData: two arms, the second the point reflection of the first
  // ---------------------------------------------------------------------------

  /**
   * The angle of the `i`-th arm point, `(idx/16) * 3.1415926`: it starts at zero,
   * grows with the index and completes a turn of 2 * 3.1415926 every 32 points.
   */
  function Phi(i: nat): (a: real)
    ensures i == 0 ==> a == 0.0
    ensures i > 0 ==> a > 0.0
  {
    (i as real / 16.0) * 3.1415926
  }

  lemma PhiTurns(i: nat, j: nat)
    ensures i < j ==> Phi(i) < Phi(j)
    ensures Phi(i + 32) == Phi(i) + 2.0 * 3.1415926
  {
  }

  /** The radius of the `i`-th arm point, `(6.5 * (104-idx)) / 104`. */
  function Radius(i: nat): (r: real)
    ensures i < 104 ==> r > 0.0
    ensures i == 104 ==> r == 0.0
  {
    (6.5 * (104 - i) as real) / 104.0
  }

  lemma RadiusStrictlyDecreasing(i: nat, j: nat)
    requires i < j
    ensures Radius(j) < Radius(i)
  {
  }

  /** The first arm, `points`, computed with the given cosine and sine. */
  function SpiralArm(numPoints: nat, cos: real -> real, sin: real -> real): (arm: seq<Point>)
    ensures |arm| == numPoints
  {
    seq(numPoints, i requires 0 <= i < numPoints =>
      Point(Radius(i) * cos(Phi(i)), Radius(i) * sin(Phi(i))))
  }

  /** `Xpts`/`Ypts` of the spiral: the arm, then its negation; N ones, then N zeros. */
  function SpiralLayout(arm: seq<Point>): (d: Labelled)
    ensures |d.points| == |d.labels| == 2 * |arm|
    ensures d.points[..|arm|] == arm
    ensures forall i :: 0 <= i < |arm| ==> d.points[|arm| + i] == Negate(d.points[i])
    ensures forall i :: 0 <= i < 2 * |arm| ==> d.labels[i] == (if i < |arm| then 1 else 0)
  {
    Labelled(arm + seq(|arm|, i requires 0 <= i < |arm| => Negate(arm[i])), OnesThenZeros(|arm|))
  }

  /**
   * `GenerateSpiralData` before `train_test_split`: point `i < N` is at angle
   * `Phi(i)` and radius `Radius(i)`, point `N + i` is its reflection; the first
   * `N` labels are 1, the last `N` are 0.
   */
  function GenerateSpiralData(numPoints: nat, cos: real -> real, sin: real -> real): (d: Labelled)
    ensures |d.points| == |d.labels| == 2 * numPoints
    ensures forall i :: 0 <= i < numPoints ==>
      d.points[i] == Point(Radius(i) * cos(Phi(i)), Radius(i) * sin(Phi(i))) &&
      d.points[numPoints + i] == Negate(d.points[i])
    ensures forall i :: 0 <= i < 2 * numPoints ==> d.labels[i] == (if i < numPoints then 1 else 0)
  {
    SpiralLayout(SpiralArm(numPoints, cos, sin))
  }

  lemma SpiralClassCounts(numPoints: nat, cos: real -> real, sin: real -> real)
    ensures var d := GenerateSpiralData(numPoints, cos, sin);
      |d.points| == 2 * numPoints && Count(d.labels, 1) == numPoints && Count(d.labels, 0) == numPoints
  {
    var d := GenerateSpiralData(numPoints, cos, sin);
    assert d.labels == OnesThenZeros(numPoints);
    OnesThenZerosCounts(numPoints);
  }

  /** Every class-0 point is the reflection of a class-1 point, and conversely. */
  lemma SpiralClassesReflect(arm: seq<Point>)
    ensures var d := SpiralLayout(arm);
      (forall j :: 0 <= j < |d.points| && d.labels[j] == 0 ==>
         exists i :: 0 <= i < |d.points| && d.labels[i] == 1 && d.points[j] == Negate(d.points[i])) &&
      (forall i :: 0 <= i < |d.points| && d.labels[i] == 1 ==>
         exists j :: 0 <= j < |d.points| && d.labels[j] == 0 && d.points[j] == Negate(d.points[i]))
  {
    var d := SpiralLayout(arm);
    var n := |arm|;
    forall j | 0 <= j < |d.points| && d.labels[j] == 0
      ensures exists i :: 0 <= i < |d.points| && d.labels[i] == 1 && d.points[j] == Negate(d.points[i])
    {
      assert d.labels[j - n] == 1 && d.points[j] == Negate(d.points[j - n]);
    }
    forall i | 0 <= i < |d.points| && d.labels[i] == 1
      ensures exists j :: 0 <= j < |d.points| && d.labels[j] == 0 && d.points[j] == Negate(d.points[i])
    {
      assert d.labels[n + i] == 0 && d.points[n + i] == Negate(d.points[i]);
    }
  }

  /** For equal positive reals, equal squares. */
  lemma PositiveSquaresInjective(a: real, b: real)
    requires a > 0.0 && b > 0.0 && a * a == b * b
    ensures a == b
  {
  }

  /** On the unit circle, the arm point at index `i` lies at distance `Radius(i)` from the origin. */
  lemma ArmPointNorm(r: real, c: real, s: real)
    requires c * c + s * s == 1.0
    ensures SqNorm(Point(r * c, r * s)) == r * r
  {
    calc {
      SqNorm(Point(r * c, r * s));
      (r * c) * (r * c) + (r * s) * (r * s);
      (r * r) * (c * c + s * s);
    }
  }

  /** Two points on circles of positive radii that reflect each other lie on the same circle. */
  lemma ReflectedPointsSameRadius(ri: real, ci: real, si: real, rk: real, ck: real, sk: real)
    requires ci * ci + si * si == 1.0 && ck * ck + sk * sk == 1.0
    requires ri > 0.0 && rk > 0.0
    requires Point(ri * ci, ri * si) == Negate(Point(rk * ck, rk * sk))
    ensures ri == rk
  {
    ArmPointNorm(ri, ci, si);
    ArmPointNorm(rk, ck, sk);
    var q := Point(rk * ck, rk * sk);
    assert SqNorm(Negate(q)) == SqNorm(q);
    PositiveSquaresInjective(ri, rk);
  }

  /** A point on a circle of positive radius is not the origin, so not its own reflection. */
  lemma PointNotSelfReflected(r: real, c: real, s: real)
    requires c * c + s * s == 1.0 && r > 0.0
    ensures Point(r * c, r * s) != Negate(Point(r * c, r * s))
  {
    ArmPointNorm(r, c, s);
    assert r * r > 0.0;
  }

  /** Two arm points at indices below 104 are never reflections of each other. */
  lemma ArmPointsNotReflected(numPoints: nat, cos: real -> real, sin: real -> real, i: nat, k: nat)
    requires i < numPoints <= 104 && k < numPoints
    requires forall t :: cos(t) * cos(t) + sin(t) * sin(t) == 1.0
    ensures SpiralArm(numPoints, cos, sin)[i] != Negate(SpiralArm(numPoints, cos, sin)[k])
  {
    var arm := SpiralArm(numPoints, cos, sin);
    var ri, ci, si := Radius(i), cos(Phi(i)), sin(Phi(i));
    var rk, ck, sk := Radius(k), cos(Phi(k)), sin(Phi(k));
    assert arm[i] == Point(ri * ci, ri * si);
    assert arm[k] == Point(rk * ck, rk * sk);
    assert ci * ci + si * si == 1.0;
    assert ck * ck + sk * sk == 1.0;
    if i == k {
      PointNotSelfReflected(ri, ci, si);
    } else if arm[i] == Negate(arm[k]) {
      ReflectedPointsSameRadius(ri, ci, si, rk, ck, sk);
      if i < k {
        RadiusStrictlyDecreasing(i, k);
      } else {
        RadiusStrictlyDecreasing(k, i);
      }
      assert false;
    }
  }

  /**
   * With an exact cosine and sine and at most 104 points per arm, no point of the
   * spiral carries both labels: the radii are positive and strictly decreasing.
   */
  lemma SpiralClassesDisjoint(numPoints: nat, cos: real -> real, sin: real -> real)
    requires numPoints <= 104
    requires forall t :: cos(t) * cos(t) + sin(t) * sin(t) == 1.0
    ensures var d := GenerateSpiralData(numPoints, cos, sin);
      forall i, j :: 0 <= i < |d.points| && 0 <= j < |d.points| && d.labels[i] == 1 && d.labels[j] == 0 ==>
        d.points[i] != d.points[j]
  {
    var arm := SpiralArm(numPoints, cos, sin);
    var d := SpiralLayout(arm);
    forall i, j | 0 <= i < |d.points| && 0 <= j < |d.points| && d.labels[i] == 1 && d.labels[j] == 0
      ensures d.points[i] != d.points[j]
    {
      var k := j - numPoints;
      assert d.points[i] == arm[i] && d.points[j] == Negate(arm[k]);
      ArmPointsNotReflected(numPoints, cos, sin, i, k);
    }
  }

  /** Past 104 points the radius reaches zero: the origin is labelled both 1 and 0. */
  lemma SpiralOriginClash(numPoints: nat, cos: real -> real, sin: real -> real)
    requires numPoints > 104
    ensures var d := GenerateSpiralData(numPoints, cos, sin);
      d.points[104] == d.points[numPoints + 104] == Point(0.0, 0.0) &&
      d.labels[104] == 1 && d.labels[numPoints + 104] == 0
  {
    var arm := SpiralArm(numPoints, cos, sin);
    var r, c, s := Radius(104), cos(Phi(104)), sin(Phi(104));
    assert arm[104] == Point(r * c, r * s);
    assert r == 0.0;
    assert r * c == 0.0 && r * s == 0.0;
    assert Negate(Point(0.0, 0.0)) == Point(0.0, 0.0);
  }

  // ---------------------------------------------------------------------------
  // GenerateCircleData: label 1 outside the unit circle
  // ---------------------------------------------------------------------------

  /** `((Xpts**2).sum(1) > 1) + 0` for one row. */
  function CircleLabel(p: Point): (y: int)
    ensures y == 0 || y == 1
    ensures y == 1 <==> SqNorm(p) > 1.0
  {
    if SqNorm(p) > 1.0 then 1 else 0
  }

  /** `Xpts`/`Ypts` of the circle dataset, from the `2*numPoints` uniform draws. */
  function CircleData(numPoints: nat, draws: seq<real>): (d: Labelled)
    requires |draws| == 2 * numPoints
    ensures |d.points| == |d.labels| == numPoints
    ensures Flatten2(d.points) == draws
    ensures forall i :: 0 <= i < numPoints ==>
      (d.labels[i] == 0 || d.labels[i] == 1) && (d.labels[i] == 1 <==> SqNorm(d.points[i]) > 1.0)
  {
    var pts := Reshape2(draws);
    ReshapeRoundTrip(draws);
    Labelled(pts, seq(numPoints, i requires 0 <= i < numPoints => CircleLabel(pts[i])))
  }

  /**
   * `GenerateCircleData` as written: its return statement names the module alias
   * `sk`, which is never bound, so every call raises `NameError` after the labels
   * have been computed.
   */
  function GenerateCircleDataAsWritten(numPoints: nat, draws: seq<real>): (r: Result<Labelled>)
    requires |draws| == 2 * numPoints
    ensures !r.Ok?
  {
    var _ := CircleData(numPoints, draws);
    Raised(NameError("sk"))
  }

  // ---------------------------------------------------------------------------
  // GenerateXOR: the +1/-1 truth table and a sign-rule test set
  // ---------------------------------------------------------------------------

  /** The result of `GenerateXOR`, in its return order. */
  datatype XorData = XorData(trainX: seq<seq<int>>, trainY: seq<int>, testX: seq<Point>, testY: seq<int>)

  /** +1 stands for True and -1 for False. */
  predicate SignTruth(v: int)
  {
    v == 1
  }

  /** The four corners (True,True), (False,True), (True,False), (False,False). */
  function XorTrainX(): (t: seq<seq<int>>)
    ensures |t| == 4
    ensures forall i :: 0 <= i < 4 ==> |t[i]| == 2 && (t[i][0] == 1 || t[i][0] == -1) && (t[i][1] == 1 || t[i][1] == -1)
  {
    [[1, 1], [-1, 1], [1, -1], [-1, -1]]
  }

  function XorTrainY(): (t: seq<int>)
    ensures |t| == 4
    ensures forall i :: 0 <= i < 4 ==> t[i] == 1 || t[i] == -1
  {
    [-1, 1, 1, -1]
  }

  /** Each training label is the XOR of its two inputs, i.e. minus their product. */
  lemma XorTrainLabels()
    ensures forall i :: 0 <= i < 4 ==>
      XorTrainY()[i] == -(XorTrainX()[i][0] * XorTrainX()[i][1]) &&
      (SignTruth(XorTrainY()[i]) <==> SignTruth(XorTrainX()[i][0]) != SignTruth(XorTrainX()[i][1]))
  {
    var x, y := XorTrainX(), XorTrainY();
    forall i | 0 <= i < 4
      ensures y[i] == -(x[i][0] * x[i][1]) && (SignTruth(y[i]) <==> SignTruth(x[i][0]) != SignTruth(x[i][1]))
    {
      if i == 0 {} else if i == 1 {} else if i == 2 {} else {}
    }
  }

  /** The training rows are the four sign combinations, each exactly once. */
  lemma XorTrainCorners()
    ensures forall i, j :: 0 <= i < j < 4 ==> XorTrainX()[i] != XorTrainX()[j]
    ensures forall a, b :: (a == 1 || a == -1) && (b == 1 || b == -1) ==>
      exists i :: 0 <= i < 4 && XorTrainX()[i] == [a, b]
  {
    var x := XorTrainX();
    forall a, b | (a == 1 || a == -1) && (b == 1 || b == -1)
      ensures exists i :: 0 <= i < 4 && x[i] == [a, b]
    {
      var i := (if a == 1 then 0 else 1) + (if b == 1 then 0 else 2);
      assert x[i] == [a, b];
    }
  }

  /** `2*((x0 * x1) < 0) - 1` for one test row. */
  function XorTestLabel(p: Point): (y: int)
    ensures y == 1 || y == -1
    ensures y == 1 <==> p.x1 * p.x2 < 0.0
  {
    2 * (if p.x1 * p.x2 < 0.0 then 1 else 0) - 1
  }

  /** The positive test points are exactly those in the top-left and bottom-right quadrants. */
  lemma XorTestQuadrants(p: Point)
    ensures XorTestLabel(p) == 1 <==> (p.x1 < 0.0 < p.x2) || (p.x2 < 0.0 < p.x1)
  {
    if p.x1 < 0.0 && p.x2 < 0.0 {
      assert p.x1 * p.x2 == (-p.x1) * (-p.x2);
    } else if p.x1 > 0.0 && p.x2 > 0.0 {
      assert p.x1 * p.x2 > 0.0;
    } else if p.x1 < 0.0 && p.x2 > 0.0 {
      assert (-p.x1) * p.x2 > 0.0;
    } else if p.x2 < 0.0 && p.x1 > 0.0 {
      assert p.x1 * (-p.x2) > 0.0;
    }
  }

  /** The continuous rule agrees with the truth table at its four corners. */
  lemma XorTestRuleAgreesWithTable()
    ensures forall i :: 0 <= i < 4 ==>
      XorTestLabel(Point(XorTrainX()[i][0] as real, XorTrainX()[i][1] as real)) == XorTrainY()[i]
  {
    var x, y := XorTrainX(), XorTrainY();
    forall i | 0 <= i < 4
      ensures XorTestLabel(Point(x[i][0] as real, x[i][1] as real)) == y[i]
    {
      if i == 0 {} else if i == 1 {} else if i == 2 {} else {}
    }
  }

  /** The number of synthetic test rows, `m`. */
  const XorTestRows: nat := 20

  /** `GenerateXOR`, given the `2*m` uniform draws of its test set. */
  function GenerateXOR(draws: seq<real>): (d: XorData)
    requires |draws| == 2 * XorTestRows
    ensures d.trainX == XorTrainX() && d.trainY == XorTrainY()
    ensures |d.testX| == |d.testY| == XorTestRows && Flatten2(d.testX) == draws
    ensures forall i :: 0 <= i < XorTestRows ==>
      (d.testY[i] == 1 || d.testY[i] == -1) && (d.testY[i] == 1 <==> d.testX[i].x1 * d.testX[i].x2 < 0.0)
  {
    var testX := Reshape2(draws);
    ReshapeRoundTrip(draws);
    XorData(XorTrainX(), XorTrainY(), testX, seq(XorTestRows, i requires 0 <= i < XorTestRows => XorTestLabel(testX[i])))
  }

  // ---------------------------------------------------------------------------
  // GenerateAdder: the one-bit full adder truth table
  // ---------------------------------------------------------------------------

  /** The result of `GenerateAdder`, in its return order. */
  datatype AdderData = AdderData(trainX: seq<seq<int>>, trainY: seq<seq<int>>, testX: seq<seq<int>>, testY: seq<seq<int>>)

  predicate IsBit(b: int)
  {
    b == 0 || b == 1
  }

  /** Row `i` in counting order: the bits (x1, x2, cin) of `i`, most significant first. */
  function BinaryRow(i: nat): seq<int>
  {
    [i / 4 % 2, i / 2 % 2, i % 2]
  }

  /** The number a row of three bits spells out. */
  function RowValue(row: seq<int>): int
    requires |row| == 3
  {
    4 * row[0] + 2 * row[1] + row[2]
  }

  /** The standard full adder: (sum, carry) with `sum + 2*carry == x1 + x2 + cin`. */
  function FullAdder(x1: int, x2: int, cin: int): (out: seq<int>)
    requires IsBit(x1) && IsBit(x2) && IsBit(cin)
    ensures |out| == 2 && IsBit(out[0]) && IsBit(out[1])
    ensures out[0] + 2 * out[1] == x1 + x2 + cin
  {
    [(x1 + x2 + cin) % 2, if x1 + x2 + cin >= 2 then 1 else 0]
  }

  function AdderInputs(): (t: seq<seq<int>>)
    ensures |t| == 8
    ensures forall i :: 0 <= i < 8 ==> |t[i]| == 3 && IsBit(t[i][0]) && IsBit(t[i][1]) && IsBit(t[i][2])
  {
    [ [0, 0, 0],
      [0, 0, 1],
      [0, 1, 0],
      [0, 1, 1],
      [1, 0, 0],
      [1, 0, 1],
      [1, 1, 0],
      [1, 1, 1] ]
  }

  function AdderOutputs(): (t: seq<seq<int>>)
    ensures |t| == 8
    ensures forall i :: 0 <= i < 8 ==> |t[i]| == 2 && IsBit(t[i][0]) && IsBit(t[i][1])
  {
    [ [0, 0],
      [1, 0],
      [1, 0],
      [0, 1],
      [1, 0],
      [0, 1],
      [0, 1],
      [1, 1] ]
  }

  /** Row `i` of the inputs is `i` in binary, so every combination appears once, in counting order. */
  lemma AdderInputsCount()
    ensures forall i :: 0 <= i < 8 ==> AdderInputs()[i] == BinaryRow(i) && RowValue(AdderInputs()[i]) == i
    ensures forall row :: |row| == 3 && IsBit(row[0]) && IsBit(row[1]) && IsBit(row[2]) ==>
      0 <= RowValue(row) < 8 && AdderInputs()[RowValue(row)] == row
  {
    var t := AdderInputs();
    forall i | 0 <= i < 8
      ensures t[i] == BinaryRow(i) && RowValue(t[i]) == i
    {
      if i == 0 {} else if i == 1 {} else if i == 2 {} else if i == 3 {}
      else if i == 4 {} else if i == 5 {} else if i == 6 {} else {}
    }
    forall row | |row| == 3 && IsBit(row[0]) && IsBit(row[1]) && IsBit(row[2])
      ensures 0 <= RowValue(row) < 8 && t[RowValue(row)] == row
    {
      var v := RowValue(row);
      assert t[v] == BinaryRow(v);
      assert BinaryRow(v) == row;
    }
  }

  /** Every output row is the full-adder (sum, carry) of its input row. */
  lemma AdderOutputsAreFullAdder()
    ensures forall i :: 0 <= i < 8 ==>
      var x := AdderInputs()[i];
      IsBit(x[0]) && IsBit(x[1]) && IsBit(x[2]) && AdderOutputs()[i] == FullAdder(x[0], x[1], x[2])
  {
    var x, y := AdderInputs(), AdderOutputs();
    forall i | 0 <= i < 8
      ensures IsBit(x[i][0]) && IsBit(x[i][1]) && IsBit(x[i][2]) && y[i] == FullAdder(x[i][0], x[i][1], x[i][2])
    {
      if i == 0 {} else if i == 1 {} else if i == 2 {} else if i == 3 {}
      else if i == 4 {} else if i == 5 {} else if i == 6 {} else {}
    }
  }

  /** The sum bit is the parity of the inputs and the carry their majority. */
  lemma FullAdderParityMajority(x1: int, x2: int, cin: int)
    requires IsBit(x1) && IsBit(x2) && IsBit(cin)
    ensures FullAdder(x1, x2, cin)[0] == 1 <==> (x1 == 1) != ((x2 == 1) != (cin == 1))
    ensures FullAdder(x1, x2, cin)[1] == 1 <==>
      (x1 == 1 && x2 == 1) || (x1 == 1 && cin == 1) || (x2 == 1 && cin == 1)
  {
  }

  /** `GenerateAdder`: the test set is the training set. */
  function GenerateAdder(): (d: AdderData)
    ensures d.trainX == AdderInputs() && d.trainY == AdderOutputs()
    ensures d.testX == d.trainX && d.testY == d.trainY
  {
    var trainX, trainY := AdderInputs(), AdderOutputs();
    AdderData(trainX, trainY, trainX, trainY)
  }

  // ---------------------------------------------------------------------------
  // GenerateLinearlySeparableData: two clusters either side of y = x
  // ---------------------------------------------------------------------------

  /** Points above the line: `+0.1 + x1p + np.abs(noise)`. */
  function Above(x1p: seq<real>, noise: seq<real>): (pts: seq<Point>)
    requires |x1p| == |noise|
    ensures |pts| == |x1p|
    ensures forall i :: 0 <= i < |pts| ==> pts[i].x1 == x1p[i] && pts[i].x2 >= pts[i].x1 + 0.1
    ensures forall i :: 0 <= i < |pts| ==> pts[i].x2 - (pts[i].x1 + 0.1) == Abs(noise[i])
  {
    seq(|x1p|, i requires 0 <= i < |x1p| => Point(x1p[i], 0.1 + x1p[i] + Abs(noise[i])))
  }

  /** Points below the line: `-0.1 + x1n - np.abs(noise)`. */
  function Below(x1n: seq<real>, noise: seq<real>): (pts: seq<Point>)
    requires |x1n| == |noise|
    ensures |pts| == |x1n|
    ensures forall i :: 0 <= i < |pts| ==> pts[i].x1 == x1n[i] && pts[i].x2 <= pts[i].x1 - 0.1
    ensures forall i :: 0 <= i < |pts| ==> (pts[i].x1 - 0.1) - pts[i].x2 == Abs(noise[i])
  {
    seq(|x1n|, i requires 0 <= i < |x1n| => Point(x1n[i], -0.1 + x1n[i] - Abs(noise[i])))
  }

  /** `int(m/2)`: Python truncation, which for a size `m >= 0` is floor division. */
  function HalfSize(m: nat): (k: nat)
    ensures 2 * k <= m < 2 * k + 2
  {
    m / 2
  }

  /** `Xpts`/`Ypts` of `GenerateLinearlySeparableData` from its four vectors of draws. */
  function GenerateLinearlySeparableData(m: nat, x1p: seq<real>, x1n: seq<real>, noiseP: seq<real>, noiseN: seq<real>): (d: Labelled)
    requires |x1p| == |x1n| == |noiseP| == |noiseN| == HalfSize(m)
    ensures |d.points| == |d.labels| == 2 * HalfSize(m)
    ensures forall i :: 0 <= i < |d.points| ==>
      (d.labels[i] == 1 && d.points[i].x2 >= d.points[i].x1 + 0.1) ||
      (d.labels[i] == 0 && d.points[i].x2 <= d.points[i].x1 - 0.1)
    ensures forall i :: 0 <= i < |d.points| ==> (d.labels[i] == 1 <==> i < HalfSize(m))
    ensures forall i :: 0 <= i < HalfSize(m) ==>
      d.points[i].x1 == x1p[i] && d.points[i].x2 - (d.points[i].x1 + 0.1) == Abs(noiseP[i])
    ensures forall j :: 0 <= j < HalfSize(m) ==>
      d.points[HalfSize(m) + j].x1 == x1n[j] &&
      (d.points[HalfSize(m) + j].x1 - 0.1) - d.points[HalfSize(m) + j].x2 == Abs(noiseN[j])
  {
    var k := HalfSize(m);
    var above, below := Above(x1p, noiseP), Below(x1n, noiseN);
    var pts := above + below;
    assert forall i :: 0 <= i < k ==> pts[i] == above[i];
    assert forall j :: 0 <= j < k ==> pts[k + j] == below[j];
    Labelled(pts, OnesThenZeros(k))
  }

  /** Odd sizes lose one sample to the truncation. */
  lemma LinearlySeparableSize(m: nat, x1p: seq<real>, x1n: seq<real>, noiseP: seq<real>, noiseN: seq<real>)
    requires |x1p| == |x1n| == |noiseP| == |noiseN| == HalfSize(m)
    ensures var d := GenerateLinearlySeparableData(m, x1p, x1n, noiseP, noiseN);
      |d.points| == (if m % 2 == 0 then m else m - 1) &&
      Count(d.labels, 1) == HalfSize(m) && Count(d.labels, 0) == HalfSize(m)
  {
    OnesThenZerosCounts(HalfSize(m));
  }

  /** The line y = x classifies every sample correctly, with a gap of 0.2 between the classes. */
  lemma LinearlySeparableByDiagonal(m: nat, x1p: seq<real>, x1n: seq<real>, noiseP: seq<real>, noiseN: seq<real>)
    requires |x1p| == |x1n| == |noiseP| == |noiseN| == HalfSize(m)
    ensures var d := GenerateLinearlySeparableData(m, x1p, x1n, noiseP, noiseN);
      (forall i :: 0 <= i < |d.points| ==> d.labels[i] == (if d.points[i].x2 > d.points[i].x1 then 1 else 0)) &&
      (forall i, j :: 0 <= i < |d.points| && 0 <= j < |d.points| && d.labels[i] == 1 && d.labels[j] == 0 ==>
         (d.points[i].x2 - d.points[i].x1) - (d.points[j].x2 - d.points[j].x1) >= 0.2)
  {
  }

  // ---------------------------------------------------------------------------
  // GenerateRedundantDF: four columns from two latent variables
  // ---------------------------------------------------------------------------

  /** The columns "A", "B", "C", "D" of the data frame. */
  datatype Frame = Frame(a: seq<real>, b: seq<real>, c: seq<real>, d: seq<real>)

  /*
   * Each column is bilinear in the latent pair and keeps a base value on two
   * lines of the (x, y) plane; `ColumnsFactored` gives the factored forms.
   */

  function ColumnA(x: real, y: real): (a: real)
    ensures x == 1.0 ==> a == 4.0
    ensures y == -2.0 ==> a == 4.0
  {
    1.0 * x * y + 2.0 * x - 1.0 * y + 2.0
  }

  function ColumnB(x: real, y: real): (b: real)
    ensures x == 1.0 ==> b == -5.0
    ensures 3.0 * y == 1.0 ==> b == -5.0
  {
    3.0 * x * y - 1.0 * x - 3.0 * y - 4.0
  }

  function ColumnC(x: real, y: real): (c: real)
    ensures x == 1.0 ==> c == -2.0
    ensures 2.0 * y == -3.0 ==> c == -2.0
  {
    -2.0 * x * y - 3.0 * x + 2.0 * y + 1.0
  }

  function ColumnD(x: real, y: real): (d: real)
    ensures 2.0 * x == -1.0 ==> d == -2.0
    ensures y == 1.0 ==> d == -2.0
  {
    2.0 * x * y - 2.0 * x + 1.0 * y - 3.0
  }

  /** The factored form of each column: a product of two lines plus its base value. */
  lemma ColumnsFactored(x: real, y: real)
    ensures ColumnA(x, y) == (x - 1.0) * (y + 2.0) + 4.0
    ensures ColumnB(x, y) == (x - 1.0) * (3.0 * y - 1.0) - 5.0
    ensures ColumnC(x, y) == -(x - 1.0) * (2.0 * y + 3.0) - 2.0
    ensures ColumnD(x, y) == (2.0 * x + 1.0) * (y - 1.0) - 2.0
  {
  }

  /** `GenerateRedundantDF` given the two latent normal samples `x` and `y`. */
  function GenerateRedundantDF(x: seq<real>, y: seq<real>): (f: Frame)
    requires |x| == |y|
    ensures |f.a| == |f.b| == |f.c| == |f.d| == |x|
  {
    var m := |x|;
    Frame(seq(m, i requires 0 <= i < m => ColumnA(x[i], y[i])),
          seq(m, i requires 0 <= i < m => ColumnB(x[i], y[i])),
          seq(m, i requires 0 <= i < m => ColumnC(x[i], y[i])),
          seq(m, i requires 0 <= i < m => ColumnD(x[i], y[i])))
  }

  /** The latent pair, recovered from one row of the frame. */
  function Latent(a: real, c: real, d: real): (real, real)
  {
    var x := 2.0 * a + c - 5.0;
    (x, (c + d + 5.0 * x + 2.0) / 3.0)
  }

  /**
   * The frame is intrinsically two-dimensional: every row determines its latent
   * pair, and column B is an affine function of columns A and C.
   */
  lemma RedundantFrameIsTwoDimensional(x: seq<real>, y: seq<real>)
    requires |x| == |y|
    ensures var f := GenerateRedundantDF(x, y);
      forall i :: 0 <= i < |x| ==>
        Latent(f.a[i], f.c[i], f.d[i]) == (x[i], y[i]) && 11.0 * f.a[i] + f.b[i] + 7.0 * f.c[i] == 25.0
  {
    var f := GenerateRedundantDF(x, y);
    forall i | 0 <= i < |x|
      ensures Latent(f.a[i], f.c[i], f.d[i]) == (x[i], y[i]) && 11.0 * f.a[i] + f.b[i] + 7.0 * f.c[i] == 25.0
    {
      var xi, yi := x[i], y[i];
      assert 2.0 * f.a[i] + f.c[i] == xi + 5.0;
      assert f.c[i] + f.d[i] == -5.0 * xi + 3.0 * yi - 2.0;
    }
  }
}
