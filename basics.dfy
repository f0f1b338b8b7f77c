/** Values shared by the dataset generators and the plotting helpers. */
module Basics {

  /** One row of an (n, 2) NumPy array of coordinates. */
  datatype Point = Point(x1: real, x2: real)

  /** The Python exceptions that can escape a modelled function. */
  datatype PyError = ValueError | NameError(name: string)

  /** The outcome of a Python call: a value, or the exception it raises. */
  datatype Result<+T> = Ok(value: T) | Raised(error: PyError)

  datatype Option<+T> = None | Some(value: T)

  /** The point reflected through the origin (NumPy's unary minus on a row). */
  function Negate(p: Point): Point
  {
    Point(-p.x1, -p.x2)
  }

  /** The squared Euclidean norm, `(row**2).sum()`. */
  function SqNorm(p: Point): real
  {
    p.x1 * p.x1 + p.x2 * p.x2
  }

  /** `np.abs` on one value. */
  function Abs(v: real): (r: real)
    ensures r >= 0.0 && (r == v || r == -v)
  {
    if v < 0.0 then -v else v
  }

  /** Python's `max` over a non-empty sequence (also `np.max` over an array's entries). */
  function MaxOf(s: seq<real>): (m: real)
    requires |s| > 0
    ensures m in s
    ensures forall i :: 0 <= i < |s| ==> s[i] <= m
  {
    if |s| == 1 then s[0]
    else
      var rest := MaxOf(s[1..]);
      if s[0] >= rest then s[0] else rest
  }

  /** Python's `min` over a non-empty sequence. */
  function MinOf(s: seq<real>): (m: real)
    requires |s| > 0
    ensures m in s
    ensures forall i :: 0 <= i < |s| ==> m <= s[i]
  {
    if |s| == 1 then s[0]
    else
      var rest := MinOf(s[1..]);
      if s[0] <= rest then s[0] else rest
  }
}
