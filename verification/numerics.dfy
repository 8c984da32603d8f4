/**
 * numpy's elementary functions, its constants and the array builders the scripts use.
 * The transcendental functions are not defined here: a value of `Elementary` supplies
 * them, and `Lawful` lists the only facts about them that the proofs rely on.
 */
module Numerics {

  /** `np.pi`: the double nearest to pi, as an exact rational. */
  const Pi: real := 3.141592653589793

  /** `np.sqrt`, `np.sin`, `np.cos`, `np.arctan`, `np.arctan2` and `np.log`. */
  datatype Elementary = Elementary(
    sqrt: real -> real,
    sin: real -> real,
    cos: real -> real,
    atan: real -> real,
    atan2: (real, real) -> real,
    log: real -> real)

  /** The facts about numpy's functions that hold exactly in double arithmetic and that the proofs use. */
  ghost predicate Lawful(E: Elementary) {
    && E.sqrt(0.0) == 0.0
    && E.sqrt(1.0) == 1.0
    && (forall v :: 0.0 <= v ==> 0.0 <= E.sqrt(v))
    && (forall v :: 0.0 < v ==> 0.0 < E.sqrt(v))
    && E.cos(0.0) == 1.0
    && E.sin(0.0) == 0.0
    && E.atan(0.0) == 0.0
    && E.cos(Pi) == -1.0
    && (forall v :: -1.0 <= E.cos(v) <= 1.0)
  }

  function Sq(v: real): (r: real)
    ensures 0.0 <= r
  {
    v * v
  }

  function Abs(v: real): (r: real)
    ensures 0.0 <= r && (r == v || r == -v)
  {
    if v < 0.0 then -v else v
  }

  /** `np.sqrt(dx**2 + dy**2)`: never negative, and zero only for a zero displacement. */
  function Dist(E: Elementary, dx: real, dy: real): (r: real)
    ensures Lawful(E) ==> 0.0 <= r && (r == 0.0 <==> dx == 0.0 && dy == 0.0)
  {
    if dx == 0.0 && dy == 0.0 then E.sqrt(0.0)
    else
      SumSquaresPositive(dx, dy);
      E.sqrt(dx * dx + dy * dy)
  }

  lemma MulPositive(a: real, b: real)
    requires (0.0 < a && 0.0 < b) || (a < 0.0 && b < 0.0)
    ensures 0.0 < a * b
  {
  }

  lemma SquarePositive(v: real)
    requires v != 0.0
    ensures 0.0 < v * v
  {
    MulPositive(v, v);
  }

  lemma SumSquaresPositive(dx: real, dy: real)
    requires dx != 0.0 || dy != 0.0
    ensures 0.0 < dx * dx + dy * dy
  {
    if dx != 0.0 {
      MulPositive(dx, dx);
    }
    if dy != 0.0 {
      MulPositive(dy, dy);
    }
    if dx == 0.0 {
      MulPositive(dy, dy);
    }
  }

  /** `np.radians(deg)` */
  function Radians(deg: real): real {
    deg * Pi / 180.0
  }

  /** `np.isclose(a, b)` with numpy's default tolerances (rtol 1e-05, atol 1e-08); note it is not symmetric. */
  predicate IsClose(a: real, b: real) {
    Abs(a - b) <= 0.00000001 + 0.00001 * Abs(b)
  }

  /** `np.linspace(a, b, n)`: n evenly spaced values, the first exactly a and the last exactly b. */
  function Linspace(a: real, b: real, n: nat): (r: seq<real>)
    ensures |r| == n
    ensures n >= 1 ==> r[0] == a
    ensures n >= 2 ==> r[n - 1] == b
  {
    var r := seq(n, i requires 0 <= i < n => if n == 1 then a else a + (b - a) * ((i as real) / ((n - 1) as real)));
    if n >= 2 then
      var d := (n - 1) as real;
      assert d / d == 1.0;
      assert r[n - 1] == a + (b - a) * (d / d);
      r
    else r
  }

  /** The values of `linspace` rise with the index when `a <= b`. */
  lemma LinspaceMonotone(a: real, b: real, n: nat, i: nat, j: nat)
    requires a <= b && i <= j < n
    ensures Linspace(a, b, n)[i] <= Linspace(a, b, n)[j]
  {
    if n > 1 {
      var d := (n - 1) as real;
      DivMonotone(i as real, j as real, d);
      MulMonotone(b - a, (i as real) / d, (j as real) / d);
    }
  }

  lemma DivMonotone(x: real, y: real, d: real)
    requires x <= y && 0.0 < d
    ensures x / d <= y / d
  {
    var qx, qy := x / d, y / d;
    assert qx * d == x && qy * d == y;
  }

  lemma MulMonotone(c: real, x: real, y: real)
    requires 0.0 <= c && x <= y
    ensures c * x <= c * y
  {
    assert c * y - c * x == c * (y - x);
  }

  /** `0.5 * (1 - np.cos(np.linspace(0, np.pi, k)))`: k parameters clustered towards both ends of [0, 1]. */
  function CosineSpaced(E: Elementary, k: nat): (r: seq<real>)
    ensures |r| == k
  {
    var beta := Linspace(0.0, Pi, k);
    seq(k, i requires 0 <= i < k => 0.5 * (1.0 - E.cos(beta[i])))
  }

  /** Cosine spacing starts at exactly 0, ends at exactly 1 and stays within [0, 1]. */
  lemma CosineSpacedRange(E: Elementary, k: nat)
    requires Lawful(E)
    ensures k >= 1 ==> CosineSpaced(E, k)[0] == 0.0
    ensures k >= 2 ==> CosineSpaced(E, k)[k - 1] == 1.0
    ensures forall i :: 0 <= i < k ==> 0.0 <= CosineSpaced(E, k)[i] <= 1.0
  {
    var r := CosineSpaced(E, k);
    forall i | 0 <= i < k
      ensures 0.0 <= r[i] <= 1.0
    {
      var c := E.cos(Linspace(0.0, Pi, k)[i]);
      assert -1.0 <= c <= 1.0;
    }
  }
}
