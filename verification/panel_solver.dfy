/**
 * The flow half of the panel method: the source-panel influence system, its solution, the
 * surface pressure coefficient and the velocity field the solved panels induce.
 */
module PanelSolver {
  import opened Wrappers
  import opened Numerics
  import opened PanelGeometry

  /** The freestream's component along a panel's outward normal, `V_inf * cos(alpha - beta)` in expanded form. */
  function NormalFreestream(E: Elementary, alpha: real, vInf: real, p: Panel): real {
    vInf * (E.cos(alpha) * E.cos(p.beta) + E.sin(alpha) * E.sin(p.beta))
  }

  /** The freestream's component along a panel's tangent. */
  function TangentFreestream(E: Elementary, alpha: real, vInf: real, p: Panel): real {
    vInf * (E.cos(alpha) * -E.sin(p.beta) + E.sin(alpha) * E.cos(p.beta))
  }

  /** `b`: the normal velocity the sources must cancel at each control point. */
  function Rhs(E: Elementary, ps: seq<Panel>, alpha: real, vInf: real): (b: seq<real>)
    ensures |b| == |ps|
    ensures forall i :: 0 <= i < |ps| ==> b[i] == -NormalFreestream(E, alpha, vInf, ps[i])
  {
    seq(|ps|, i requires 0 <= i < |ps| => -NormalFreestream(E, alpha, vInf, ps[i]))
  }

  /**
   * The normal velocity that panel `pj`, with unit source strength, induces at the control
   * point of `pi`, from the control point's coordinates in `pj`'s own frame.
   */
  function Influence(E: Elementary, pi: Panel, pj: Panel): real
    requires pj.length != 0.0
  {
    var c, s := E.cos(pj.theta), E.sin(pj.theta);
    var X := (pi.xc - pj.x1) * c + (pi.yc - pj.y1) * s;
    var Y := -(pi.xc - pj.x1) * s + (pi.yc - pj.y1) * c;
    var L := pj.length;
    var r1, r2 := Sq(X) + Sq(Y), Sq(X - L) + Sq(Y);
    var phi1, phi2 := E.atan2(Y, X), E.atan2(Y, X - L);
    var vn := ((X - L) * E.log(r2 + 0.000000000001) - X * E.log(r1 + 0.000000000001) + 2.0 * Y * (phi2 - phi1)) / (4.0 * Pi);
    vn / L
  }

  /**
   * Both arguments of the logarithms in the influence coefficient are strictly positive: the
   * squared distances are offset by 1e-12, so a control point may sit on a panel end.
   */
  lemma InfluenceLogArgumentsPositive(E: Elementary, pi: Panel, pj: Panel)
    ensures var c, s := E.cos(pj.theta), E.sin(pj.theta);
      var X := (pi.xc - pj.x1) * c + (pi.yc - pj.y1) * s;
      var Y := -(pi.xc - pj.x1) * s + (pi.yc - pj.y1) * c;
      var r1, r2 := Sq(X) + Sq(Y), Sq(X - pj.length) + Sq(Y);
      r1 + 0.000000000001 > 0.0 && r2 + 0.000000000001 > 0.0
  {
  }

  /**
   * Entry (i, j) of `A`: one half on the diagonal (a panel's own source sheet), the influence
   * coefficient elsewhere. A zero-length panel makes its column non-finite in the script; that
   * system is never solved (see `FiniteSystem`), so the model puts 0 there.
   */
  function SystemEntry(E: Elementary, ps: seq<Panel>, i: nat, j: nat): real
    requires i < |ps| && j < |ps|
  {
    if i == j then 0.5
    else if ps[j].length == 0.0 then 0.0
    else Influence(E, ps[i], ps[j])
  }

  /** `A`, the square influence matrix, with one half on its diagonal. */
  function SystemMatrix(E: Elementary, ps: seq<Panel>): (A: seq<seq<real>>)
    ensures |A| == |ps|
    ensures forall i :: 0 <= i < |ps| ==> |A[i]| == |ps| && A[i][i] == 0.5
    ensures forall i, j :: 0 <= i < |ps| && 0 <= j < |ps| && i != j && ps[j].length != 0.0 ==>
      A[i][j] == Influence(E, ps[i], ps[j])
  {
    seq(|ps|, i requires 0 <= i < |ps| => seq(|ps|, j requires 0 <= j < |ps| => SystemEntry(E, ps, i, j)))
  }

  /**
   * `A` holds only finite numbers: true unless an off-diagonal entry divides by a zero panel
   * length, which needs two panels at least. scipy refuses a non-finite matrix.
   */
  predicate FiniteSystem(ps: seq<Panel>) {
    |ps| < 2 || forall j :: 0 <= j < |ps| ==> ps[j].length != 0.0
  }

  function Dot(u: seq<real>, v: seq<real>): real
    decreases |u|
  {
    if u == [] || v == [] then 0.0 else u[0] * v[0] + Dot(u[1..], v[1..])
  }

  function MatVec(A: seq<seq<real>>, v: seq<real>): (r: seq<real>)
    ensures |r| == |A|
  {
    seq(|A|, i requires 0 <= i < |A| => Dot(A[i], v))
  }

  /** `linalg.solve(A, b)`: a solution, or `None` where scipy raises (a singular matrix). */
  type Solver = (seq<seq<real>>, seq<real>) -> Option<seq<real>>

  /** A solver whose every answer solves the system it was given. */
  ghost predicate SolverSound(solve: Solver) {
    forall A: seq<seq<real>>, b: seq<real> :: solve(A, b).Some? ==>
      |solve(A, b).value| == |b| && MatVec(A, solve(A, b).value) == b
  }

  /** `V_t[i]`: freestream tangential speed plus half the panel's own source strength. */
  function SurfaceSpeed(E: Elementary, alpha: real, vInf: real, p: Panel, sigma: real): real {
    TangentFreestream(E, alpha, vInf, p) + sigma / 2.0
  }

  /** `1 - (V_t/V_inf)**2`: at most 1, and exactly 1 at a stagnation point. */
  function PressureCoefficient(vt: real, vInf: real): (cp: real)
    requires vInf != 0.0
    ensures cp <= 1.0
    ensures cp == 1.0 <==> vt == 0.0
  {
    var q := vt / vInf;
    if q == 0.0 then
      assert vt == q * vInf;
      1.0 - Sq(q)
    else
      SquarePositive(q);
      1.0 - Sq(q)
  }

  /** The `dict` that `solve_flow` returns. */
  datatype FlowSolution = FlowSolution(sigma: seq<real>, cp: seq<real>, panels: seq<Panel>)

  /**
   * `solve_flow`: `None` where the script returns `None` (scipy refuses the system). Otherwise the
   * source strengths satisfy flow tangency at every control point, and each panel gets a
   * pressure coefficient of at most 1.
   */
  function SolveFlowOf(E: Elementary, solve: Solver, ps: seq<Panel>, alphaDeg: real, vInf: real): (r: Option<FlowSolution>)
    requires vInf != 0.0 && SolverSound(solve)
    ensures r.Some? <==> FiniteSystem(ps) && solve(SystemMatrix(E, ps), Rhs(E, ps, Radians(alphaDeg), vInf)).Some?
    ensures r.Some? ==> r.value.sigma == solve(SystemMatrix(E, ps), Rhs(E, ps, Radians(alphaDeg), vInf)).value
    ensures r.Some? ==>
      var alpha := Radians(alphaDeg);
      && r.value.panels == ps
      && |r.value.sigma| == |r.value.cp| == |ps|
      && MatVec(SystemMatrix(E, ps), r.value.sigma) == Rhs(E, ps, alpha, vInf)
      && forall i :: 0 <= i < |ps| ==>
           r.value.cp[i] == PressureCoefficient(SurfaceSpeed(E, alpha, vInf, ps[i], r.value.sigma[i]), vInf)
  {
    var alpha := Radians(alphaDeg);
    if !FiniteSystem(ps) then None
    else
      match solve(SystemMatrix(E, ps), Rhs(E, ps, alpha, vInf))
      case None => None
      case Some(sigma) => Some(FlowSolution(sigma, SurfacePressures(E, alpha, vInf, ps, sigma), ps))
  }

  /** `Cp` along the surface, one value per panel. */
  function SurfacePressures(E: Elementary, alpha: real, vInf: real, ps: seq<Panel>, sigma: seq<real>): (cp: seq<real>)
    requires vInf != 0.0 && |sigma| == |ps|
    ensures |cp| == |ps|
    ensures forall i :: 0 <= i < |ps| ==> cp[i] == PressureCoefficient(SurfaceSpeed(E, alpha, vInf, ps[i], sigma[i]), vInf)
  {
    seq(|ps|, i requires 0 <= i < |ps| => PressureCoefficient(SurfaceSpeed(E, alpha, vInf, ps[i], sigma[i]), vInf))
  }

  /**
   * The factors `J * cos(theta) - I * sin(theta)` and `J * sin(theta) + I * cos(theta)` of a panel's
   * influence at (px, py), where J is the log of the distance ratio and I the angle the panel subtends,
   * both taken in the panel's own axes.
   */
  function InfluenceFactors(E: Elementary, p: Panel, px: real, py: real): (real, real) {
    var c, sn := E.cos(p.theta), E.sin(p.theta);
    var X := (px - p.x1) * c + (py - p.y1) * sn;
    var Y := -(px - p.x1) * sn + (py - p.y1) * c;
    var r1, r2 := Sq(X) + Sq(Y), Sq(X - p.length) + Sq(Y);
    var J := 0.5 * E.log((r2 + 0.0000000001) / (r1 + 0.0000000001));
    var I := E.atan2(Y, X - p.length) - E.atan2(Y, X);
    (J * c - I * sn, J * sn + I * c)
  }

  /**
   * Both arguments of the logarithm in the influence factors are strictly positive quotients: the
   * squared distances are offset by 1e-10, so the field point may sit on a panel end.
   */
  lemma LogArgumentPositive(E: Elementary, p: Panel, px: real, py: real)
    ensures var c, sn := E.cos(p.theta), E.sin(p.theta);
      var X := (px - p.x1) * c + (py - p.y1) * sn;
      var Y := -(px - p.x1) * sn + (py - p.y1) * c;
      var r1, r2 := Sq(X) + Sq(Y), Sq(X - p.length) + Sq(Y);
      r1 + 0.0000000001 > 0.0 && r2 + 0.0000000001 > 0.0 && (r2 + 0.0000000001) / (r1 + 0.0000000001) > 0.0
  {
    var c, sn := E.cos(p.theta), E.sin(p.theta);
    var X := (px - p.x1) * c + (py - p.y1) * sn;
    var Y := -(px - p.x1) * sn + (py - p.y1) * c;
    var a, b := Sq(X) + Sq(Y) + 0.0000000001, Sq(X - p.length) + Sq(Y) + 0.0000000001;
    assert a > 0.0 && b > 0.0;
  }

  /** The velocity a source panel of strength `s` induces at (px, py), in global axes. */
  function Induced(E: Elementary, p: Panel, s: real, px: real, py: real): (real, real) {
    var f := InfluenceFactors(E, p, px, py);
    (f.0 * s / (2.0 * Pi), f.1 * s / (2.0 * Pi))
  }

  /** The velocity at (px, py): the freestream direction plus every panel's contribution, added in panel order. */
  function FieldVelocity(E: Elementary, ps: seq<Panel>, sigma: seq<real>, alpha: real, px: real, py: real): (real, real)
    requires |sigma| == |ps|
  {
    FieldAfter(E, ps, sigma, |ps|, alpha, px, py)
  }

  /** The velocity at (px, py) once the first `k` panels' contributions have been added to the freestream. */
  function FieldAfter(E: Elementary, ps: seq<Panel>, sigma: seq<real>, k: nat, alpha: real, px: real, py: real): (real, real)
    requires |sigma| == |ps| && k <= |ps|
    decreases k
  {
    if k == 0 then (E.cos(alpha), E.sin(alpha))
    else
      var before := FieldAfter(E, ps, sigma, k - 1, alpha, px, py);
      var d := Induced(E, ps[k - 1], sigma[k - 1], px, py);
      (before.0 + d.0, before.1 + d.1)
  }

  /** An unloaded panel induces nothing. */
  lemma InducedZero(E: Elementary, p: Panel, px: real, py: real)
    ensures Induced(E, p, 0.0, px, py) == (0.0, 0.0)
  {
  }

  /** The induced velocity is additive in the source strength. */
  lemma InducedAdditive(E: Elementary, p: Panel, s1: real, s2: real, px: real, py: real)
    ensures Induced(E, p, s1 + s2, px, py).0 == Induced(E, p, s1, px, py).0 + Induced(E, p, s2, px, py).0
    ensures Induced(E, p, s1 + s2, px, py).1 == Induced(E, p, s1, px, py).1 + Induced(E, p, s2, px, py).1
  {
  }

  /** With every source strength zero the field is the uniform freestream direction. */
  lemma FieldFreestream(E: Elementary, ps: seq<Panel>, sigma: seq<real>, alpha: real, px: real, py: real)
    requires |sigma| == |ps|
    requires forall k :: 0 <= k < |sigma| ==> sigma[k] == 0.0
    ensures FieldVelocity(E, ps, sigma, alpha, px, py) == (E.cos(alpha), E.sin(alpha))
  {
    FreestreamAfter(E, ps, sigma, |ps|, alpha, px, py);
  }

  lemma {:induction false} FreestreamAfter(E: Elementary, ps: seq<Panel>, sigma: seq<real>, k: nat, alpha: real, px: real, py: real)
    requires |sigma| == |ps| && k <= |ps|
    requires forall j :: 0 <= j < |sigma| ==> sigma[j] == 0.0
    ensures FieldAfter(E, ps, sigma, k, alpha, px, py) == (E.cos(alpha), E.sin(alpha))
    decreases k
  {
    hide Induced;
    if k != 0 {
      FreestreamAfter(E, ps, sigma, k - 1, alpha, px, py);
      InducedZero(E, ps[k - 1], px, py);
    }
  }

  function AddStrengths(a: seq<real>, b: seq<real>): (r: seq<real>)
    requires |a| == |b|
    ensures |r| == |a| && forall k :: 0 <= k < |a| ==> r[k] == a[k] + b[k]
  {
    seq(|a|, k requires 0 <= k < |a| => a[k] + b[k])
  }

  /**
   * Superposition: the disturbance (field minus freestream) of two source distributions added
   * together is the sum of their disturbances.
   */
  lemma FieldSuperposition(E: Elementary, ps: seq<Panel>, a: seq<real>, b: seq<real>, alpha: real, px: real, py: real)
    requires |a| == |ps| && |b| == |ps|
    ensures var f, g, h := FieldVelocity(E, ps, AddStrengths(a, b), alpha, px, py),
                           FieldVelocity(E, ps, a, alpha, px, py), FieldVelocity(E, ps, b, alpha, px, py);
      && f.0 + E.cos(alpha) == g.0 + h.0
      && f.1 + E.sin(alpha) == g.1 + h.1
  {
    SuperpositionAfter(E, ps, a, b, |ps|, alpha, px, py);
  }

  lemma {:induction false} SuperpositionAfter(E: Elementary, ps: seq<Panel>, a: seq<real>, b: seq<real>, k: nat,
                                              alpha: real, px: real, py: real)
    requires |a| == |ps| && |b| == |ps| && k <= |ps|
    ensures var f, g, h := FieldAfter(E, ps, AddStrengths(a, b), k, alpha, px, py),
                           FieldAfter(E, ps, a, k, alpha, px, py), FieldAfter(E, ps, b, k, alpha, px, py);
      && f.0 + E.cos(alpha) == g.0 + h.0
      && f.1 + E.sin(alpha) == g.1 + h.1
    decreases k
  {
    hide Induced;
    if k != 0 {
      SuperpositionAfter(E, ps, a, b, k - 1, alpha, px, py);
      assert AddStrengths(a, b)[k - 1] == a[k - 1] + b[k - 1];
      InducedAdditive(E, ps[k - 1], a[k - 1], b[k - 1], px, py);
    }
  }

  /** `1 - V_mag**2` with `V_mag = sqrt(U**2 + V**2)`: never above 1. */
  function FieldPressure(E: Elementary, u: real, v: real): (cp: real)
    ensures cp <= 1.0
  {
    1.0 - Sq(Dist(E, u, v))
  }
}
