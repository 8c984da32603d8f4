/** `PanelMethodAirfoil`: the object that reads a section, panels it and solves the flow around it. */
module PanelMethod {
  import opened Wrappers
  import opened Text
  import opened Numerics
  import opened Sorting
  import opened Polar
  import opened PanelGeometry
  import opened PanelSolver

  class PanelMethodAirfoil {
    /** The number of panels `create_panels` cuts the contour into. */
    const numPanels: nat

    constructor (numPanels: nat)
      ensures this.numPanels == numPanels
    {
      this.numPanels := numPanels;
    }

    /** `read_airfoil_dat`, over the lines of the file (`None` when it cannot be opened). */
    method ReadAirfoilDat(parse: string -> Option<real>, file: Option<seq<string>>) returns (x: seq<real>, y: seq<real>)
      ensures (x, y) == DatFile(parse, file)
    {
      x, y := [], [];
      if file.None? {
        return;
      }
      var lines := file.value;
      ghost var ys := Yields(parse, lines);
      for i := 0 to |lines|
        invariant (x, y) == Columns(ys[..i])
      {
        assert ys[..i + 1][..i] == ys[..i];
        var fields := DatLine(parse, lines[i]);
        match fields {
          case Skip =>
          case XOnly(px) =>
            x := x + [px];
          case Point(px, py) =>
            x := x + [px];
            y := y + [py];
        }
      }
      assert ys[..|lines|] == ys;
    }

    /** `create_panels`: `None` where the script raises (see `PanelsOf`). */
    method CreatePanels(E: Elementary, fit: Fit, x: seq<real>, y: seq<real>) returns (panels: Option<seq<Panel>>)
      requires |x| == |y| && |x| >= 1
      ensures panels == PanelsOf(E, fit, numPanels, x, y)
    {
      var closed := CloseContour(x, y);
      var cx, cy := closed.0, closed.1;
      var t := ArcParameter(E, cx, cy);
      if t.None? {
        return None;
      }
      var fx, fy := fit(t.value, cx), fit(t.value, cy);
      if fx.None? || fy.None? {
        return None;
      }
      var xp, yp := Samples(E, fx.value, numPanels), Samples(E, fy.value, numPanels);
      var chain := PanelChain(E, xp, yp);
      var ps: seq<Panel> := [];
      for i := 0 to numPanels
        invariant ps == chain[..i]
      {
        assert chain[..i + 1] == chain[..i] + [chain[i]];
        ps := ps + [MakePanel(E, xp[i], yp[i], xp[i + 1], yp[i + 1])];
      }
      assert ps == chain;
      return Some(ps);
    }

    /** `solve_flow`, with `A` and `b` built in place as the script builds them. */
    method SolveFlow(E: Elementary, solve: Solver, panels: seq<Panel>, alphaDeg: real, vInf: real) returns (r: Option<FlowSolution>)
      requires vInf != 0.0 && SolverSound(solve)
      ensures r == SolveFlowOf(E, solve, panels, alphaDeg, vInf)
    {
      var alpha := Radians(alphaDeg);
      var b := AssembleRhs(E, panels, alpha, vInf);
      var A := AssembleSystem(E, panels);
      if !FiniteSystem(panels) {
        return None;
      }
      var solution := solve(Rows(A), b[..]);
      if solution.None? {
        return None;
      }
      var sigma := solution.value;
      var cp := SurfacePressure(E, panels, sigma, alpha, vInf);
      return Some(FlowSolution(sigma, cp[..], panels));
    }

    /**
     * `load_xfoil_polar`, over the lines of the polar file (`None` when it does not exist): the
     * rows of the table sorted on alpha, or `None` when there are none.
     */
    method LoadXfoilPolar(parse: string -> Option<real>, file: Option<seq<string>>) returns (r: Option<seq<PolarRow>>)
      ensures r == LoadedPolar(parse, file)
    {
      if file.None? {
        return None;
      }
      var lines := file.value;
      var data: seq<PolarRow> := [];
      var parsing := false;
      for i := 0 to |lines|
        invariant ScanState(data, parsing) == Scan(parse, lines[..i])
      {
        assert lines[..i + 1][..i] == lines[..i];
        var line := lines[i];
        if IsMarker(line) {
          parsing := true;
          continue;
        }
        if parsing && Strip(line) != [] {
          var row := ParseRow(parse, line);
          if row.Some? {
            data := data + [row.value];
          }
        }
      }
      assert lines[..|lines|] == lines;
      ScanIsTable(parse, lines);
      if data == [] {
        return None;
      }
      return Some(SortBy(data, AlphaOf));
    }

    /** The right-hand side `b`, filled panel by panel. */
    method AssembleRhs(E: Elementary, panels: seq<Panel>, alpha: real, vInf: real) returns (b: array<real>)
      ensures b[..] == Rhs(E, panels, alpha, vInf)
    {
      b := new real[|panels|];
      for i := 0 to |panels|
        invariant forall k :: 0 <= k < i ==> b[k] == Rhs(E, panels, alpha, vInf)[k]
      {
        b[i] := -NormalFreestream(E, alpha, vInf, panels[i]);
      }
    }

    /** The loop that fills `V_t` and `Cp`. */
    method SurfacePressure(E: Elementary, panels: seq<Panel>, sigma: seq<real>, alpha: real, vInf: real) returns (cp: array<real>)
      requires vInf != 0.0 && |sigma| == |panels|
      ensures cp[..] == SurfacePressures(E, alpha, vInf, panels, sigma)
    {
      hide PressureCoefficient, SurfaceSpeed, TangentFreestream;
      var n := |panels|;
      var vt := new real[n];
      cp := new real[n];
      ghost var spec := SurfacePressures(E, alpha, vInf, panels, sigma);
      for i := 0 to n
        invariant forall k :: 0 <= k < i ==> cp[k] == spec[k]
      {
        var speed := SurfaceSpeed(E, alpha, vInf, panels[i], sigma[i]);
        vt[i] := speed;
        cp[i] := PressureCoefficient(speed, vInf);
        assert cp[i] == spec[i];
      }
      assert cp[..] == spec;
    }

    /** The influence matrix `A`, filled row by row. */
    method AssembleSystem(E: Elementary, panels: seq<Panel>) returns (A: array2<real>)
      ensures A.Length0 == |panels| && A.Length1 == |panels|
      ensures Rows(A) == SystemMatrix(E, panels)
    {
      var n := |panels|;
      A := new real[n, n];
      for i := 0 to n
        invariant forall k, j :: 0 <= k < i && 0 <= j < n ==> A[k, j] == SystemEntry(E, panels, k, j)
      {
        for j := 0 to n
          invariant forall k, j' :: 0 <= k < i && 0 <= j' < n ==> A[k, j'] == SystemEntry(E, panels, k, j')
          invariant forall j' :: 0 <= j' < j ==> A[i, j'] == SystemEntry(E, panels, i, j')
        {
          if i == j {
            A[i, j] := 0.5;
          } else if panels[j].length == 0.0 {
            A[i, j] := 0.0;
          } else {
            A[i, j] := Influence(E, panels[i], panels[j]);
          }
        }
      }
      forall i | 0 <= i < n
        ensures Rows(A)[i] == SystemMatrix(E, panels)[i]
      {
        assert forall j :: 0 <= j < n ==> Rows(A)[i][j] == SystemMatrix(E, panels)[i][j];
      }
    }

    /**
     * `compute_flow_field`: a `res` by `res` grid over [-0.5, 1.5] x [-0.6, 0.6], the velocity
     * there, its magnitude and the pressure coefficient.
     */
    method ComputeFlowField(E: Elementary, result: FlowSolution, alphaDeg: real, res: nat)
      returns (X: array2<real>, Y: array2<real>, U: array2<real>, V: array2<real>, Vmag: array2<real>, Cp: array2<real>)
      requires |result.sigma| == |result.panels|
      ensures X.Length0 == X.Length1 == Y.Length0 == Y.Length1 == res
      ensures U.Length0 == U.Length1 == V.Length0 == V.Length1 == res
      ensures Vmag.Length0 == Vmag.Length1 == Cp.Length0 == Cp.Length1 == res
      ensures forall r, c :: 0 <= r < res && 0 <= c < res ==>
        && X[r, c] == Linspace(-0.5, 1.5, res)[c]
        && Y[r, c] == Linspace(-0.6, 0.6, res)[r]
        && (U[r, c], V[r, c]) == FieldVelocity(E, result.panels, result.sigma, Radians(alphaDeg), X[r, c], Y[r, c])
        && Vmag[r, c] == Dist(E, U[r, c], V[r, c])
        && Cp[r, c] == FieldPressure(E, U[r, c], V[r, c])
    {
      var alpha := Radians(alphaDeg);
      X, Y := MeshGrid(Linspace(-0.5, 1.5, res), Linspace(-0.6, 0.6, res));
      U := Filled(res, E.cos(alpha));
      V := Filled(res, E.sin(alpha));
      AccumulatePanels(E, X, Y, U, V, result.panels, result.sigma, alpha);
      Vmag, Cp := Magnitude(E, U, V);
    }
  }

  /** The loop over the panels of `compute_flow_field`, starting from the freestream. */
  method AccumulatePanels(E: Elementary, X: array2<real>, Y: array2<real>, U: array2<real>, V: array2<real>,
                          ps: seq<Panel>, sigma: seq<real>, alpha: real)
    requires |sigma| == |ps|
    requires U != V && X != U && X != V && Y != U && Y != V
    requires X.Length0 == Y.Length0 == U.Length0 == V.Length0
    requires X.Length1 == Y.Length1 == U.Length1 == V.Length1
    requires forall r, c :: 0 <= r < U.Length0 && 0 <= c < U.Length1 ==> U[r, c] == E.cos(alpha) && V[r, c] == E.sin(alpha)
    modifies U, V
    ensures forall r, c :: 0 <= r < U.Length0 && 0 <= c < U.Length1 ==>
      (U[r, c], V[r, c]) == FieldVelocity(E, ps, sigma, alpha, X[r, c], Y[r, c])
  {
    hide Induced, FieldAfter;
    forall r, c | 0 <= r < U.Length0 && 0 <= c < U.Length1
      ensures (U[r, c], V[r, c]) == FieldAfter(E, ps, sigma, 0, alpha, X[r, c], Y[r, c])
    {
      AfterNone(E, ps, sigma, alpha, X[r, c], Y[r, c]);
    }
    for k := 0 to |ps|
      invariant forall r, c :: 0 <= r < U.Length0 && 0 <= c < U.Length1 ==>
        (U[r, c], V[r, c]) == FieldAfter(E, ps, sigma, k, alpha, X[r, c], Y[r, c])
    {
      AddPanel(E, X, Y, U, V, ps, sigma, k, alpha);
    }
  }

  /** One pass of the panel loop: `u_loc` and `v_loc` for panel k, added onto U and V. */
  method AddPanel(E: Elementary, X: array2<real>, Y: array2<real>, U: array2<real>, V: array2<real>,
                  ps: seq<Panel>, sigma: seq<real>, k: nat, alpha: real)
    requires |sigma| == |ps| && k < |ps|
    requires U != V && X != U && X != V && Y != U && Y != V
    requires X.Length0 == Y.Length0 == U.Length0 == V.Length0
    requires X.Length1 == Y.Length1 == U.Length1 == V.Length1
    requires forall r, c :: 0 <= r < U.Length0 && 0 <= c < U.Length1 ==>
      (U[r, c], V[r, c]) == FieldAfter(E, ps, sigma, k, alpha, X[r, c], Y[r, c])
    modifies U, V
    ensures forall r, c :: 0 <= r < U.Length0 && 0 <= c < U.Length1 ==>
      (U[r, c], V[r, c]) == FieldAfter(E, ps, sigma, k + 1, alpha, X[r, c], Y[r, c])
  {
    hide Induced, FieldAfter, Rows;
    var uLoc, vLoc := InducedGrid(E, X, Y, ps[k], sigma[k]);
    ghost var U0, V0 := Rows(U), Rows(V);
    AddInto(U, uLoc);
    AddInto(V, vLoc);
    forall r, c | 0 <= r < U.Length0 && 0 <= c < U.Length1
      ensures (U[r, c], V[r, c]) == FieldAfter(E, ps, sigma, k + 1, alpha, X[r, c], Y[r, c])
    {
      assert U[r, c] == U0[r][c] + uLoc[r, c];
      assert V[r, c] == V0[r][c] + vLoc[r, c];
      AfterStep(E, ps, sigma, k, alpha, X[r, c], Y[r, c], U0[r][c], V0[r][c], (uLoc[r, c], vLoc[r, c]));
    }
  }

  /** The rows of a matrix held in an array. */
  function Rows(A: array2<real>): (m: seq<seq<real>>)
    reads A
    ensures |m| == A.Length0
    ensures forall i :: 0 <= i < A.Length0 ==> |m[i]| == A.Length1
    ensures forall i, j :: 0 <= i < A.Length0 && 0 <= j < A.Length1 ==> m[i][j] == A[i, j]
  {
    seq(A.Length0, i requires 0 <= i < A.Length0 reads A =>
      seq(A.Length1, j requires 0 <= j < A.Length1 reads A => A[i, j]))
  }

  /** `np.meshgrid(xs, ys)`: row r of X is `xs`, column c of Y is `ys`. */
  method MeshGrid(xs: seq<real>, ys: seq<real>) returns (X: array2<real>, Y: array2<real>)
    requires |xs| == |ys|
    ensures X.Length0 == X.Length1 == Y.Length0 == Y.Length1 == |xs|
    ensures fresh(X) && fresh(Y)
    ensures forall r, c :: 0 <= r < |xs| && 0 <= c < |xs| ==> X[r, c] == xs[c] && Y[r, c] == ys[r]
  {
    var n := |xs|;
    X := new real[n, n];
    Y := new real[n, n];
    for r := 0 to n
      invariant forall r', c :: 0 <= r' < r && 0 <= c < n ==> X[r', c] == xs[c] && Y[r', c] == ys[r']
    {
      for c := 0 to n
        invariant forall r', c' :: 0 <= r' < r && 0 <= c' < n ==> X[r', c'] == xs[c'] && Y[r', c'] == ys[r']
        invariant forall c' :: 0 <= c' < c ==> X[r, c'] == xs[c'] && Y[r, c'] == ys[r]
      {
        X[r, c] := xs[c];
        Y[r, c] := ys[r];
      }
    }
  }

  /** `np.ones((n, n)) * v` */
  method Filled(n: nat, v: real) returns (G: array2<real>)
    ensures fresh(G) && G.Length0 == G.Length1 == n
    ensures forall r, c :: 0 <= r < n && 0 <= c < n ==> G[r, c] == v
  {
    G := new real[n, n];
    for r := 0 to n
      invariant forall r', c :: 0 <= r' < r && 0 <= c < n ==> G[r', c] == v
    {
      for c := 0 to n
        invariant forall r', c' :: 0 <= r' < r && 0 <= c' < n ==> G[r', c'] == v
        invariant forall c' :: 0 <= c' < c ==> G[r, c'] == v
      {
        G[r, c] := v;
      }
    }
  }

  /** `u_loc` and `v_loc`: the velocity one panel induces at every grid point. */
  method InducedGrid(E: Elementary, X: array2<real>, Y: array2<real>, p: Panel, s: real) returns (uLoc: array2<real>, vLoc: array2<real>)
    requires X.Length0 == Y.Length0 && X.Length1 == Y.Length1
    ensures fresh(uLoc) && fresh(vLoc)
    ensures uLoc.Length0 == vLoc.Length0 == X.Length0 && uLoc.Length1 == vLoc.Length1 == X.Length1
    ensures forall r, c :: 0 <= r < X.Length0 && 0 <= c < X.Length1 ==>
      uLoc[r, c] == Induced(E, p, s, X[r, c], Y[r, c]).0 && vLoc[r, c] == Induced(E, p, s, X[r, c], Y[r, c]).1
  {
    hide Induced;
    uLoc := new real[X.Length0, X.Length1];
    vLoc := new real[X.Length0, X.Length1];
    for r := 0 to X.Length0
      invariant forall r', c :: 0 <= r' < r && 0 <= c < X.Length1 ==>
        uLoc[r', c] == Induced(E, p, s, X[r', c], Y[r', c]).0 && vLoc[r', c] == Induced(E, p, s, X[r', c], Y[r', c]).1
    {
      for c := 0 to X.Length1
        invariant forall r', c' :: 0 <= r' < r && 0 <= c' < X.Length1 ==>
          uLoc[r', c'] == Induced(E, p, s, X[r', c'], Y[r', c']).0 && vLoc[r', c'] == Induced(E, p, s, X[r', c'], Y[r', c']).1
        invariant forall c' :: 0 <= c' < c ==>
          uLoc[r, c'] == Induced(E, p, s, X[r, c'], Y[r, c']).0 && vLoc[r, c'] == Induced(E, p, s, X[r, c'], Y[r, c']).1
      {
        var d := Induced(E, p, s, X[r, c], Y[r, c]);
        uLoc[r, c] := d.0;
        vLoc[r, c] := d.1;
      }
    }
  }

  /** `U += u_loc`, element by element. */
  method AddInto(U: array2<real>, D: array2<real>)
    requires U != D && D.Length0 == U.Length0 && D.Length1 == U.Length1
    modifies U
    ensures forall r, c :: 0 <= r < U.Length0 && 0 <= c < U.Length1 ==> U[r, c] == old(U[r, c]) + D[r, c]
  {
    for r := 0 to U.Length0
      invariant forall r', c :: 0 <= r' < U.Length0 && 0 <= c < U.Length1 ==>
        U[r', c] == old(U[r', c]) + (if r' < r then D[r', c] else 0.0)
    {
      for c := 0 to U.Length1
        invariant forall r', c' :: 0 <= r' < U.Length0 && 0 <= c' < U.Length1 ==>
          U[r', c'] == old(U[r', c']) + (if r' < r || (r' == r && c' < c) then D[r', c'] else 0.0)
      {
        U[r, c] := U[r, c] + D[r, c];
      }
    }
  }

  /** Before any panel is added the field is the freestream direction. */
  lemma AfterNone(E: Elementary, ps: seq<Panel>, sigma: seq<real>, alpha: real, px: real, py: real)
    requires |sigma| == |ps|
    ensures FieldAfter(E, ps, sigma, 0, alpha, px, py) == (E.cos(alpha), E.sin(alpha))
  {
  }

  /** Adding the (k+1)-th panel's induced velocity to the field of the first k panels. */
  lemma AfterStep(E: Elementary, ps: seq<Panel>, sigma: seq<real>, k: nat, alpha: real, px: real, py: real,
                  u: real, v: real, d: (real, real))
    requires |sigma| == |ps| && k < |ps|
    requires (u, v) == FieldAfter(E, ps, sigma, k, alpha, px, py)
    requires d == Induced(E, ps[k], sigma[k], px, py)
    ensures (u + d.0, v + d.1) == FieldAfter(E, ps, sigma, k + 1, alpha, px, py)
  {
  }

  /** `V_mag = np.sqrt(U**2 + V**2)` and `Cp = 1 - V_mag**2`. */
  method Magnitude(E: Elementary, U: array2<real>, V: array2<real>) returns (Vmag: array2<real>, Cp: array2<real>)
    requires U.Length0 == V.Length0 && U.Length1 == V.Length1
    ensures fresh(Vmag) && fresh(Cp)
    ensures Vmag.Length0 == Cp.Length0 == U.Length0 && Vmag.Length1 == Cp.Length1 == U.Length1
    ensures forall r, c :: 0 <= r < U.Length0 && 0 <= c < U.Length1 ==>
      Vmag[r, c] == Dist(E, U[r, c], V[r, c]) && Cp[r, c] == FieldPressure(E, U[r, c], V[r, c])
  {
    Vmag := new real[U.Length0, U.Length1];
    Cp := new real[U.Length0, U.Length1];
    for r := 0 to U.Length0
      invariant forall r', c :: 0 <= r' < r && 0 <= c < U.Length1 ==>
        Vmag[r', c] == Dist(E, U[r', c], V[r', c]) && Cp[r', c] == FieldPressure(E, U[r', c], V[r', c])
    {
      for c := 0 to U.Length1
        invariant forall r', c' :: 0 <= r' < r && 0 <= c' < U.Length1 ==>
          Vmag[r', c'] == Dist(E, U[r', c'], V[r', c']) && Cp[r', c'] == FieldPressure(E, U[r', c'], V[r', c'])
        invariant forall c' :: 0 <= c' < c ==>
          Vmag[r, c'] == Dist(E, U[r, c'], V[r, c']) && Cp[r, c'] == FieldPressure(E, U[r, c'], V[r, c'])
      {
        Vmag[r, c] := Dist(E, U[r, c], V[r, c]);
        Cp[r, c] := 1.0 - Sq(Vmag[r, c]);
      }
    }
  }
}
