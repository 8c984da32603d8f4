/**
 * The geometry half of the panel method: reading a Selig-style `.dat` coordinate file,
 * closing the contour, parameterising it by arc length and cutting it into straight panels.
 */
module PanelGeometry {
  import opened Wrappers
  import opened Text
  import opened Numerics

  /** What one line of a `.dat` file contributes to the x and y columns. */
  datatype DatYield = Skip | XOnly(x: real) | Point(x: real, y: real)

  /**
   * One line of `read_airfoil_dat`: blank lines and lines holding a letter are skipped, as are
   * lines with fewer than two fields; the first field is appended to x before the second is
   * parsed, so a bad second field leaves an x without its y.
   */
  function DatLine(parse: string -> Option<real>, line: string): (r: DatYield)
    ensures var t := Strip(line); t == [] || HasAlpha(t) || |Split(t)| < 2 ==> r.Skip?
    ensures !r.Skip? ==>
      var t := Strip(line); var p := Split(t);
      && !HasAlpha(t) && |p| >= 2 && parse(p[0]) == Some(r.x)
      && (if r.Point? then parse(p[1]) == Some(r.y) else parse(p[1]).None?)
    ensures r.Skip? ==>
      var t := Strip(line); var p := Split(t);
      t == [] || HasAlpha(t) || |p| < 2 || parse(p[0]).None?
  {
    var t := Strip(line);
    if t == [] || HasAlpha(t) then Skip
    else
      var p := Split(t);
      if |p| < 2 then Skip
      else
        match parse(p[0])
        case None => Skip
        case Some(x) =>
          match parse(p[1])
          case None => XOnly(x)
          case Some(y) => Point(x, y)
  }

  /** What each line of a file contributes, in file order. */
  function Yields(parse: string -> Option<real>, lines: seq<string>): (ys: seq<DatYield>)
    ensures |ys| == |lines| && forall i :: 0 <= i < |lines| ==> ys[i] == DatLine(parse, lines[i])
  {
    seq(|lines|, i requires 0 <= i < |lines| => DatLine(parse, lines[i]))
  }

  /** The x and y columns `read_airfoil_dat` builds from what its lines yield, in file order. */
  function Columns(ys: seq<DatYield>): (seq<real>, seq<real>)
    decreases |ys|
  {
    if ys == [] then ([], [])
    else
      var (xs, zs) := Columns(ys[..|ys| - 1]);
      match ys[|ys| - 1]
      case Skip => (xs, zs)
      case XOnly(x) => (xs + [x], zs)
      case Point(x, y) => (xs + [x], zs + [y])
  }

  /** The number of lines whose x parses but whose y does not. */
  function XOnlyCount(ys: seq<DatYield>): nat
    decreases |ys|
  {
    if ys == [] then 0
    else XOnlyCount(ys[..|ys| - 1]) + if ys[|ys| - 1].XOnly? then 1 else 0
  }

  /** The points of the well-formed lines, read front to back. */
  function Points(ys: seq<DatYield>): seq<(real, real)>
    decreases |ys|
  {
    if ys == [] then [] else PointOf(ys[0]) + Points(ys[1..])
  }

  function PointOf(y: DatYield): seq<(real, real)> {
    if y.Point? then [(y.x, y.y)] else []
  }

  /** The x column is longer than the y column by exactly the number of half-parsed lines. */
  lemma {:induction false} ColumnsLength(ys: seq<DatYield>)
    ensures |Columns(ys).0| == |Columns(ys).1| + XOnlyCount(ys)
    decreases |ys|
  {
    if ys != [] {
      ColumnsLength(ys[..|ys| - 1]);
    }
  }

  lemma {:induction false} PointsAppend(ys: seq<DatYield>, y: DatYield)
    ensures Points(ys + [y]) == Points(ys) + PointOf(y)
    decreases |ys|
  {
    if ys == [] {
      assert ([y])[1..] == [];
    } else {
      assert (ys + [y])[1..] == ys[1..] + [y];
      PointsAppend(ys[1..], y);
    }
  }

  /**
   * Without half-parsed lines the two columns pair up: the k-th x and the k-th y are the two
   * fields of the k-th well-formed line.
   */
  lemma {:induction false} ColumnsPaired(ys: seq<DatYield>)
    requires XOnlyCount(ys) == 0
    ensures var (xs, zs) := Columns(ys);
      var pts := Points(ys);
      |xs| == |zs| == |pts| && forall k :: 0 <= k < |pts| ==> pts[k] == (xs[k], zs[k])
    decreases |ys|
  {
    if ys != [] {
      var init, y := ys[..|ys| - 1], ys[|ys| - 1];
      assert ys == init + [y];
      ColumnsPaired(init);
      PointsAppend(init, y);
    }
  }

  /** The columns of a file: x is longer than y by the number of lines with an x and no y. */
  lemma DatColumnsLength(parse: string -> Option<real>, lines: seq<string>)
    ensures var ys := Yields(parse, lines);
      |Columns(ys).0| == |Columns(ys).1| + XOnlyCount(ys)
  {
    ColumnsLength(Yields(parse, lines));
  }

  /** The columns of a file without half-parsed lines are the points of its well-formed lines. */
  lemma DatColumnsPaired(parse: string -> Option<real>, lines: seq<string>)
    requires XOnlyCount(Yields(parse, lines)) == 0
    ensures var ys := Yields(parse, lines);
      var (xs, zs) := Columns(ys);
      var pts := Points(ys);
      |xs| == |zs| == |pts| && forall k :: 0 <= k < |pts| ==> pts[k] == (xs[k], zs[k])
  {
    ColumnsPaired(Yields(parse, lines));
  }

  /** `read_airfoil_dat`; an unreadable file (`None`) gives two empty columns. */
  function DatFile(parse: string -> Option<real>, file: Option<seq<string>>): (seq<real>, seq<real>) {
    match file
    case None => ([], [])
    case Some(lines) => Columns(Yields(parse, lines))
  }

  /**
   * The first lines of `create_panels`: the last point is kept when it is `np.isclose` to the
   * first in both coordinates, otherwise the first point is appended.
   */
  function CloseContour(x: seq<real>, y: seq<real>): (r: (seq<real>, seq<real>))
    requires |x| == |y| && |x| >= 1
    ensures |r.0| == |r.1| >= |x|
    ensures r.0[..|x|] == x && r.1[..|y|] == y
    ensures |r.0| == |x| <==> IsClose(x[0], x[|x| - 1]) && IsClose(y[0], y[|y| - 1])
    ensures |r.0| == |x| + 1 || |r.0| == |x|
    ensures IsClose(r.0[0], r.0[|r.0| - 1]) && IsClose(r.1[0], r.1[|r.1| - 1])
  {
    if IsClose(x[0], x[|x| - 1]) && IsClose(y[0], y[|y| - 1]) then (x, y)
    else
      assert (x + [x[0]])[..|x|] == x && (y + [y[0]])[..|y|] == y;
      (x + [x[0]], y + [y[0]])
  }

  /** Closing an already closed contour changes nothing. */
  lemma CloseContourIdempotent(x: seq<real>, y: seq<real>)
    requires |x| == |y| && |x| >= 1
    ensures var (cx, cy) := CloseContour(x, y); CloseContour(cx, cy) == (cx, cy)
  {
  }

  /** `np.sqrt(np.diff(x)**2 + np.diff(y)**2)` */
  function SegmentLengths(E: Elementary, x: seq<real>, y: seq<real>): (d: seq<real>)
    requires |x| == |y| && |x| >= 1
    ensures |d| == |x| - 1
    ensures Lawful(E) ==> forall i :: 0 <= i < |d| ==> 0.0 <= d[i]
    ensures Lawful(E) ==> forall i :: 0 <= i < |d| ==> (d[i] == 0.0 <==> x[i] == x[i + 1] && y[i] == y[i + 1])
  {
    seq(|x| - 1, i requires 0 <= i < |x| - 1 => Dist(E, x[i + 1] - x[i], y[i + 1] - y[i]))
  }

  /** `np.concatenate(([0], np.cumsum(d)))` */
  function PartialSums(d: seq<real>): (c: seq<real>)
    ensures |c| == |d| + 1 && c[0] == 0.0
    ensures forall k :: 0 <= k < |d| ==> c[k + 1] == c[k] + d[k]
    decreases |d|
  {
    if d == [] then [0.0]
    else
      var c := PartialSums(d[..|d| - 1]);
      c + [c[|c| - 1] + d[|d| - 1]]
  }

  /** Partial sums of non-negative terms never decrease. */
  lemma {:induction false} PartialSumsMonotone(d: seq<real>, i: nat, j: nat)
    requires forall k :: 0 <= k < |d| ==> 0.0 <= d[k]
    requires i <= j <= |d|
    ensures PartialSums(d)[i] <= PartialSums(d)[j]
    decreases j - i
  {
    if i < j {
      PartialSumsMonotone(d, i, j - 1);
    }
  }

  /** The total of non-negative terms is zero exactly when every term is zero. */
  lemma {:induction false} PartialSumsZero(d: seq<real>)
    requires forall k :: 0 <= k < |d| ==> 0.0 <= d[k]
    ensures PartialSums(d)[|d|] == 0.0 <==> forall k :: 0 <= k < |d| ==> d[k] == 0.0
    decreases |d|
  {
    if d != [] {
      var init := d[..|d| - 1];
      PartialSumsZero(init);
      PartialSumsMonotone(init, 0, |init|);
      assert PartialSums(init) == PartialSums(d)[..|d|];
      assert PartialSums(d)[|d|] == PartialSums(init)[|init|] + d[|d| - 1];
    }
  }

  /**
   * `t_original`: cumulative arc length divided by the total. The total is zero when every
   * point coincides; then the division yields NaNs and the spline fit cannot be built, which
   * the model reports as `None`.
   */
  function ArcParameter(E: Elementary, x: seq<real>, y: seq<real>): (t: Option<seq<real>>)
    requires |x| == |y| && |x| >= 1
    ensures t.Some? ==> |t.value| == |x|
  {
    var c := PartialSums(SegmentLengths(E, x, y));
    var total := c[|c| - 1];
    if total == 0.0 then None
    else Some(seq(|c|, i requires 0 <= i < |c| => c[i] / total))
  }

  /** The arc-length parameter is missing exactly when all the points coincide. */
  lemma ArcParameterMissing(E: Elementary, x: seq<real>, y: seq<real>)
    requires Lawful(E)
    requires |x| == |y| && |x| >= 1
    ensures ArcParameter(E, x, y).None? <==> forall i :: 0 <= i < |x| ==> x[i] == x[0] && y[i] == y[0]
  {
    var d := SegmentLengths(E, x, y);
    var c := PartialSums(d);
    PartialSumsZero(d);
    if c[|c| - 1] == 0.0 {
      forall i | 0 <= i < |x|
        ensures x[i] == x[0] && y[i] == y[0]
      {
        SameAsFirst(x, y, d, i);
      }
    } else if forall i :: 0 <= i < |x| ==> x[i] == x[0] && y[i] == y[0] {
      forall k | 0 <= k < |d|
        ensures d[k] == 0.0
      {
        assert x[k] == x[0] == x[k + 1] && y[k] == y[0] == y[k + 1];
      }
    }
  }

  /** The arc-length parameter runs from exactly 0 to exactly 1 without decreasing. */
  lemma ArcParameterRange(E: Elementary, x: seq<real>, y: seq<real>)
    requires Lawful(E)
    requires |x| == |y| && |x| >= 1
    requires ArcParameter(E, x, y).Some?
    ensures var t := ArcParameter(E, x, y).value;
      && t[0] == 0.0 && t[|t| - 1] == 1.0
      && forall i, j :: 0 <= i <= j < |t| ==> 0.0 <= t[i] <= t[j] <= 1.0
  {
    var d := SegmentLengths(E, x, y);
    var c := PartialSums(d);
    var total := c[|c| - 1];
    assert total != 0.0;
    var t := ArcParameter(E, x, y).value;
    assert forall i :: 0 <= i < |t| ==> t[i] == c[i] / total;
    PartialSumsOrdered(d, c);
    Normalized(c, total, t);
  }

  /** Partial sums of non-negative terms are non-negative and never decrease. */
  lemma PartialSumsOrdered(d: seq<real>, c: seq<real>)
    requires forall k :: 0 <= k < |d| ==> 0.0 <= d[k]
    requires c == PartialSums(d)
    ensures forall i, j :: 0 <= i <= j < |c| ==> 0.0 <= c[i] <= c[j]
  {
    forall i, j | 0 <= i <= j < |c|
      ensures 0.0 <= c[i] <= c[j]
    {
      PartialSumsMonotone(d, 0, i);
      PartialSumsMonotone(d, i, j);
    }
  }

  /** Dividing an ordered run from 0 up to its last value by that value gives an ordered run from 0 to 1. */
  lemma Normalized(c: seq<real>, total: real, t: seq<real>)
    requires |c| >= 1 && c[0] == 0.0 && c[|c| - 1] == total && total != 0.0
    requires forall i, j :: 0 <= i <= j < |c| ==> 0.0 <= c[i] <= c[j]
    requires |t| == |c| && forall i :: 0 <= i < |t| ==> t[i] == c[i] / total
    ensures t[0] == 0.0 && t[|t| - 1] == 1.0
    ensures forall i, j :: 0 <= i <= j < |t| ==> 0.0 <= t[i] <= t[j] <= 1.0
  {
    forall i, j | 0 <= i <= j < |t|
      ensures 0.0 <= t[i] <= t[j] <= 1.0
    {
      ArcStep(c[i], c[j], total);
    }
  }

  lemma ArcStep(a: real, b: real, total: real)
    requires 0.0 <= a <= b <= total && total != 0.0
    ensures 0.0 <= a / total <= b / total <= 1.0
  {
    DivMonotone(a, b, total);
    DivMonotone(b, total, total);
    DivMonotone(0.0, a, total);
  }

  lemma {:induction false} SameAsFirst(x: seq<real>, y: seq<real>, d: seq<real>, i: nat)
    requires |x| == |y| && |d| == |x| - 1 && i < |x|
    requires forall k :: 0 <= k < |d| ==> d[k] == 0.0
    requires forall k :: 0 <= k < |d| ==> (d[k] == 0.0 <==> x[k] == x[k + 1] && y[k] == y[k + 1])
    ensures x[i] == x[0] && y[i] == y[0]
  {
    if i > 0 {
      SameAsFirst(x, y, d, i - 1);
      assert d[i - 1] == 0.0;
    }
  }

  /** A straight source panel, with the fields `create_panels` stores in its dictionary. */
  datatype Panel = Panel(x1: real, y1: real, x2: real, y2: real, xc: real, yc: real,
                         length: real, theta: real, beta: real)

  /**
   * The panel from (x1, y1) to (x2, y2): control point at the midpoint, length the Euclidean
   * distance, `theta` the direction angle and `beta` the outward normal angle a quarter turn on.
   */
  function MakePanel(E: Elementary, x1: real, y1: real, x2: real, y2: real): (p: Panel)
    ensures p.x1 == x1 && p.y1 == y1 && p.x2 == x2 && p.y2 == y2
    ensures p.xc - x1 == x2 - p.xc && p.yc - y1 == y2 - p.yc
    ensures Lawful(E) ==> 0.0 <= p.length && (p.length == 0.0 <==> x1 == x2 && y1 == y2)
    ensures p.theta == E.atan2(y2 - y1, x2 - x1) && p.beta - p.theta == Pi / 2.0
  {
    var theta := E.atan2(y2 - y1, x2 - x1);
    Panel(x1, y1, x2, y2, (x1 + x2) / 2.0, (y1 + y2) / 2.0,
          Dist(E, x2 - x1, y2 - y1), theta, theta + Pi / 2.0)
  }

  /** One panel between each pair of consecutive points. */
  function PanelChain(E: Elementary, xp: seq<real>, yp: seq<real>): (ps: seq<Panel>)
    requires |xp| == |yp| && |xp| >= 1
    ensures |ps| == |xp| - 1
    ensures forall i :: 0 <= i < |ps| ==> ps[i] == MakePanel(E, xp[i], yp[i], xp[i + 1], yp[i + 1])
  {
    seq(|xp| - 1, i requires 0 <= i < |xp| - 1 => MakePanel(E, xp[i], yp[i], xp[i + 1], yp[i + 1]))
  }

  /** Consecutive panels share their end points: each panel ends where the next one starts. */
  predicate Chained(ps: seq<Panel>) {
    forall i :: 0 <= i < |ps| - 1 ==> ps[i].x2 == ps[i + 1].x1 && ps[i].y2 == ps[i + 1].y1
  }

  lemma PanelChainChained(E: Elementary, xp: seq<real>, yp: seq<real>)
    requires |xp| == |yp| && |xp| >= 1
    ensures Chained(PanelChain(E, xp, yp))
  {
  }

  /** `interp1d(t, v, kind='cubic')`: a fit through the knots, or `None` when scipy refuses the data. */
  type Fit = (seq<real>, seq<real>) -> Option<real -> real>

  /** A fit that, when it succeeds, passes through every knot. */
  ghost predicate Interpolates(fit: Fit) {
    forall t: seq<real>, v: seq<real> :: fit(t, v).Some? ==>
      forall i :: 0 <= i < |t| && i < |v| ==> fit(t, v).value(t[i]) == v[i]
  }

  /** The `num_panels + 1` panel end points: the fitted curve sampled at cosine-spaced parameters. */
  function Samples(E: Elementary, f: real -> real, n: nat): (r: seq<real>)
    ensures |r| == n + 1
  {
    var s := CosineSpaced(E, n + 1);
    seq(n + 1, i requires 0 <= i < n + 1 => f(s[i]))
  }

  /**
   * `create_panels`, as a value: `None` where the script would raise (all points coincide, or
   * the spline fit is refused).
   */
  function PanelsOf(E: Elementary, fit: Fit, n: nat, x: seq<real>, y: seq<real>): (r: Option<seq<Panel>>)
    requires |x| == |y| && |x| >= 1
    ensures r.Some? ==> |r.value| == n && Chained(r.value)
  {
    var (cx, cy) := CloseContour(x, y);
    match ArcParameter(E, cx, cy)
    case None => None
    case Some(t) =>
      match (fit(t, cx), fit(t, cy))
      case (Some(fx), Some(fy)) =>
        PanelChainChained(E, Samples(E, fx, n), Samples(E, fy, n));
        Some(PanelChain(E, Samples(E, fx, n), Samples(E, fy, n)))
      case _ => None
  }

  /**
   * With a fit through its knots, the panels start at the first input point and end at the
   * closing point, which is `np.isclose` to it: the panels form a closed loop around the section.
   */
  lemma PanelsClosed(E: Elementary, fit: Fit, n: nat, x: seq<real>, y: seq<real>)
    requires Lawful(E) && Interpolates(fit)
    requires |x| == |y| && |x| >= 1 && n >= 1
    requires PanelsOf(E, fit, n, x, y).Some?
    ensures var ps := PanelsOf(E, fit, n, x, y).value;
      && ps[0].x1 == x[0] && ps[0].y1 == y[0]
      && IsClose(ps[0].x1, ps[n - 1].x2) && IsClose(ps[0].y1, ps[n - 1].y2)
  {
    hide MakePanel, PanelChain, ArcParameter, CloseContour, CosineSpaced;
    var (cx, cy) := CloseContour(x, y);
    ArcParameterRange(E, cx, cy);
    var t := ArcParameter(E, cx, cy).value;
    var fx, fy := fit(t, cx).value, fit(t, cy).value;
    var sx, sy := Samples(E, fx, n), Samples(E, fy, n);
    var ps := PanelChain(E, sx, sy);
    assert PanelsOf(E, fit, n, x, y).value == ps;
    var s := CosineSpaced(E, n + 1);
    CosineSpacedRange(E, n + 1);
    assert ps[0] == MakePanel(E, sx[0], sy[0], sx[1], sy[1]);
    assert ps[0].x1 == sx[0];
    assert sx[0] == fx(s[0]) && sy[0] == fy(s[0]);
    assert ps[n - 1] == MakePanel(E, sx[n - 1], sy[n - 1], sx[n], sy[n]);
    assert sx[n] == fx(s[n]) && sy[n] == fy(s[n]);
    assert fx(t[0]) == cx[0] && fy(t[0]) == cy[0];
    assert fx(t[|t| - 1]) == cx[|cx| - 1] && fy(t[|t| - 1]) == cy[|cy| - 1];
    assert cx[0] == x[0] && cy[0] == y[0];
  }
}
