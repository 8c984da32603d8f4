/**
 * The analytic section generators: the NACA four-digit and five-digit mean lines with the
 * standard thickness distribution, laid on a cosine-spaced set of chord stations and wrapped
 * into one outline from the upper trailing edge round the nose to the lower trailing edge.
 */
module Naca {
  import opened Wrappers
  import opened Numerics

  // ---------------------------------------------------------------- designation codes

  predicate IsDigit(c: char) {
    '0' <= c <= '9'
  }

  predicate IsDigits(s: string) {
    forall i :: 0 <= i < |s| ==> IsDigit(s[i])
  }

  function DigitValue(c: char): nat
    requires IsDigit(c)
  {
    c as int - '0' as int
  }

  /** The decimal numeral of `d`. */
  function DigitChar(d: nat): (c: char)
    requires d < 10
    ensures IsDigit(c) && DigitValue(c) == d
  {
    ('0' as int + d) as char
  }

  /** The value of a decimal numeral, read left to right. */
  function Number(s: string): nat
    requires IsDigits(s)
    decreases |s|
  {
    if s == [] then 0 else Number(s[..|s| - 1]) * 10 + DigitValue(s[|s| - 1])
  }

  /** `int(s)` on a string of decimal digits; any other string makes Python raise `ValueError`. */
  function ParseInt(s: string): (r: Option<nat>)
    ensures r.Some? <==> s != [] && IsDigits(s)
  {
    if s != [] && IsDigits(s) then Some(Number(s)) else None
  }

  lemma SingleDigit(c: char)
    requires IsDigit(c)
    ensures Number([c]) == DigitValue(c) <= 9
  {
    assert [c][..0] == [];
  }

  /** A two-digit numeral with a leading zero, as in the thickness part of a designation. */
  function TwoDigits(v: nat): (s: string)
    requires v < 100
    ensures |s| == 2 && IsDigits(s)
  {
    [DigitChar(v / 10), DigitChar(v % 10)]
  }

  lemma TwoDigitsValue(v: nat)
    requires v < 100
    ensures Number(TwoDigits(v)) == v
  {
    var s := TwoDigits(v);
    assert s[..1][..0] == [];
    assert Number(s[..1]) == v / 10;
  }

  /** Maximum camber, its chordwise position and thickness, as fractions of the chord. */
  datatype Naca4 = Naca4(m: real, p: real, t: real)

  /**
   * The decoding at the top of `naca4_digit`: `m` is the first digit in hundredths, `p` the
   * second in tenths, `t` the rest in hundredths. A code Python cannot decode (too short, or
   * not all digits) gives `None`.
   */
  function DecodeNaca4(code: string): (r: Option<Naca4>)
    ensures r.Some? <==> |code| >= 3 && IsDigits(code)
    ensures r.Some? ==> 0.0 <= r.value.m <= 0.09 && 0.0 <= r.value.p <= 0.9 && 0.0 <= r.value.t
  {
    if |code| < 3 then None
    else
      var a, b, c := ParseInt(code[..1]), ParseInt(code[1..2]), ParseInt(code[2..]);
      assert code == code[..1] + code[1..2] + code[2..];
      assert code[..1] == [code[0]] && code[1..2] == [code[1]];
      if a.None? || b.None? || c.None? then None
      else
        SingleDigit(code[0]);
        SingleDigit(code[1]);
        Some(Naca4(a.value as real / 100.0, b.value as real / 10.0, c.value as real / 100.0))
  }

  /** The four-digit designation with camber digit `a`, position digit `b` and thickness `tt`. */
  function EncodeNaca4(a: nat, b: nat, tt: nat): (code: string)
    requires a < 10 && b < 10 && tt < 100
    ensures |code| == 4 && IsDigits(code)
  {
    [DigitChar(a), DigitChar(b)] + TwoDigits(tt)
  }

  /** Every four-digit designation decodes to the fractions its digits name. */
  lemma {:induction false} DecodeEncode4(a: nat, b: nat, tt: nat)
    requires a < 10 && b < 10 && tt < 100
    ensures DecodeNaca4(EncodeNaca4(a, b, tt))
         == Some(Naca4(a as real / 100.0, b as real / 10.0, tt as real / 100.0))
  {
    var code := EncodeNaca4(a, b, tt);
    assert code[..1][..0] == [] && code[1..2][..0] == [];
    assert code[2..] == TwoDigits(tt);
    TwoDigitsValue(tt);
  }

  /**
   * The decoding at the top of `naca5_digit`: only the thickness is read, from everything after
   * the third character; the mean line constants are fixed.
   */
  function DecodeNaca5(code: string): (t: Option<real>)
    ensures t.Some? <==> |code| > 3 && IsDigits(code[3..])
    ensures t.Some? ==> 0.0 <= t.value
  {
    if |code| <= 3 then None
    else
      match ParseInt(code[3..])
      case Some(c) => Some(c as real / 100.0)
      case None => None
  }

  /** A five-digit designation decodes to its last two digits in hundredths, whatever its first three. */
  lemma {:induction false} DecodeEncode5(series: string, tt: nat)
    requires |series| == 3 && tt < 100
    ensures DecodeNaca5(series + TwoDigits(tt)) == Some(tt as real / 100.0)
  {
    assert (series + TwoDigits(tt))[3..] == TwoDigits(tt);
    TwoDigitsValue(tt);
  }

  // ---------------------------------------------------------------- stations and thickness

  /** `get_cosine_spacing`: `int(n/2) + 1` chord stations, clustered at the nose and the tail. */
  function CosineSpacing(E: Elementary, nPoints: nat): (x: seq<real>)
    ensures |x| == nPoints / 2 + 1
  {
    CosineSpaced(E, nPoints / 2 + 1)
  }

  /** `calculate_thickness`: the half-thickness of the standard NACA distribution at station `x`. */
  function Thickness(E: Elementary, x: real, t: real): real {
    5.0 * t * (0.2969 * E.sqrt(x) - 0.1260 * x - 0.3516 * (x * x) + 0.2843 * (x * x * x) - 0.1015 * (x * x * x * x))
  }

  /**
   * The thickness vanishes at the nose, but not at the tail: these coefficients leave the
   * trailing edge open by a small fraction of the thickness.
   */
  lemma ThicknessEnds(E: Elementary, t: real)
    requires Lawful(E)
    ensures Thickness(E, 0.0, t) == 0.0
    ensures Thickness(E, 1.0, t) == 0.0105 * t
  {
  }

  /** `calculate_thickness` applied to every station. */
  function ThicknessAt(E: Elementary, x: seq<real>, t: real): (yt: seq<real>)
    ensures |yt| == |x|
    ensures forall i :: 0 <= i < |x| ==> yt[i] == Thickness(E, x[i], t)
  {
    seq(|x|, i requires 0 <= i < |x| => Thickness(E, x[i], t))
  }

  // ---------------------------------------------------------------- four-digit mean line

  /** The mean line ahead of maximum camber, and its slope. */
  function Front4(m: real, p: real, x: real): real
    requires p != 0.0
  {
    SquarePositive(p);
    (m / (p * p)) * (2.0 * p * x - x * x)
  }

  function FrontSlope4(m: real, p: real, x: real): real
    requires p != 0.0
  {
    SquarePositive(p);
    (2.0 * m / (p * p)) * (p - x)
  }

  /** The mean line from maximum camber aft, and its slope. */
  function Back4(m: real, p: real, x: real): real
    requires p != 1.0
  {
    var q := 1.0 - p;
    SquarePositive(q);
    (m / (q * q)) * ((1.0 - 2.0 * p) + 2.0 * p * x - x * x)
  }

  function BackSlope4(m: real, p: real, x: real): real
    requires p != 1.0
  {
    var q := 1.0 - p;
    SquarePositive(q);
    (2.0 * m / (q * q)) * (p - x)
  }

  /** The mean line of a section at a station on the chord: flat without camber, else piecewise. */
  function Camber4(c: Naca4, x: real): real
    requires 0.0 <= c.p < 1.0 && 0.0 <= x
  {
    if c.m == 0.0 then 0.0
    else if x < c.p then Front4(c.m, c.p, x)
    else Back4(c.m, c.p, x)
  }

  function Slope4(c: Naca4, x: real): real
    requires 0.0 <= c.p < 1.0 && 0.0 <= x
  {
    if c.m == 0.0 then 0.0
    else if x < c.p then FrontSlope4(c.m, c.p, x)
    else BackSlope4(c.m, c.p, x)
  }

  /** Both pieces reach the maximum camber `m` with zero slope where they meet, at `x = p`. */
  lemma MeanLine4Continuous(m: real, p: real)
    requires 0.0 < p < 1.0
    ensures Front4(m, p, p) == m && Back4(m, p, p) == m
    ensures FrontSlope4(m, p, p) == 0.0 && BackSlope4(m, p, p) == 0.0
  {
    DivSquare(m, p);
    assert 2.0 * p * p - p * p == p * p;
    var q := 1.0 - p;
    DivSquare(m, q);
    assert (1.0 - 2.0 * p) + 2.0 * p * p - p * p == q * q;
  }

  lemma DivSquare(a: real, v: real)
    requires v != 0.0
    ensures 0.0 < v * v && (a / (v * v)) * (v * v) == a
  {
    SquarePositive(v);
  }

  /**
   * The mean line ends on the chord line at the tail, and at the nose unless the camber sits at
   * the nose itself (`p = 0` with camber: the back piece then starts at height `m`).
   */
  lemma MeanLine4Ends(c: Naca4)
    requires 0.0 <= c.p < 1.0
    ensures Camber4(c, 0.0) == (if c.p == 0.0 then c.m else 0.0)
    ensures Camber4(c, 1.0) == 0.0
  {
    assert (1.0 - 2.0 * c.p) + 2.0 * c.p * 1.0 - 1.0 * 1.0 == 0.0;
  }

  /** A section without camber has a flat mean line: zero height and slope at every station. */
  lemma MeanLine4Flat(c: Naca4, x: real)
    requires 0.0 <= c.p < 1.0 && 0.0 <= x && c.m == 0.0
    ensures Camber4(c, x) == 0.0 && Slope4(c, x) == 0.0
  {
  }

  function MeanLine4(c: Naca4, x: seq<real>): (yc: seq<real>)
    requires 0.0 <= c.p < 1.0 && forall i :: 0 <= i < |x| ==> 0.0 <= x[i]
    ensures |yc| == |x|
  {
    seq(|x|, i requires 0 <= i < |x| => Camber4(c, x[i]))
  }

  function MeanSlope4(c: Naca4, x: seq<real>): (dyc: seq<real>)
    requires 0.0 <= c.p < 1.0 && forall i :: 0 <= i < |x| ==> 0.0 <= x[i]
    ensures |dyc| == |x|
  {
    seq(|x|, i requires 0 <= i < |x| => Slope4(c, x[i]))
  }

  // ---------------------------------------------------------------- five-digit mean line

  /** The fixed constants of the 230 mean line: `m`, the switch station `p`, and `k1`. */
  const M5: real := 0.2025
  const P5: real := 0.15
  const K1: real := 15.957

  function Front5(x: real): real {
    (K1 / 6.0) * (x * x * x - 3.0 * M5 * (x * x) + (M5 * M5) * (3.0 - M5) * x)
  }

  function FrontSlope5(x: real): real {
    (K1 / 6.0) * (3.0 * (x * x) - 6.0 * M5 * x + (M5 * M5) * (3.0 - M5))
  }

  function Back5(x: real): real {
    (K1 * (M5 * M5 * M5) / 6.0) * (1.0 - x)
  }

  function BackSlope5(): real {
    -(K1 * (M5 * M5 * M5) / 6.0)
  }

  /** The five-digit mean line: the cubic ahead of station `P5`, the straight line from there aft. */
  function Camber5(x: real): real {
    if x < P5 then Front5(x) else Back5(x)
  }

  function Slope5(x: real): real {
    if x < P5 then FrontSlope5(x) else BackSlope5()
  }

  /** The five-digit mean line starts and ends on the chord line. */
  lemma MeanLine5Ends()
    ensures Camber5(0.0) == 0.0 && Camber5(1.0) == 0.0
  {
  }

  /** The cubic and the straight line meet, in height and in slope, at `x = m`. */
  lemma MeanLine5MeetAtM()
    ensures Front5(M5) == Back5(M5)
    ensures FrontSlope5(M5) == BackSlope5()
  {
  }

  /** Switching pieces at `P5 = 0.15` instead leaves a step in height and a kink in slope there. */
  lemma MeanLine5StepAtP()
    ensures Front5(P5) != Back5(P5)
    ensures FrontSlope5(P5) != BackSlope5()
  {
  }

  function MeanLine5(x: seq<real>): (yc: seq<real>)
    ensures |yc| == |x|
  {
    seq(|x|, i requires 0 <= i < |x| => Camber5(x[i]))
  }

  function MeanSlope5(x: seq<real>): (dyc: seq<real>)
    ensures |dyc| == |x|
  {
    seq(|x|, i requires 0 <= i < |x| => Slope5(x[i]))
  }

  // ---------------------------------------------------------------- surfaces and outline

  /** The upper and lower surface points of one station. */
  datatype Station = Station(xu: real, yu: real, xl: real, yl: real)

  /**
   * The thickness laid off on both sides of the mean line, perpendicular to it: the two surface
   * points are mirror images through the mean line point, and coincide where the thickness is zero.
   */
  function Surfaces(E: Elementary, x: real, yt: real, yc: real, dyc: real): (s: Station)
    ensures (s.xu + s.xl) / 2.0 == x && (s.yu + s.yl) / 2.0 == yc
    ensures yt == 0.0 ==> s.xu == x && s.xl == x && s.yu == yc && s.yl == yc
  {
    var theta := E.atan(dyc);
    Station(x - yt * E.sin(theta), yc + yt * E.cos(theta), x + yt * E.sin(theta), yc - yt * E.cos(theta))
  }

  function Reverse(s: seq<real>): (r: seq<real>)
    ensures |r| == |s| && forall i :: 0 <= i < |s| ==> r[i] == s[|s| - 1 - i]
  {
    seq(|s|, i requires 0 <= i < |s| => s[|s| - 1 - i])
  }

  /**
   * `np.concatenate((upper[::-1], lower[1:]))`: the upper surface from the tail to the nose, then
   * the lower surface from behind the nose to the tail.
   */
  function Wrap(upper: seq<real>, lower: seq<real>): (r: seq<real>)
    requires |upper| == |lower| >= 1
    ensures |r| == 2 * |upper| - 1
    ensures forall i :: 0 <= i < |upper| ==> r[i] == upper[|upper| - 1 - i]
    ensures forall j :: |upper| <= j < |r| ==> r[j] == lower[j - |upper| + 1]
  {
    Reverse(upper) + lower[1..]
  }

  /** The generated coordinates: `x` and `y` in outline order. */
  datatype Outline = Outline(x: seq<real>, y: seq<real>)

  function StationsOf(E: Elementary, x: seq<real>, yt: seq<real>, yc: seq<real>, dyc: seq<real>): (s: seq<Station>)
    requires |yt| == |x| && |yc| == |x| && |dyc| == |x|
    ensures |s| == |x|
    ensures forall i :: 0 <= i < |x| ==> s[i] == Surfaces(E, x[i], yt[i], yc[i], dyc[i])
  {
    seq(|x|, i requires 0 <= i < |x| => Surfaces(E, x[i], yt[i], yc[i], dyc[i]))
  }

  /** The tail of both generators: surface points at every station, wrapped into one outline. */
  function Sections(E: Elementary, x: seq<real>, yt: seq<real>, yc: seq<real>, dyc: seq<real>): (r: Outline)
    requires |x| >= 1 && |yt| == |x| && |yc| == |x| && |dyc| == |x|
    ensures |r.x| == 2 * |x| - 1 && |r.y| == 2 * |x| - 1
  {
    var s := StationsOf(E, x, yt, yc, dyc);
    Outline(Wrap(Column(s, 0), Column(s, 2)), Wrap(Column(s, 1), Column(s, 3)))
  }

  /** One coordinate of every station: 0 `xu`, 1 `yu`, 2 `xl`, 3 `yl`. */
  function Column(s: seq<Station>, c: nat): (r: seq<real>)
    requires c < 4
    ensures |r| == |s|
    ensures forall i :: 0 <= i < |s| ==> r[i] == Coordinate(s[i], c)
  {
    seq(|s|, i requires 0 <= i < |s| => Coordinate(s[i], c))
  }

  function Coordinate(st: Station, c: nat): real
    requires c < 4
  {
    if c == 0 then st.xu else if c == 1 then st.yu else if c == 2 then st.xl else st.yl
  }

  /**
   * Where each outline point comes from: the first `|x|` points are the upper surface from the
   * last station to the first, the rest the lower surface from the second station on.
   */
  lemma {:induction false} SectionsPoints(E: Elementary, x: seq<real>, yt: seq<real>, yc: seq<real>, dyc: seq<real>)
    requires |x| >= 1 && |yt| == |x| && |yc| == |x| && |dyc| == |x|
    ensures var r, k := Sections(E, x, yt, yc, dyc), |x|;
      && (forall i :: 0 <= i < k ==>
            var s := Surfaces(E, x[k - 1 - i], yt[k - 1 - i], yc[k - 1 - i], dyc[k - 1 - i]);
            r.x[i] == s.xu && r.y[i] == s.yu)
      && (forall j :: k <= j < 2 * k - 1 ==>
            var s := Surfaces(E, x[j - k + 1], yt[j - k + 1], yc[j - k + 1], dyc[j - k + 1]);
            r.x[j] == s.xl && r.y[j] == s.yl)
  {
    hide Surfaces, Wrap, Column, StationsOf;
    var r, k, st := Sections(E, x, yt, yc, dyc), |x|, StationsOf(E, x, yt, yc, dyc);
    assert r == Outline(Wrap(Column(st, 0), Column(st, 2)), Wrap(Column(st, 1), Column(st, 3)));
  }

  /**
   * Dropping the lower surface's first point loses nothing when the thickness vanishes at the
   * first station: the nose point of the outline is that point too.
   */
  lemma {:induction false} SectionsNose(E: Elementary, x: seq<real>, yt: seq<real>, yc: seq<real>, dyc: seq<real>)
    requires |x| >= 1 && |yt| == |x| && |yc| == |x| && |dyc| == |x|
    requires yt[0] == 0.0
    ensures var r, s := Sections(E, x, yt, yc, dyc), Surfaces(E, x[0], yt[0], yc[0], dyc[0]);
      r.x[|x| - 1] == s.xl && r.y[|x| - 1] == s.yl
  {
    hide Sections, Surfaces;
    SectionsPoints(E, x, yt, yc, dyc);
  }

  /** The first and last points of the outline are the two surface points of the last station. */
  lemma {:induction false} SectionsTail(E: Elementary, x: seq<real>, yt: seq<real>, yc: seq<real>, dyc: seq<real>)
    requires |x| >= 2 && |yt| == |x| && |yc| == |x| && |dyc| == |x|
    ensures var r, n := Sections(E, x, yt, yc, dyc), 2 * |x| - 1;
      (r.x[0] + r.x[n - 1]) / 2.0 == x[|x| - 1] && (r.y[0] + r.y[n - 1]) / 2.0 == yc[|x| - 1]
  {
    hide Sections, Surfaces;
    var r, k := Sections(E, x, yt, yc, dyc), |x|;
    SectionsPoints(E, x, yt, yc, dyc);
    var s := Surfaces(E, x[k - 1], yt[k - 1], yc[k - 1], dyc[k - 1]);
    assert r.x[0] == s.xu && r.y[0] == s.yu;
    assert r.x[2 * k - 2] == s.xl && r.y[2 * k - 2] == s.yl;
  }

  /** Over a flat mean line a station's surface points are the station, the thickness above and below. */
  lemma FlatStation(E: Elementary, x: real, yt: real)
    requires Lawful(E)
    ensures Surfaces(E, x, yt, 0.0, 0.0) == Station(x, yt, x, -yt)
  {
  }

  /** Over a flat mean line the outline is symmetric: point `i` mirrors point `n - 1 - i` in the chord line. */
  lemma {:induction false} SectionsSymmetric(E: Elementary, x: seq<real>, yt: seq<real>, yc: seq<real>, dyc: seq<real>)
    requires Lawful(E)
    requires |x| >= 1 && |yt| == |x| && |yc| == |x| && |dyc| == |x|
    requires yt[0] == 0.0
    requires forall i :: 0 <= i < |x| ==> yc[i] == 0.0 && dyc[i] == 0.0
    ensures var r, n := Sections(E, x, yt, yc, dyc), 2 * |x| - 1;
      forall i :: 0 <= i < n ==> r.x[i] == r.x[n - 1 - i] && r.y[i] == -r.y[n - 1 - i]
  {
    hide Sections, Surfaces;
    var r, k := Sections(E, x, yt, yc, dyc), |x|;
    var n := 2 * k - 1;
    forall i | 0 <= i < n
      ensures r.x[i] == r.x[n - 1 - i] && r.y[i] == -r.y[n - 1 - i]
    {
      if i < k {
        MirrorPoint(E, x, yt, yc, dyc, i);
      } else {
        MirrorPoint(E, x, yt, yc, dyc, n - 1 - i);
      }
    }
  }

  /** One point of the upper surface and its mirror image on the lower surface, over a flat mean line. */
  lemma {:induction false} MirrorPoint(E: Elementary, x: seq<real>, yt: seq<real>, yc: seq<real>, dyc: seq<real>, i: nat)
    requires Lawful(E)
    requires |x| >= 1 && |yt| == |x| && |yc| == |x| && |dyc| == |x|
    requires yt[0] == 0.0
    requires forall i :: 0 <= i < |x| ==> yc[i] == 0.0 && dyc[i] == 0.0
    requires i < |x|
    ensures var r, n := Sections(E, x, yt, yc, dyc), 2 * |x| - 1;
      r.x[i] == r.x[n - 1 - i] && r.y[i] == -r.y[n - 1 - i]
  {
    hide Sections, Surfaces;
    var r, k := Sections(E, x, yt, yc, dyc), |x|;
    var j := k - 1 - i;
    SectionsPoints(E, x, yt, yc, dyc);
    var s := Surfaces(E, x[j], yt[j], yc[j], dyc[j]);
    assert yc[j] == 0.0 && dyc[j] == 0.0;
    FlatStation(E, x[j], yt[j]);
    assert s == Station(x[j], yt[j], x[j], -yt[j]);
    assert r.x[i] == x[j] && r.y[i] == yt[j];
    if j != 0 {
      assert r.x[2 * k - 2 - i] == x[j] && r.y[2 * k - 2 - i] == -yt[j];
    }
  }

  // ---------------------------------------------------------------- the generators

  /** What `naca4_digit` returns, or `None` where decoding the code raises. */
  function Naca4Of(E: Elementary, code: string, nPoints: nat): (r: Option<Outline>)
    requires Lawful(E)
    ensures r.Some? <==> |code| >= 3 && IsDigits(code)
    ensures r.Some? ==> |r.value.x| == 2 * (nPoints / 2) + 1 && |r.value.y| == 2 * (nPoints / 2) + 1
  {
    match DecodeNaca4(code)
    case None => None
    case Some(c) =>
      var x := CosineSpacing(E, nPoints);
      CosineSpacedRange(E, |x|);
      Some(Sections(E, x, ThicknessAt(E, x, c.t), MeanLine4(c, x), MeanSlope4(c, x)))
  }

  /** What `naca5_digit` returns, or `None` where decoding the thickness raises. */
  function Naca5Of(E: Elementary, code: string, nPoints: nat): (r: Option<Outline>)
    ensures r.Some? <==> |code| > 3 && IsDigits(code[3..])
    ensures r.Some? ==> |r.value.x| == 2 * (nPoints / 2) + 1 && |r.value.y| == 2 * (nPoints / 2) + 1
  {
    match DecodeNaca5(code)
    case None => None
    case Some(t) =>
      var x := CosineSpacing(E, nPoints);
      Some(Sections(E, x, ThicknessAt(E, x, t), MeanLine5(x), MeanSlope5(x)))
  }

  /** `naca4_digit`: decode, space the stations, then wrap the surfaces round the mean line. */
  method Naca4Digit(E: Elementary, code: string, nPoints: nat) returns (r: Option<Outline>)
    requires Lawful(E)
    ensures r == Naca4Of(E, code, nPoints)
  {
    var decoded := DecodeNaca4(code);
    if decoded.None? {
      return None;
    }
    var c := decoded.value;
    var x := CosineSpacing(E, nPoints);
    CosineSpacedRange(E, |x|);
    var yt := ThicknessAt(E, x, c.t);
    var yc, dyc := FillMeanLine4(c, x);
    r := Some(Sections(E, x, yt, yc, dyc));
  }

  /** The loop of `naca4_digit`: the mean line height and slope are stored station by station. */
  method FillMeanLine4(c: Naca4, x: seq<real>) returns (yc: seq<real>, dyc: seq<real>)
    requires 0.0 <= c.p < 1.0 && forall i :: 0 <= i < |x| ==> 0.0 <= x[i]
    ensures yc == MeanLine4(c, x) && dyc == MeanSlope4(c, x)
  {
    var a := new real[|x|];
    var b := new real[|x|];
    for i := 0 to |x|
      invariant forall k :: 0 <= k < i ==> a[k] == Camber4(c, x[k]) && b[k] == Slope4(c, x[k])
    {
      if c.m == 0.0 {
        a[i], b[i] := 0.0, 0.0;
      } else if x[i] < c.p {
        a[i] := Front4(c.m, c.p, x[i]);
        b[i] := FrontSlope4(c.m, c.p, x[i]);
      } else {
        a[i] := Back4(c.m, c.p, x[i]);
        b[i] := BackSlope4(c.m, c.p, x[i]);
      }
    }
    yc, dyc := a[..], b[..];
  }

  /** `naca5_digit`: decode the thickness, space the stations, then wrap the surfaces round the mean line. */
  method Naca5Digit(E: Elementary, code: string, nPoints: nat) returns (r: Option<Outline>)
    ensures r == Naca5Of(E, code, nPoints)
  {
    var t := DecodeNaca5(code);
    if t.None? {
      return None;
    }
    var x := CosineSpacing(E, nPoints);
    var yt := ThicknessAt(E, x, t.value);
    var yc, dyc := FillMeanLine5(x);
    r := Some(Sections(E, x, yt, yc, dyc));
  }

  /** The loop of `naca5_digit`: the mean line height and slope are stored station by station. */
  method FillMeanLine5(x: seq<real>) returns (yc: seq<real>, dyc: seq<real>)
    ensures yc == MeanLine5(x) && dyc == MeanSlope5(x)
  {
    var a := new real[|x|];
    var b := new real[|x|];
    for i := 0 to |x|
      invariant forall k :: 0 <= k < i ==> a[k] == Camber5(x[k]) && b[k] == Slope5(x[k])
    {
      if x[i] < P5 {
        a[i] := Front5(x[i]);
        b[i] := FrontSlope5(x[i]);
      } else {
        a[i] := Back5(x[i]);
        b[i] := BackSlope5();
      }
    }
    yc, dyc := a[..], b[..];
  }

  /**
   * The nose of a four-digit outline is the point in the middle, at the origin unless the
   * camber sits at the nose; the lower surface's dropped first point is that same point.
   */
  lemma {:induction false} Naca4Nose(E: Elementary, code: string, nPoints: nat)
    requires Lawful(E) && |code| >= 3 && IsDigits(code)
    ensures var r, c, h := Naca4Of(E, code, nPoints).value, DecodeNaca4(code).value, nPoints / 2;
      r.x[h] == 0.0 && r.y[h] == (if c.p == 0.0 then c.m else 0.0)
  {
    hide Sections, Surfaces;
    var c := DecodeNaca4(code).value;
    var x := CosineSpacing(E, nPoints);
    CosineSpacedRange(E, |x|);
    ThicknessEnds(E, c.t);
    MeanLine4Ends(c);
    SectionsNose(E, x, ThicknessAt(E, x, c.t), MeanLine4(c, x), MeanSlope4(c, x));
  }

  /**
   * The two trailing-edge points of a four-digit outline, its first and last, lie symmetrically
   * about the tail of the chord, (1, 0).
   */
  lemma {:induction false} Naca4Tail(E: Elementary, code: string, nPoints: nat)
    requires Lawful(E) && |code| >= 3 && IsDigits(code) && nPoints >= 2
    ensures var r, n := Naca4Of(E, code, nPoints).value, 2 * (nPoints / 2) + 1;
      (r.x[0] + r.x[n - 1]) / 2.0 == 1.0 && (r.y[0] + r.y[n - 1]) / 2.0 == 0.0
  {
    var c := DecodeNaca4(code).value;
    var x := CosineSpacing(E, nPoints);
    var k := |x|;
    CosineSpacedRange(E, k);
    MeanLine4Ends(c);
    var yc := MeanLine4(c, x);
    assert x[k - 1] == 1.0;
    assert yc[k - 1] == 0.0;
    SectionsTail(E, x, ThicknessAt(E, x, c.t), yc, MeanSlope4(c, x));
  }

  /** A four-digit section without camber (first digit 0) is symmetric about the chord line. */
  lemma {:induction false} Naca4Symmetric(E: Elementary, code: string, nPoints: nat)
    requires Lawful(E) && |code| >= 3 && IsDigits(code) && code[0] == '0'
    ensures var r, n := Naca4Of(E, code, nPoints).value, 2 * (nPoints / 2) + 1;
      forall i :: 0 <= i < n ==> r.x[i] == r.x[n - 1 - i] && r.y[i] == -r.y[n - 1 - i]
  {
    var c := DecodeNaca4(code).value;
    assert code[..1] == ['0'];
    assert c.m == 0.0;
    var x := CosineSpacing(E, nPoints);
    CosineSpacedRange(E, |x|);
    ThicknessEnds(E, c.t);
    SectionsSymmetric(E, x, ThicknessAt(E, x, c.t), MeanLine4(c, x), MeanSlope4(c, x));
  }
  /** The nose of a five-digit outline is the origin: the thickness and the mean line both vanish there. */
  lemma {:induction false} Naca5Nose(E: Elementary, code: string, nPoints: nat)
    requires Lawful(E) && |code| > 3 && IsDigits(code[3..])
    ensures var r, h := Naca5Of(E, code, nPoints).value, nPoints / 2;
      r.x[h] == 0.0 && r.y[h] == 0.0
  {
    hide Sections, Surfaces;
    var t := DecodeNaca5(code).value;
    var x := CosineSpacing(E, nPoints);
    CosineSpacedRange(E, |x|);
    ThicknessEnds(E, t);
    MeanLine5Ends();
    SectionsNose(E, x, ThicknessAt(E, x, t), MeanLine5(x), MeanSlope5(x));
  }

  /** The two trailing-edge points of a five-digit outline lie symmetrically about (1, 0). */
  lemma {:induction false} Naca5Tail(E: Elementary, code: string, nPoints: nat)
    requires Lawful(E) && |code| > 3 && IsDigits(code[3..]) && nPoints >= 2
    ensures var r, n := Naca5Of(E, code, nPoints).value, 2 * (nPoints / 2) + 1;
      (r.x[0] + r.x[n - 1]) / 2.0 == 1.0 && (r.y[0] + r.y[n - 1]) / 2.0 == 0.0
  {
    hide Sections, Surfaces;
    var t := DecodeNaca5(code).value;
    var x := CosineSpacing(E, nPoints);
    var k := |x|;
    CosineSpacedRange(E, k);
    MeanLine5Ends();
    var yc := MeanLine5(x);
    assert x[k - 1] == 1.0;
    assert yc[k - 1] == 0.0;
    SectionsTail(E, x, ThicknessAt(E, x, t), yc, MeanSlope5(x));
  }
}
