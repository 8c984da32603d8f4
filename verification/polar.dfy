/**
 * The XFOIL polar table, as both `PanelMethodAirfoil.load_xfoil_polar` and
 * `AirfoilCFDAnalyzer.parse_results` read it: header lines up to the first line holding
 * `---`, then one row per data line.
 */
module Polar {
  import opened Wrappers
  import opened Text
  import opened Sorting

  /** The columns the scripts keep from a polar row, and the derived lift-to-drag ratio. */
  datatype PolarRow = PolarRow(alpha: real, cl: real, cd: real, cm: real, ld: real)

  function AlphaOf(r: PolarRow): real {
    r.alpha
  }

  /** `CL/CD if CD != 0 else 0` */
  function LiftToDrag(cl: real, cd: real): (r: real)
    ensures cd != 0.0 ==> r * cd == cl
    ensures cd == 0.0 ==> r == 0.0
  {
    if cd != 0.0 then cl / cd else 0.0
  }

  /**
   * One data line: alpha, CL and CD from tokens 0 to 2 and CM from token 4 (token 3 is never
   * read); a line with fewer than five tokens or an unparsable one of those four yields no row.
   */
  function ParseRow(parse: string -> Option<real>, line: string): (r: Option<PolarRow>)
    ensures |Split(line)| < 5 ==> r.None?
    ensures r.Some? ==>
      var p := Split(line);
      && |p| >= 5
      && parse(p[0]) == Some(r.value.alpha)
      && parse(p[1]) == Some(r.value.cl)
      && parse(p[2]) == Some(r.value.cd)
      && parse(p[4]) == Some(r.value.cm)
      && r.value.ld == LiftToDrag(r.value.cl, r.value.cd)
    ensures r.None? && |Split(line)| >= 5 ==>
      var p := Split(line);
      parse(p[0]).None? || parse(p[1]).None? || parse(p[2]).None? || parse(p[4]).None?
  {
    var p := Split(line);
    if |p| < 5 then None
    else
      match (parse(p[0]), parse(p[1]), parse(p[2]), parse(p[4]))
      case (Some(alpha), Some(cl), Some(cd), Some(cm)) => Some(PolarRow(alpha, cl, cd, cm, LiftToDrag(cl, cd)))
      case _ => None
  }

  /** `"---" in line` */
  predicate IsMarker(line: string) {
    Contains(line, "---")
  }

  /** The loop state: the rows gathered so far and the `parsing` flag. */
  datatype ScanState = ScanState(rows: seq<PolarRow>, parsing: bool)

  /** One iteration of the line loop. */
  function ScanLine(parse: string -> Option<real>, st: ScanState, line: string): ScanState {
    if IsMarker(line) then ScanState(st.rows, true)
    else if st.parsing && Strip(line) != [] then
      match ParseRow(parse, line)
      case Some(row) => ScanState(st.rows + [row], true)
      case None => st
    else st
  }

  /** The state after the loop has seen `lines`, in order. */
  function Scan(parse: string -> Option<real>, lines: seq<string>): ScanState
    decreases |lines|
  {
    if lines == [] then ScanState([], false)
    else ScanLine(parse, Scan(parse, lines[..|lines| - 1]), lines[|lines| - 1])
  }

  /** The index of the first line holding `---`, if any. */
  function FirstMarker(lines: seq<string>): (r: Option<nat>)
    ensures r.Some? ==> r.value < |lines| && IsMarker(lines[r.value])
    ensures r.Some? ==> forall k :: 0 <= k < r.value ==> !IsMarker(lines[k])
    ensures r.None? ==> forall k :: 0 <= k < |lines| ==> !IsMarker(lines[k])
    decreases |lines|
  {
    if lines == [] then None
    else if IsMarker(lines[0]) then Some(0)
    else
      match FirstMarker(lines[1..])
      case Some(k) => Some(k + 1)
      case None => None
  }

  /** What one line contributes once the table has started. */
  function LineRow(parse: string -> Option<real>, line: string): seq<PolarRow> {
    if !IsMarker(line) && Strip(line) != [] && ParseRow(parse, line).Some? then [ParseRow(parse, line).value] else []
  }

  function DataRows(parse: string -> Option<real>, lines: seq<string>): seq<PolarRow>
    decreases |lines|
  {
    if lines == [] then [] else LineRow(parse, lines[0]) + DataRows(parse, lines[1..])
  }

  /**
   * Reference reading of a polar file: nothing before the first `---` line; after it, every
   * line that is neither a `---` line, nor blank, nor unparsable gives one row, in file order.
   */
  function TableRows(parse: string -> Option<real>, lines: seq<string>): seq<PolarRow> {
    match FirstMarker(lines)
    case None => []
    case Some(k) => DataRows(parse, lines[k + 1..])
  }

  lemma {:induction false} DataRowsAppend(parse: string -> Option<real>, lines: seq<string>, line: string)
    ensures DataRows(parse, lines + [line]) == DataRows(parse, lines) + LineRow(parse, line)
    decreases |lines|
  {
    if lines == [] {
      assert ([line])[1..] == [];
    } else {
      assert (lines + [line])[1..] == lines[1..] + [line];
      DataRowsAppend(parse, lines[1..], line);
    }
  }

  lemma {:induction false} FirstMarkerAppend(lines: seq<string>, line: string)
    ensures FirstMarker(lines + [line]) ==
      if FirstMarker(lines).Some? then FirstMarker(lines)
      else if IsMarker(line) then Some(|lines|)
      else None
    decreases |lines|
  {
    if lines == [] {
      assert ([line])[1..] == [];
    } else {
      assert (lines + [line])[0] == lines[0];
      assert (lines + [line])[1..] == lines[1..] + [line];
      FirstMarkerAppend(lines[1..], line);
    }
  }

  /** The line loop computes exactly the reference reading, and ends in parsing mode iff a `---` line was seen. */
  lemma {:induction false} ScanIsTable(parse: string -> Option<real>, lines: seq<string>)
    ensures Scan(parse, lines) == ScanState(TableRows(parse, lines), FirstMarker(lines).Some?)
    decreases |lines|
  {
    if lines != [] {
      var init, line := lines[..|lines| - 1], lines[|lines| - 1];
      assert lines == init + [line];
      ScanIsTable(parse, init);
      ScanStep(parse, init, line);
    }
  }

  lemma ScanStep(parse: string -> Option<real>, init: seq<string>, line: string)
    requires Scan(parse, init) == ScanState(TableRows(parse, init), FirstMarker(init).Some?)
    ensures Scan(parse, init + [line]) == ScanState(TableRows(parse, init + [line]), FirstMarker(init + [line]).Some?)
  {
    hide ParseRow, Strip, Split, Contains, ScanLine;
    var lines := init + [line];
    assert lines[..|lines| - 1] == init;
    assert Scan(parse, lines) == ScanLine(parse, Scan(parse, init), line);
    FirstMarkerAppend(init, line);
    match FirstMarker(init)
    case Some(k) =>
      SuffixSnoc(init, line, k + 1);
      DataRowsAppend(parse, init[k + 1..], line);
      ScanLineParsing(parse, TableRows(parse, init), line);
    case None =>
      ScanLineIdle(parse, line);
      if IsMarker(line) {
        assert lines[|init| + 1..] == [];
      }
  }

  /** Once the table has started, a line adds exactly its own row, if any. */
  lemma ScanLineParsing(parse: string -> Option<real>, rows: seq<PolarRow>, line: string)
    ensures ScanLine(parse, ScanState(rows, true), line) == ScanState(rows + LineRow(parse, line), true)
  {
    hide ParseRow, Strip, Contains;
  }

  /** Before the table, a line only switches parsing on when it is a `---` line. */
  lemma ScanLineIdle(parse: string -> Option<real>, line: string)
    ensures ScanLine(parse, ScanState([], false), line) == ScanState([], IsMarker(line))
  {
    hide ParseRow, Strip, Contains;
  }

  lemma SuffixSnoc<T>(s: seq<T>, x: T, k: nat)
    requires k <= |s|
    ensures (s + [x])[k..] == s[k..] + [x]
  {
  }

  /** The alpha column. */
  function Alphas(rows: seq<PolarRow>): (a: seq<real>)
    ensures |a| == |rows|
    ensures forall i :: 0 <= i < |rows| ==> a[i] == rows[i].alpha
  {
    seq(|rows|, i requires 0 <= i < |rows| => rows[i].alpha)
  }

  /**
   * `drop_duplicates(subset=['alpha'])`: the rows in order, without any row whose alpha an
   * earlier row already has. Every alpha of the input stays represented.
   */
  function DedupAlpha(rows: seq<PolarRow>): (r: seq<PolarRow>)
    ensures DistinctKeys(r, AlphaOf)
    ensures forall x :: x in r ==> x in rows
    ensures forall x :: x in rows ==> x.alpha in Alphas(r)
    decreases |rows|
  {
    if rows == [] then []
    else
      var d := DedupAlpha(rows[..|rows| - 1]);
      var last := rows[|rows| - 1];
      assert rows == rows[..|rows| - 1] + [last];
      if last.alpha in Alphas(d) then d
      else
        DedupStep(rows[..|rows| - 1], d, last);
        d + [last]
  }

  /** Appending a row with a new alpha keeps every earlier alpha represented and adds its own. */
  lemma DedupStep(init: seq<PolarRow>, d: seq<PolarRow>, last: PolarRow)
    requires forall x :: x in init ==> x.alpha in Alphas(d)
    requires last.alpha !in Alphas(d)
    ensures forall x :: x in init + [last] ==> x.alpha in Alphas(d + [last])
    ensures forall i :: 0 <= i < |d| ==> d[i].alpha != last.alpha
  {
    var r := d + [last];
    forall x | x in init + [last]
      ensures x.alpha in Alphas(r)
    {
      if x == last {
        assert Alphas(r)[|d|] == last.alpha;
      } else {
        assert x in init;
        var i :| 0 <= i < |d| && Alphas(d)[i] == x.alpha;
        assert Alphas(r)[i] == x.alpha;
      }
    }
    forall i | 0 <= i < |d|
      ensures d[i].alpha != last.alpha
    {
      assert Alphas(d)[i] == d[i].alpha;
    }
  }

  /** The first row carrying a given alpha. */
  function FirstWithAlpha(rows: seq<PolarRow>, a: real): (r: Option<PolarRow>)
    decreases |rows|
  {
    if rows == [] then None
    else if rows[0].alpha == a then Some(rows[0])
    else FirstWithAlpha(rows[1..], a)
  }

  lemma {:induction false} FirstWithAlphaAppend(rows: seq<PolarRow>, last: PolarRow, a: real)
    ensures FirstWithAlpha(rows + [last], a) ==
      if FirstWithAlpha(rows, a).Some? then FirstWithAlpha(rows, a)
      else if last.alpha == a then Some(last)
      else None
    decreases |rows|
  {
    if rows == [] {
      assert ([last])[1..] == [];
    } else {
      assert (rows + [last])[1..] == rows[1..] + [last];
      FirstWithAlphaAppend(rows[1..], last, a);
    }
  }

  lemma {:induction false} FirstWithAlphaFound(rows: seq<PolarRow>, a: real)
    ensures FirstWithAlpha(rows, a).Some? <==> a in Alphas(rows)
    ensures FirstWithAlpha(rows, a).Some? ==> FirstWithAlpha(rows, a).value.alpha == a
    decreases |rows|
  {
    if rows != [] {
      FirstWithAlphaFound(rows[1..], a);
      assert Alphas(rows) == [rows[0].alpha] + Alphas(rows[1..]);
    }
  }

  /** Every row that deduplication keeps is the first row of the input with that alpha. */
  lemma {:induction false} DedupKeepsFirst(rows: seq<PolarRow>)
    ensures forall x :: x in DedupAlpha(rows) ==> FirstWithAlpha(rows, x.alpha) == Some(x)
    decreases |rows|
  {
    if rows != [] {
      var init, last := rows[..|rows| - 1], rows[|rows| - 1];
      assert rows == init + [last];
      DedupKeepsFirst(init);
      var d := DedupAlpha(init);
      forall x | x in DedupAlpha(rows)
        ensures FirstWithAlpha(rows, x.alpha) == Some(x)
      {
        FirstWithAlphaAppend(init, last, x.alpha);
        FirstWithAlphaFound(init, x.alpha);
        if x in d {
          assert FirstWithAlpha(init, x.alpha) == Some(x);
        } else {
          assert x == last;
          forall i | 0 <= i < |init|
            ensures init[i].alpha != last.alpha
          {
            assert init[i] in init;
          }
        }
      }
    }
  }

  /**
   * What `parse_results` records for a polar: deduplicated on alpha, then sorted on alpha.
   * Alphas strictly increase, each kept row is the first of its alpha in the file, and every
   * alpha of the file appears.
   */
  function StoredPolar(rows: seq<PolarRow>): (r: seq<PolarRow>)
    ensures StrictlySortedBy(r, AlphaOf)
    ensures forall x :: x in r ==> x in rows && FirstWithAlpha(rows, x.alpha) == Some(x)
    ensures forall x :: x in rows ==> x.alpha in Alphas(r)
  {
    var d := DedupAlpha(rows);
    var r := SortBy(d, AlphaOf);
    SortDistinctStrict(d, AlphaOf);
    DedupKeepsFirst(rows);
    SameElements(rows, d, r);
    r
  }

  /** A reordering of the deduplicated rows has the same rows and the same alphas. */
  lemma SameElements(rows: seq<PolarRow>, d: seq<PolarRow>, r: seq<PolarRow>)
    requires multiset(r) == multiset(d)
    requires forall x :: x in rows ==> x.alpha in Alphas(d)
    ensures forall x :: x in r <==> x in d
    ensures forall x :: x in rows ==> x.alpha in Alphas(r)
  {
    forall x
      ensures x in r <==> x in d
    {
      assert x in r <==> x in multiset(r);
      assert x in d <==> x in multiset(d);
    }
    forall x | x in rows
      ensures x.alpha in Alphas(r)
    {
      var i :| 0 <= i < |d| && Alphas(d)[i] == x.alpha;
      assert d[i] in r;
      var j :| 0 <= j < |r| && r[j] == d[i];
      assert Alphas(r)[j] == x.alpha;
    }
  }

  /** The stored table is empty exactly when no row was read. */
  lemma {:induction false} StoredPolarEmpty(rows: seq<PolarRow>)
    ensures StoredPolar(rows) == [] <==> rows == []
  {
    if rows != [] {
      assert rows[0] in rows;
      assert rows[0].alpha in Alphas(StoredPolar(rows));
    } else {
      assert DedupAlpha(rows) == [];
    }
  }

  /**
   * What `load_xfoil_polar` returns: `None` for a missing file or a table without rows,
   * otherwise every row of the table sorted on alpha.
   */
  function LoadedPolar(parse: string -> Option<real>, file: Option<seq<string>>): (r: Option<seq<PolarRow>>)
    ensures file.None? ==> r.None?
    ensures r.None? && file.Some? ==> TableRows(parse, file.value) == []
    ensures r.Some? ==>
      && r.value != []
      && SortedBy(r.value, AlphaOf)
      && multiset(r.value) == multiset(TableRows(parse, file.value))
  {
    match file
    case None => None
    case Some(lines) =>
      var rows := TableRows(parse, lines);
      if rows == [] then None
      else
        var r := SortBy(rows, AlphaOf);
        assert rows[0] in multiset(r);
        Some(r)
  }

  /**
   * What `parse_results` records for an airfoil: an empty table for a missing file, otherwise
   * the deduplicated, sorted rows of the table.
   */
  function StoredPolarOf(parse: string -> Option<real>, file: Option<seq<string>>): (r: seq<PolarRow>)
    ensures file.None? ==> r == []
    ensures file.Some? ==> r == StoredPolar(TableRows(parse, file.value))
  {
    match file
    case None => []
    case Some(lines) => StoredPolar(TableRows(parse, lines))
  }
}
