/**
 * The hard-coded NACA 63-012A ordinates that the generator writes instead of computing them.
 */
module NacaTable {
  import opened Text
  import opened Wrappers
  import opened Hardcoded

  /** The rows of `NACA63012A_COORDS` on the upper surface, as their two fields, from the trailing edge to the nose. */
  const UpperRows: seq<(string, string)> := [
    ("1.000000", "0.000000"),
    ("0.997200", "0.000200"),
    ("0.985000", "0.001800"),
    ("0.970000", "0.004500"),
    ("0.950000", "0.007200"),
    ("0.900000", "0.014400"),
    ("0.800000", "0.028400"),
    ("0.700000", "0.041500"),
    ("0.600000", "0.052500"),
    ("0.500000", "0.060000"),
    ("0.400000", "0.063000"),
    ("0.350000", "0.062000"),
    ("0.300000", "0.059600"),
    ("0.250000", "0.055600"),
    ("0.200000", "0.050400"),
    ("0.150000", "0.043700"),
    ("0.100000", "0.035200"),
    ("0.075000", "0.030100"),
    ("0.050000", "0.024200"),
    ("0.025000", "0.016700"),
    ("0.012500", "0.011600"),
    ("0.005000", "0.007200"),
    ("0.001000", "0.003000"),
    ("0.000000", "0.000000")
  ]

  /** The rows on the lower surface, from just behind the nose back to the trailing edge. */
  const LowerRows: seq<(string, string)> := [
    ("0.001000", "-0.003000"),
    ("0.005000", "-0.007200"),
    ("0.012500", "-0.011600"),
    ("0.025000", "-0.016700"),
    ("0.050000", "-0.024200"),
    ("0.075000", "-0.030100"),
    ("0.100000", "-0.035200"),
    ("0.150000", "-0.043700"),
    ("0.200000", "-0.050400"),
    ("0.250000", "-0.055600"),
    ("0.300000", "-0.059600"),
    ("0.350000", "-0.062000"),
    ("0.400000", "-0.063000"),
    ("0.500000", "-0.060000"),
    ("0.600000", "-0.052500"),
    ("0.700000", "-0.041500"),
    ("0.800000", "-0.028400"),
    ("0.900000", "-0.014400"),
    ("0.950000", "-0.007200"),
    ("0.985000", "-0.001800"),
    ("1.000000", "0.000000")
  ]

  /** All rows of the table, in order. */
  const CoordFields: seq<(string, string)> := UpperRows + LowerRows

  /** A row as it appears in the table: the two fields separated by one space. */
  function CoordLine(f: (string, string)): string {
    f.0 + " " + f.1
  }

  /** The lines of a table, without the newlines between them. */
  function LinesOf(fields: seq<(string, string)>): (lines: seq<string>)
    ensures |lines| == |fields|
  {
    seq(|fields|, i requires 0 <= i < |fields| => CoordLine(fields[i]))
  }

  /** A table literal written as `NACA63012A_COORDS` is: its lines between an opening and a closing newline. */
  function TextOf(fields: seq<(string, string)>): string {
    "\n" + Join(LinesOf(fields), "\n") + "\n"
  }

  /** The table is closed: it starts and ends at the trailing edge (1, 0), and passes the nose (0, 0) in between. */
  lemma TableClosed()
    ensures |CoordFields| == 45
    ensures CoordFields[0] == ("1.000000", "0.000000") && CoordFields[44] == CoordFields[0]
    ensures CoordFields[23] == ("0.000000", "0.000000")
  {
  }

  /** Both fields of every row are tokens. */
  predicate TokenRows(rows: seq<(string, string)>) {
    forall i :: 0 <= i < |rows| ==> IsToken(rows[i].0) && IsToken(rows[i].1)
  }

  /** A row of two tokens is one line that splits back into them. */
  lemma LineFields(f: (string, string))
    requires IsToken(f.0) && IsToken(f.1)
    ensures Split(CoordLine(f)) == [f.0, f.1]
    ensures '\n' !in CoordLine(f)
  {
    hide Split;
    SplitPair(f.0, f.1);
    var line := CoordLine(f);
    forall j | 0 <= j < |line|
      ensures line[j] != '\n'
    {
      if j < |f.0| {
        assert line[j] == f.0[j];
      } else if j > |f.0| {
        assert line[j] == f.1[j - |f.0| - 1];
      }
    }
  }

  /** `write_hardcoded` applied to a table literal whose fields are tokens keeps every row, in order, and reads each as its own two fields. */
  lemma RowsWritten(parse: string -> Option<real>, show: real -> string, name: string, fields: seq<(string, string)>)
    requires fields != []
    requires TokenRows(fields)
    ensures TwoFieldLines(SplitOn(Strip(TextOf(fields)), '\n')) == LinesOf(fields)
    ensures forall k :: 0 <= k < |fields| ==> Split(LinesOf(fields)[k]) == [fields[k].0, fields[k].1]
    ensures Written(parse, show, name, TextOf(fields)).None? <==>
      exists k :: 0 <= k < |fields| && (parse(fields[k].0).None? || parse(fields[k].1).None?)
  {
    hide Split, Strip, SplitOn, Join, TwoFieldLines;
    var lines := LinesOf(fields);
    forall k | 0 <= k < |fields|
      ensures Split(lines[k]) == [fields[k].0, fields[k].1]
      ensures '\n' !in lines[k] && TwoFields(lines[k])
    {
      LineFields(fields[k]);
    }
    var body := Join(lines, "\n");
    JoinFirst(lines, "\n");
    JoinLast(lines, "\n");
    assert lines[0] == fields[0].0 + " " + fields[0].1;
    var last := fields[|fields| - 1];
    assert lines[|lines| - 1] == last.0 + " " + last.1;
    assert body[0] == lines[0][0] && body[|body| - 1] == lines[|lines| - 1][|lines[|lines| - 1]| - 1];
    assert IsBlank("\n");
    StripPadded("\n", body, "\n");
    SplitOnJoin(lines, '\n');
    TwoFieldLinesAll(lines);
    assert forall k :: 0 <= k < |fields| ==>
      (Readable(parse, lines[k]) <==> parse(fields[k].0).Some? && parse(fields[k].1).Some?);
  }
}
