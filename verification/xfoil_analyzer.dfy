/** `AirfoilCFDAnalyzer`: writes XFOIL session scripts and records the polars XFOIL produces. */
module XfoilAnalyzer {
  import opened Wrappers
  import opened Text
  import opened Polar
  import opened XfoilScript

  class AirfoilCFDAnalyzer {
    /** Cruise speed, air density and chord, as given to the constructor. */
    const vCr: real
    const rho: real
    const chord: real

    /** The recorded polar of each analysed airfoil; an empty table where nothing was read. */
    var results: map<string, seq<PolarRow>>

    constructor (vCr: real, rho: real, chord: real)
      ensures this.vCr == vCr && this.rho == rho && this.chord == chord
      ensures results == map[]
    {
      this.vCr := vCr;
      this.rho := rho;
      this.chord := chord;
      results := map[];
    }

    /** `create_xfoil_script`: the command list is built by appending, then joined into lines. */
    method CreateXfoilScript(show: real -> string, name: string, alphas: seq<real>, reynolds: real, base: string)
      returns (script: string)
      ensures script == Script(show, name, alphas, reynolds, base)
    {
      if alphas == [] {
        return "";
      }
      var pos, neg := Ascending(alphas), Descending(alphas);
      var commands := ["LOAD " + name + ".dat", name];
      if IsSixSeries(name) {
        commands := commands + SixSeriesSetup(show, reynolds, base);
        commands := AppendSweep(show, commands, pos);
        commands := commands + ["INIT", "ALFA 0"];
        commands := AppendSweep(show, commands, neg);
      } else {
        var minA, maxA := MinOf(alphas), MaxOf(alphas);
        commands := commands + StandardSetup(show, reynolds, base);
        commands := commands + ["ASEQ " + show(minA) + " " + show(maxA) + " 1.0"];
      }
      ghost var load := ["LOAD " + name + ".dat", name];
      assert commands == load + BranchCommands(show, name, alphas, reynolds, base) by {
        if IsSixSeries(name) {
          Regroup(load, SixSeriesSetup(show, reynolds, base), AlfaCommands(show, pos), ["INIT", "ALFA 0"], AlfaCommands(show, neg));
        }
      }
      commands := commands + Closing;
      assert commands == Commands(show, name, alphas, reynolds, base);
      script := Join(commands, "\n") + "\n";
    }

    /**
     * `parse_results`, over the lines of the polar file (`None` when XFOIL wrote none): the
     * airfoil's entry becomes the deduplicated, sorted table, or an empty one; every other
     * entry stays as it was.
     */
    method ParseResults(parse: string -> Option<real>, airfoil: string, file: Option<seq<string>>)
      modifies this
      ensures results == old(results)[airfoil := StoredPolarOf(parse, file)]
    {
      if file.None? {
        results := results[airfoil := []];
        return;
      }
      var lines := file.value;
      var data: seq<PolarRow> := [];
      var startParsing := false;
      for i := 0 to |lines|
        invariant ScanState(data, startParsing) == Scan(parse, lines[..i])
        invariant results == old(results)
      {
        assert lines[..i + 1][..i] == lines[..i];
        var line := lines[i];
        if IsMarker(line) {
          startParsing := true;
          continue;
        }
        if startParsing && Strip(line) != [] {
          var row := ReadPolarFields(parse, line);
          if row.Some? {
            data := data + [row.value];
          }
        }
      }
      assert lines[..|lines|] == lines;
      ScanIsTable(parse, lines);
      if data != [] {
        results := results[airfoil := StoredPolar(data)];
      } else {
        StoredPolarEmpty(data);
        results := results[airfoil := []];
      }
    }
  }

  /**
   * The `try` block of `parse_results`' loop: the fields are read in the order the row's
   * dictionary names them, and the first one that is missing (an `IndexError`) or that `float`
   * rejects abandons the line. There is no field count check, yet it reads the same rows as
   * `load_xfoil_polar`'s loop.
   */
  method ReadPolarFields(parse: string -> Option<real>, line: string) returns (row: Option<PolarRow>)
    ensures row == ParseRow(parse, line)
  {
    var parts := Split(line);
    if |parts| < 1 || parse(parts[0]).None? {
      return None;
    }
    var alpha := parse(parts[0]).value;
    if |parts| < 2 || parse(parts[1]).None? {
      return None;
    }
    var cl := parse(parts[1]).value;
    if |parts| < 3 || parse(parts[2]).None? {
      return None;
    }
    var cd := parse(parts[2]).value;
    if |parts| < 5 || parse(parts[4]).None? {
      return None;
    }
    var cm := parse(parts[4]).value;
    return Some(PolarRow(alpha, cl, cd, cm, LiftToDrag(cl, cd)));
  }

  /** One `ALFA` command per angle of `values`, in order, appended to `commands`. */
  method AppendSweep(show: real -> string, commands: seq<string>, values: seq<real>) returns (out: seq<string>)
    ensures out == commands + AlfaCommands(show, values)
  {
    out := commands;
    ghost var sweep := AlfaCommands(show, values);
    for i := 0 to |values|
      invariant out == commands + sweep[..i]
    {
      out := out + ["ALFA " + show(values[i])];
      Extend(commands, sweep, i);
    }
    assert sweep[..|values|] == sweep;
  }

  /** Appending the next element of `x` extends the prefix taken so far. */
  lemma Extend<T>(p: seq<T>, x: seq<T>, i: nat)
    requires i < |x|
    ensures p + x[..i] + [x[i]] == p + x[..i + 1]
  {
    assert x[..i + 1] == x[..i] + [x[i]];
  }

  /** Commands appended one group at a time form the same list as the grouped definition. */
  lemma Regroup<T>(load: seq<T>, setup: seq<T>, a: seq<T>, m: seq<T>, d: seq<T>)
    ensures load + setup + a + m + d == load + (setup + a + m + d)
  {
  }
}
