/**
 * `write_hardcoded`, which copies the lines of a coordinate table that hold exactly two fields
 * into a `.dat` file under a name line, and what `read_airfoil_dat` makes of such a file.
 */
module Hardcoded {
  import opened Wrappers
  import opened Text
  import opened PanelGeometry

  // ---------------------------------------------------------------- write_hardcoded

  /** `len(line.split()) == 2`: the only lines `write_hardcoded` copies. */
  predicate TwoFields(line: string) {
    |Split(line)| == 2
  }

  /** The two-field lines of `lines`, in order. */
  function TwoFieldLines(lines: seq<string>): (kept: seq<string>)
    ensures |kept| <= |lines|
    ensures forall k :: 0 <= k < |kept| ==> TwoFields(kept[k]) && kept[k] in lines
    decreases |lines|
  {
    if lines == [] then []
    else
      var init, last := lines[..|lines| - 1], lines[|lines| - 1];
      assert forall l :: l in init ==> l in lines;
      TwoFieldLines(init) + (if TwoFields(last) then [last] else [])
  }

  /** The filter works line by line: filtering a concatenation concatenates the filtered parts, in order. */
  lemma {:induction false} TwoFieldLinesAppend(a: seq<string>, b: seq<string>)
    ensures TwoFieldLines(a + b) == TwoFieldLines(a) + TwoFieldLines(b)
    decreases |b|
  {
    if b == [] {
      assert a + b == a;
    } else {
      var init, last := b[..|b| - 1], b[|b| - 1];
      assert (a + b)[..|a + b| - 1] == a + init;
      assert (a + b)[|a + b| - 1] == last;
      TwoFieldLinesAppend(a, init);
    }
  }

  /** Every two-field line is kept. */
  lemma {:induction false} TwoFieldLinesKeep(lines: seq<string>, i: nat)
    requires i < |lines| && TwoFields(lines[i])
    ensures lines[i] in TwoFieldLines(lines)
    decreases |lines|
  {
    if i < |lines| - 1 {
      assert lines[..|lines| - 1][i] == lines[i];
      TwoFieldLinesKeep(lines[..|lines| - 1], i);
    }
  }

  /** When every line has two fields, nothing is dropped. */
  lemma {:induction false} TwoFieldLinesAll(lines: seq<string>)
    requires forall i :: 0 <= i < |lines| ==> TwoFields(lines[i])
    ensures TwoFieldLines(lines) == lines
    decreases |lines|
  {
    if lines != [] {
      TwoFieldLinesAll(lines[..|lines| - 1]);
      LastSplit(lines);
    }
  }

  lemma LastSplit<T>(s: seq<T>)
    requires s != []
    ensures s == s[..|s| - 1] + [s[|s| - 1]]
  {
  }

  /** A two-field line on which both `float(parts[0])` and `float(parts[1])` succeed. */
  predicate Readable(parse: string -> Option<real>, line: string) {
    var parts := Split(line);
    |parts| == 2 && parse(parts[0]).Some? && parse(parts[1]).Some?
  }

  /** The line written for the point (x, y): one space, x, three spaces, y, newline. */
  function PointLine(show: real -> string, x: real, y: real): string {
    " " + show(x) + "   " + show(y) + "\n"
  }

  function LineWritten(parse: string -> Option<real>, show: real -> string, line: string): string
    requires Readable(parse, line)
  {
    PointLine(show, parse(Split(line)[0]).value, parse(Split(line)[1]).value)
  }

  function PointLines(parse: string -> Option<real>, show: real -> string, lines: seq<string>): (w: seq<string>)
    requires forall k :: 0 <= k < |lines| ==> Readable(parse, lines[k])
    ensures |w| == |lines|
    ensures forall k :: 0 <= k < |lines| ==> w[k] == LineWritten(parse, show, lines[k])
  {
    seq(|lines|, k requires 0 <= k < |lines| => LineWritten(parse, show, lines[k]))
  }

  /**
   * What `write_hardcoded` writes for the lines of its data: the name line, then one point line
   * per two-field line, in order; `None` when `float` rejects a field of such a line.
   */
  function WrittenLines(parse: string -> Option<real>, show: real -> string, name: string, lines: seq<string>)
    : (r: Option<seq<string>>)
    ensures r.None? <==> exists k :: 0 <= k < |TwoFieldLines(lines)| && !Readable(parse, TwoFieldLines(lines)[k])
    ensures r.Some? ==> |r.value| == 1 + |TwoFieldLines(lines)| && r.value[0] == name + "\n"
    ensures r.Some? ==> forall k :: 0 <= k < |TwoFieldLines(lines)| ==>
      Readable(parse, TwoFieldLines(lines)[k]) && r.value[k + 1] == LineWritten(parse, show, TwoFieldLines(lines)[k])
  {
    var kept := TwoFieldLines(lines);
    if forall k :: 0 <= k < |kept| ==> Readable(parse, kept[k]) then Some([name + "\n"] + PointLines(parse, show, kept))
    else None
  }

  /** `write_hardcoded` splits the stripped data into lines at each newline. */
  function Written(parse: string -> Option<real>, show: real -> string, name: string, data: string): Option<seq<string>> {
    WrittenLines(parse, show, name, SplitOn(Strip(data), '\n'))
  }

  /** `write_hardcoded`, with the file's lines as the result and `None` where it raises. */
  method WriteHardcoded(parse: string -> Option<real>, show: real -> string, name: string, data: string)
    returns (written: Option<seq<string>>)
    ensures written == Written(parse, show, name, data)
  {
    written := WriteLines(parse, show, name, SplitOn(Strip(data), '\n'));
  }

  /** The loop of `write_hardcoded`: the name line first, then the lines with two fields. */
  method WriteLines(parse: string -> Option<real>, show: real -> string, name: string, lines: seq<string>)
    returns (written: Option<seq<string>>)
    ensures written == WrittenLines(parse, show, name, lines)
  {
    hide Split, TwoFieldLines, PointLines, PointLine;
    var out := [name + "\n"];
    ghost var kept: seq<string> := [];
    for i := 0 to |lines|
      invariant kept == TwoFieldLines(lines[..i])
      invariant forall k :: 0 <= k < |kept| ==> Readable(parse, kept[k])
      invariant out == [name + "\n"] + PointLines(parse, show, kept)
    {
      var line := lines[i];
      var parts := Split(line);
      if |parts| == 2 {
        var x, y := parse(parts[0]), parse(parts[1]);
        if x.None? || y.None? {
          UnreadableLine(parse, lines, i);
          return None;
        }
        KeepStep(parse, show, name, lines, i, kept, out);
        kept := kept + [line];
        out := out + [PointLine(show, x.value, y.value)];
      } else {
        SkipStep(lines, i);
      }
    }
    assert lines[..|lines|] == lines;
    written := Some(out);
  }

  /** A kept line extends both the kept lines and the written lines by one. */
  lemma KeepStep(parse: string -> Option<real>, show: real -> string, name: string, lines: seq<string>, i: nat,
                 kept: seq<string>, out: seq<string>)
    requires i < |lines| && Readable(parse, lines[i])
    requires kept == TwoFieldLines(lines[..i]) && forall k :: 0 <= k < |kept| ==> Readable(parse, kept[k])
    requires out == [name + "\n"] + PointLines(parse, show, kept)
    ensures kept + [lines[i]] == TwoFieldLines(lines[..i + 1])
    ensures out + [LineWritten(parse, show, lines[i])] == [name + "\n"] + PointLines(parse, show, kept + [lines[i]])
  {
    hide Split;
    TwoFieldLinesPrefix(lines, i);
    PointLinesSnoc(parse, show, kept, lines[i]);
  }

  /** A line without exactly two fields is passed over. */
  lemma SkipStep(lines: seq<string>, i: nat)
    requires i < |lines| && !TwoFields(lines[i])
    ensures TwoFieldLines(lines[..i + 1]) == TwoFieldLines(lines[..i])
  {
    hide Split;
    TwoFieldLinesPrefix(lines, i);
  }

  /** A two-field line with a field `float` rejects makes the whole write fail. */
  lemma UnreadableLine(parse: string -> Option<real>, lines: seq<string>, i: nat)
    requires i < |lines| && TwoFields(lines[i]) && !Readable(parse, lines[i])
    ensures exists k :: 0 <= k < |TwoFieldLines(lines)| && !Readable(parse, TwoFieldLines(lines)[k])
  {
    TwoFieldLinesKeep(lines, i);
    var all := TwoFieldLines(lines);
    var k :| 0 <= k < |all| && all[k] == lines[i];
    assert !Readable(parse, all[k]);
  }

  lemma TwoFieldLinesPrefix(lines: seq<string>, i: nat)
    requires i < |lines|
    ensures TwoFieldLines(lines[..i + 1]) == TwoFieldLines(lines[..i]) + (if TwoFields(lines[i]) then [lines[i]] else [])
  {
    hide Split;
    assert lines[..i + 1][..i] == lines[..i];
  }

  lemma PointLinesSnoc(parse: string -> Option<real>, show: real -> string, kept: seq<string>, line: string)
    requires forall k :: 0 <= k < |kept| ==> Readable(parse, kept[k])
    requires Readable(parse, line)
    ensures PointLines(parse, show, kept + [line]) == PointLines(parse, show, kept) + [LineWritten(parse, show, line)]
  {
  }

  // ---------------------------------------------------------------- reading the file back

  lemma {:induction false} LStripBlank(pre: string, t: string)
    requires IsBlank(pre) && t != [] && !IsSpace(t[0])
    ensures LStrip(pre + t) == t
    decreases |pre|
  {
    if pre != [] {
      assert (pre + t)[1..] == pre[1..] + t;
      LStripBlank(pre[1..], t);
    } else {
      assert pre + t == t;
    }
  }

  lemma {:induction false} RStripBlank(t: string, post: string)
    requires IsBlank(post) && t != [] && !IsSpace(t[|t| - 1])
    ensures RStrip(t + post) == t
    decreases |post|
  {
    if post != [] {
      assert (t + post)[..|t + post| - 1] == t + post[..|post| - 1];
      RStripBlank(t, post[..|post| - 1]);
    } else {
      assert t + post == t;
    }
  }

  /** Stripping removes exactly the blank padding around a text that starts and ends with non-blanks. */
  lemma StripPadded(pre: string, t: string, post: string)
    requires IsBlank(pre) && IsBlank(post) && t != [] && !IsSpace(t[0]) && !IsSpace(t[|t| - 1])
    ensures Strip(pre + t + post) == t
  {
    assert pre + t + post == pre + (t + post);
    LStripBlank(pre, t + post);
    RStripBlank(t, post);
  }

  /** A token after a run of blanks splits into itself. */
  lemma SplitAfterBlank(gap: string, b: string)
    requires IsToken(b) && IsBlank(gap)
    ensures Split(gap + b) == [b]
  {
    LStripBlank(gap, b);
    SplitLStrip(gap + b);
    SplitToken(b);
  }

  /** Two tokens separated by a run of blanks split back into the two tokens. */
  lemma SplitGap(a: string, gap: string, b: string)
    requires IsToken(a) && IsToken(b) && gap != [] && IsBlank(gap)
    ensures Split(a + (gap + b)) == [a, b]
  {
    var tail := gap + b;
    assert tail[0] == gap[0];
    SplitTokenThen(a, tail);
    SplitAfterBlank(gap, b);
  }

  /**
   * `read_airfoil_dat` reads a written point line back as the two numbers `float` makes of the
   * formatted fields, provided the formatting yields letter-free tokens.
   */
  lemma PointLineReadBack(parse: string -> Option<real>, show: real -> string, x: real, y: real)
    requires IsToken(show(x)) && IsToken(show(y)) && !HasAlpha(show(x)) && !HasAlpha(show(y))
    ensures var a, b := parse(show(x)), parse(show(y));
      DatLine(parse, PointLine(show, x, y))
        == if a.None? then Skip else if b.None? then XOnly(a.value) else Point(a.value, b.value)
  {
    PointLineFields(show(x), show(y));
  }

  /** The stripped point line is letter-free and splits into the two formatted fields. */
  lemma PointLineFields(a: string, b: string)
    requires IsToken(a) && IsToken(b) && !HasAlpha(a) && !HasAlpha(b)
    ensures var t := Strip(" " + a + "   " + b + "\n"); !HasAlpha(t) && Split(t) == [a, b]
  {
    PointLineStrip(a, b);
    SplitGap(a, "   ", b);
    BlankNoAlpha("   ");
    NoAlphaConcat("   ", b);
    NoAlphaConcat(a, "   " + b);
  }

  lemma PointLineStrip(a: string, b: string)
    requires IsToken(a) && IsToken(b)
    ensures Strip(" " + a + "   " + b + "\n") == a + ("   " + b)
  {
    var t := a + ("   " + b);
    assert t[0] == a[0];
    assert t[|t| - 1] == b[|b| - 1];
    assert " " + a + "   " + b + "\n" == " " + t + "\n";
    StripPadded(" ", t, "\n");
  }

  lemma BlankNoAlpha(s: string)
    requires IsBlank(s)
    ensures !HasAlpha(s)
  {
  }

  lemma NoAlphaConcat(a: string, b: string)
    requires !HasAlpha(a) && !HasAlpha(b)
    ensures !HasAlpha(a + b)
  {
    forall i | 0 <= i < |a + b|
      ensures !IsAlpha((a + b)[i])
    {
      if i < |a| {
        assert (a + b)[i] == a[i];
      } else {
        assert (a + b)[i] == b[i - |a|];
      }
    }
  }

  /** `read_airfoil_dat` skips the name line whenever the name holds a letter. */
  lemma NameLineSkipped(parse: string -> Option<real>, name: string)
    requires HasAlpha(name)
    ensures DatLine(parse, name + "\n") == Skip
  {
    hide Split;
    var s := name + "\n";
    var i :| 0 <= i < |name| && IsAlpha(name[i]);
    assert s[i] == name[i];
    var l := LStrip(s);
    LStripKeeps(s, i);
    var j := i - (|s| - |l|);
    assert l[j] == s[i];
    var r := RStrip(l);
    RStripKeeps(l, j);
    assert r[j] == l[j];
    assert Strip(s) == r;
    assert IsAlpha(r[j]);
  }

  /** `lstrip` stops at or before the first non-blank character. */
  lemma LStripKeeps(s: string, i: nat)
    requires i < |s| && !IsSpace(s[i])
    ensures |s| - |LStrip(s)| <= i
  {
  }

  /** `rstrip` stops at or after the last non-blank character. */
  lemma RStripKeeps(s: string, j: nat)
    requires j < |s| && !IsSpace(s[j])
    ensures j < |RStrip(s)|
  {
  }
}
