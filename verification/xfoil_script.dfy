/**
 * The XFOIL session script that `create_xfoil_script` writes: one command per line, with a
 * heavier geometry clean-up and a manual angle-of-attack sweep for 6-series sections and an
 * `ASEQ` sweep for every other section.
 */
module XfoilScript {
  import opened Text
  import opened Sorting

  /** The sections that get the 6-series branch: the name mentions `63012` or `6series`. */
  predicate IsSixSeries(name: string) {
    Contains(name, "63012") || Contains(name, "6series")
  }

  function Id(a: real): real {
    a
  }

  function Neg(a: real): real {
    -a
  }

  /** `[a for a in alphas if a >= 0]` */
  function NonNegatives(alphas: seq<real>): (r: seq<real>)
    ensures forall i :: 0 <= i < |r| ==> 0.0 <= r[i]
    decreases |alphas|
  {
    if alphas == [] then []
    else (if alphas[0] >= 0.0 then [alphas[0]] else []) + NonNegatives(alphas[1..])
  }

  /** `[a for a in alphas if a < 0]` */
  function Negatives(alphas: seq<real>): (r: seq<real>)
    ensures forall i :: 0 <= i < |r| ==> r[i] < 0.0
    decreases |alphas|
  {
    if alphas == [] then []
    else (if alphas[0] < 0.0 then [alphas[0]] else []) + Negatives(alphas[1..])
  }

  /** The two filters split the list: each angle lands in exactly one of them. */
  lemma {:induction false} FiltersPartition(alphas: seq<real>)
    ensures multiset(NonNegatives(alphas)) + multiset(Negatives(alphas)) == multiset(alphas)
    ensures forall x :: multiset(NonNegatives(alphas))[x] == if 0.0 <= x then multiset(alphas)[x] else 0
    ensures forall x :: multiset(Negatives(alphas))[x] == if x < 0.0 then multiset(alphas)[x] else 0
    decreases |alphas|
  {
    if alphas != [] {
      FiltersPartition(alphas[1..]);
      assert alphas == [alphas[0]] + alphas[1..];
    }
  }

  /** `sorted(pos_alphas)`: the non-negative angles, increasing. */
  function Ascending(alphas: seq<real>): seq<real> {
    SortBy(NonNegatives(alphas), Id)
  }

  /** `sorted(neg_alphas, reverse=True)`: the negative angles, decreasing. */
  function Descending(alphas: seq<real>): seq<real> {
    SortBy(Negatives(alphas), Neg)
  }

  /**
   * The manual sweep goes from zero outwards: first the non-negative angles upwards, then the
   * negative ones downwards, and together they are exactly the requested angles.
   */
  lemma {:induction false} SweepCenterOut(alphas: seq<real>)
    ensures multiset(Ascending(alphas) + Descending(alphas)) == multiset(alphas)
    ensures var pos := Ascending(alphas);
      forall i, j :: 0 <= i <= j < |pos| ==> 0.0 <= pos[i] <= pos[j]
    ensures var neg := Descending(alphas);
      forall i, j :: 0 <= i <= j < |neg| ==> neg[j] <= neg[i] < 0.0
  {
    FiltersPartition(alphas);
    AscendingUpwards(alphas);
    DescendingDownwards(alphas);
  }

  lemma {:induction false} AscendingUpwards(alphas: seq<real>)
    ensures var pos := Ascending(alphas);
      forall i, j :: 0 <= i <= j < |pos| ==> 0.0 <= pos[i] <= pos[j]
  {
    hide SortBy, NonNegatives;
    var nn := NonNegatives(alphas);
    var pos := Ascending(alphas);
    forall i, j | 0 <= i <= j < |pos|
      ensures 0.0 <= pos[i] <= pos[j]
    {
      assert pos[i] in multiset(nn);
      var k :| 0 <= k < |nn| && nn[k] == pos[i];
      assert Id(pos[i]) <= Id(pos[j]);
    }
  }

  lemma {:induction false} DescendingDownwards(alphas: seq<real>)
    ensures var neg := Descending(alphas);
      forall i, j :: 0 <= i <= j < |neg| ==> neg[j] <= neg[i] < 0.0
  {
    hide SortBy, Negatives;
    var neg := Descending(alphas);
    forall i, j | 0 <= i <= j < |neg|
      ensures neg[j] <= neg[i] < 0.0
    {
      assert neg[i] in multiset(Negatives(alphas));
      assert Neg(neg[i]) <= Neg(neg[j]);
    }
  }

  lemma {:induction false} IdNegInjective()
    ensures Injective(Id) && Injective(Neg)
  {
    forall x, y | Neg(x) == Neg(y)
      ensures x == y
    {
      assert -x == -y;
    }
  }

  /** Both halves of the sweep depend only on which angles were asked for, not on their order. */
  lemma {:induction false} SweepOrderFree(a: seq<real>, b: seq<real>)
    requires multiset(a) == multiset(b)
    ensures Ascending(a) == Ascending(b) && Descending(a) == Descending(b)
  {
    FiltersPartition(a);
    FiltersPartition(b);
    IdNegInjective();
    assert multiset(NonNegatives(a)) == multiset(NonNegatives(b));
    assert multiset(Negatives(a)) == multiset(Negatives(b));
    SortedUnique(Ascending(a), Ascending(b), Id);
    SortedUnique(Descending(a), Descending(b), Neg);
  }

  /** `min(alpha_list)` */
  function MinOf(a: seq<real>): (m: real)
    requires a != []
    ensures m in a && forall i :: 0 <= i < |a| ==> m <= a[i]
    decreases |a|
  {
    if |a| == 1 then a[0]
    else
      var m := MinOf(a[1..]);
      if a[0] <= m then a[0] else m
  }

  /** `max(alpha_list)` */
  function MaxOf(a: seq<real>): (m: real)
    requires a != []
    ensures m in a && forall i :: 0 <= i < |a| ==> a[i] <= m
    decreases |a|
  {
    if |a| == 1 then a[0]
    else
      var m := MaxOf(a[1..]);
      if a[0] >= m then a[0] else m
  }

  /** The extremes depend only on which angles were asked for. */
  lemma {:induction false} ExtremesOrderFree(a: seq<real>, b: seq<real>)
    requires a != [] && multiset(a) == multiset(b)
    ensures MinOf(a) == MinOf(b) && MaxOf(a) == MaxOf(b)
  {
    assert forall x :: x in a <==> x in b by {
      forall x ensures x in a <==> x in b {
        assert x in a <==> x in multiset(a);
        assert x in b <==> x in multiset(b);
      }
    }
    assert a[0] in a;
    assert b != [];
  }

  /** `f"ALFA {alpha}"` for each angle, in order; `show` is Python's `str` on a float. */
  function AlfaCommands(show: real -> string, alphas: seq<real>): (r: seq<string>)
    ensures |r| == |alphas|
    ensures forall i :: 0 <= i < |alphas| ==> r[i] == "ALFA " + show(alphas[i])
  {
    seq(|alphas|, i requires 0 <= i < |alphas| => "ALFA " + show(alphas[i]))
  }

  /** The commands every script ends with: stop accumulating the polar, leave OPER, quit. */
  const Closing: seq<string> := ["PACC", "\n", "QUIT"]

  /**
   * The 6-series set-up: a larger trailing-edge gap, one smoothing pass, 140 panels, a
   * relaxed and damped solver, a ramp up to the target Reynolds number at zero incidence, and
   * the polar opened for recording.
   */
  function SixSeriesSetup(show: real -> string, reynolds: real, base: string): (c: seq<string>)
    ensures |c| == 27 && c[24..] == ["PACC", base + ".polar", base + ".dump"]
  {
    ["GDES", "TGAP", "0.005", "0.5", "EXEC", "\n"]
    + ["MDES", "FILT", "EXEC", "\n"]
    + ["PPAR", "N 140", "\n", "\n"]
    + ["OPER", "ITER 500", "RPM 0.6", "VACC 0.01"]
    + ["ALFA 0", "VISC 100000", "ALFA 0", "VISC " + show(reynolds), "M 0.0", "ALFA 0"]
    + ["PACC", base + ".polar", base + ".dump"]
  }

  /** The standard set-up: a small trailing-edge gap, one smoothing pass, 160 panels, the polar opened. */
  function StandardSetup(show: real -> string, reynolds: real, base: string): (c: seq<string>)
    ensures |c| == 21 && c[18..] == ["PACC", base + ".polar", base + ".dump"]
  {
    ["GDES", "TGAP", "0.002", "0.5", "EXEC", "\n"]
    + ["MDES", "FILT", "EXEC", "\n"]
    + ["PPAR", "N 160", "\n", "\n"]
    + ["OPER", "VISC " + show(reynolds), "M 0.0", "ITER 300"]
    + ["PACC", base + ".polar", base + ".dump"]
  }

  /** The branch-specific commands of `create_xfoil_script`. */
  function BranchCommands(show: real -> string, name: string, alphas: seq<real>, reynolds: real, base: string): seq<string>
    requires alphas != []
  {
    if IsSixSeries(name) then
      SixSeriesSetup(show, reynolds, base)
      + AlfaCommands(show, Ascending(alphas))
      + ["INIT", "ALFA 0"]
      + AlfaCommands(show, Descending(alphas))
    else
      StandardSetup(show, reynolds, base)
      + ["ASEQ " + show(MinOf(alphas)) + " " + show(MaxOf(alphas)) + " 1.0"]
  }

  /** The command list of `create_xfoil_script` for a non-empty angle list. */
  function Commands(show: real -> string, name: string, alphas: seq<real>, reynolds: real, base: string): seq<string>
    requires alphas != []
  {
    ["LOAD " + name + ".dat", name] + BranchCommands(show, name, alphas, reynolds, base) + Closing
  }

  /** `create_xfoil_script`: the empty string for an empty angle list, otherwise one command per line. */
  function Script(show: real -> string, name: string, alphas: seq<real>, reynolds: real, base: string): (s: string)
    ensures alphas == [] <==> s == []
  {
    if alphas == [] then ""
    else Join(Commands(show, name, alphas, reynolds, base), "\n") + "\n"
  }

  /**
   * The lines XFOIL reads from a script are exactly the lines of its commands in order (a
   * `"\n"` command is two empty lines, one keystroke to leave a menu each), then the empty
   * remainder after the final line break.
   */
  lemma {:induction false} ScriptLines(show: real -> string, name: string, alphas: seq<real>, reynolds: real, base: string)
    requires alphas != []
    ensures SplitOn(Script(show, name, alphas, reynolds, base), '\n')
         == SplitEach(Commands(show, name, alphas, reynolds, base) + [""], '\n')
  {
    JoinLines(Commands(show, name, alphas, reynolds, base), '\n');
  }

  /**
   * The 6-series layout: the polar is opened for recording at commands 26 to 28, the
   * non-negative angles follow upwards, then a re-initialisation back at zero, then the negative
   * angles downwards, then the closing commands.
   */
  lemma {:induction false} SixSeriesLayout(show: real -> string, name: string, alphas: seq<real>, reynolds: real, base: string)
    requires alphas != [] && IsSixSeries(name)
    ensures var c, p, n := Commands(show, name, alphas, reynolds, base), |Ascending(alphas)|, |alphas|;
      && |c| == 34 + n
      && c[..2] == ["LOAD " + name + ".dat", name]
      && c[2..29] == SixSeriesSetup(show, reynolds, base)
      && c[26..29] == ["PACC", base + ".polar", base + ".dump"]
      && c[29..29 + p] == AlfaCommands(show, Ascending(alphas))
      && c[29 + p..31 + p] == ["INIT", "ALFA 0"]
      && c[31 + p..31 + n] == AlfaCommands(show, Descending(alphas))
      && c[31 + n..] == Closing
  {
    var pos, neg := Ascending(alphas), Descending(alphas);
    SweepLength(alphas);
    var load, setup := ["LOAD " + name + ".dat", name], SixSeriesSetup(show, reynolds, base);
    var a, m, d := AlfaCommands(show, pos), ["INIT", "ALFA 0"], AlfaCommands(show, neg);
    assert Commands(show, name, alphas, reynolds, base) == load + (setup + a + m + d) + Closing;
    Placement(load, setup, a, m, d, Closing);
  }

  lemma SweepLength(alphas: seq<real>)
    ensures |Ascending(alphas)| + |Descending(alphas)| == |alphas|
  {
    SweepCenterOut(alphas);
    assert |multiset(Ascending(alphas) + Descending(alphas))| == |multiset(alphas)|;
  }

  /** Where each piece of `load + (setup + a + m + d) + z` sits. */
  lemma Placement<T>(load: seq<T>, setup: seq<T>, a: seq<T>, m: seq<T>, d: seq<T>, z: seq<T>)
    requires |setup| >= 3
    ensures var c, h := load + (setup + a + m + d) + z, |load| + |setup|;
      && |c| == h + |a| + |m| + |d| + |z|
      && c[..|load|] == load
      && c[|load|..h] == setup
      && c[h - 3..h] == setup[|setup| - 3..]
      && c[h..h + |a|] == a
      && c[h + |a|..h + |a| + |m|] == m
      && c[h + |a| + |m|..h + |a| + |m| + |d|] == d
      && c[h + |a| + |m| + |d|..] == z
  {
  }

  /**
   * The standard layout: always 27 commands, with one `ASEQ` sweep from the smallest to the
   * largest requested angle in steps of one degree.
   */
  lemma {:induction false} StandardLayout(show: real -> string, name: string, alphas: seq<real>, reynolds: real, base: string)
    requires alphas != [] && !IsSixSeries(name)
    ensures var c := Commands(show, name, alphas, reynolds, base);
      && |c| == 27
      && c[..2] == ["LOAD " + name + ".dat", name]
      && c[2..23] == StandardSetup(show, reynolds, base)
      && c[20..23] == ["PACC", base + ".polar", base + ".dump"]
      && c[23] == "ASEQ " + show(MinOf(alphas)) + " " + show(MaxOf(alphas)) + " 1.0"
      && c[24..] == Closing
  {
    var head := ["LOAD " + name + ".dat", name] + StandardSetup(show, reynolds, base);
    var c := Commands(show, name, alphas, reynolds, base);
    assert c == head + ["ASEQ " + show(MinOf(alphas)) + " " + show(MaxOf(alphas)) + " 1.0"] + Closing;
    assert head[20..23] == StandardSetup(show, reynolds, base)[18..];
    assert c[..2] == head[..2];
    assert c[2..23] == head[2..23];
  }

  /** Reordering the requested angles does not change the script. */
  lemma {:induction false} ScriptOrderFree(show: real -> string, name: string, a: seq<real>, b: seq<real>, reynolds: real, base: string)
    requires multiset(a) == multiset(b)
    ensures Script(show, name, a, reynolds, base) == Script(show, name, b, reynolds, base)
  {
    hide Join, SixSeriesSetup, StandardSetup, AlfaCommands, Ascending, Descending, MinOf, MaxOf, IsSixSeries;
    if a != [] {
      assert b != [] by { assert a[0] in multiset(b); }
      SweepOrderFree(a, b);
      ExtremesOrderFree(a, b);
    } else {
      assert |multiset(b)| == 0;
    }
  }
}
