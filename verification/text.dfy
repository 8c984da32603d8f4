/**
 * The few Python string operations the scripts rely on: `strip()`, `split()`,
 * `split('\n')`, `"\n".join(...)`, `c.isalpha()` and the substring test `sub in s`.
 * Characters are classified over ASCII only.
 */
module Text {

  /** `c.isspace()` for ASCII: space, \t \n \v \f \r and the separators \x1c-\x1f. */
  predicate IsSpace(c: char) {
    c == ' ' || ('\t' <= c <= '\r') || ('\U{1C}' <= c <= '\U{1F}')
  }

  /** `c.isalpha()` for ASCII letters. */
  predicate IsAlpha(c: char) {
    ('a' <= c <= 'z') || ('A' <= c <= 'Z')
  }

  /** `any(c.isalpha() for c in s)` */
  predicate HasAlpha(s: string) {
    exists i :: 0 <= i < |s| && IsAlpha(s[i])
  }

  /** Every character is whitespace (the empty string included). */
  predicate IsBlank(s: string) {
    forall i :: 0 <= i < |s| ==> IsSpace(s[i])
  }

  /** A token produced by `split()`: non-empty and free of whitespace. */
  predicate IsToken(w: string) {
    w != [] && forall i :: 0 <= i < |w| ==> !IsSpace(w[i])
  }

  /** `s.lstrip()` */
  function LStrip(s: string): (r: string)
    ensures |r| <= |s| && r == s[|s| - |r|..]
    ensures IsBlank(s[..|s| - |r|])
    ensures r != [] ==> !IsSpace(r[0])
    decreases |s|
  {
    if s != [] && IsSpace(s[0]) then LStrip(s[1..]) else s
  }

  /** `s.rstrip()` */
  function RStrip(s: string): (r: string)
    ensures |r| <= |s| && r == s[..|r|]
    ensures IsBlank(s[|r|..])
    ensures r != [] ==> !IsSpace(r[|r| - 1])
    decreases |s|
  {
    if s != [] && IsSpace(s[|s| - 1]) then
      var r := RStrip(s[..|s| - 1]);
      assert s[|r|..] == s[..|s| - 1][|r|..] + [s[|s| - 1]];
      r
    else s
  }

  /** `s.strip()`: empty exactly when the line holds nothing but whitespace. */
  function Strip(s: string): (r: string)
    ensures r == [] <==> IsBlank(s)
    ensures r != [] ==> !IsSpace(r[0]) && !IsSpace(r[|r| - 1])
  {
    var l := LStrip(s);
    var r := RStrip(l);
    StripParts(s, l, r);
    r
  }

  /** Cutting a blank prefix and then a blank suffix leaves nothing exactly when all was blank. */
  lemma StripParts(s: string, l: string, r: string)
    requires |l| <= |s| && l == s[|s| - |l|..] && IsBlank(s[..|s| - |l|]) && (l != [] ==> !IsSpace(l[0]))
    requires |r| <= |l| && r == l[..|r|] && IsBlank(l[|r|..]) && (r != [] ==> !IsSpace(r[|r| - 1]))
    ensures r == [] <==> IsBlank(s)
    ensures r != [] ==> !IsSpace(r[0]) && !IsSpace(r[|r| - 1])
  {
    assert s == s[..|s| - |l|] + l;
    if r == [] {
      assert l == l[|r|..];
    } else {
      assert r[0] == l[0];
      assert s[|s| - |l|] == l[0];
    }
  }

  /** The longest whitespace-free prefix of `s`. */
  function Word(s: string): (w: string)
    ensures |w| <= |s| && w == s[..|w|]
    ensures forall i :: 0 <= i < |w| ==> !IsSpace(w[i])
    ensures |w| < |s| ==> IsSpace(s[|w|])
    decreases |s|
  {
    if s == [] || IsSpace(s[0]) then [] else [s[0]] + Word(s[1..])
  }

  /** `s.split()`: the maximal runs of non-whitespace characters, in order. */
  function Split(s: string): (parts: seq<string>)
    ensures forall i :: 0 <= i < |parts| ==> IsToken(parts[i])
    ensures parts == [] <==> IsBlank(s)
    decreases |s|
  {
    var t := LStrip(s);
    if t == [] then
      assert s[..|s|] == s;
      []
    else
      var w := Word(t);
      assert !IsBlank(s) by {
        assert s[|s| - |t|] == t[0];
      }
      var rest := Split(t[|w|..]);
      assert IsToken(w) by {
        assert t[0] == w[0];
      }
      var parts := [w] + rest;
      assert forall i :: 0 <= i < |parts| ==> IsToken(parts[i]) by {
        forall i | 0 <= i < |parts|
          ensures IsToken(parts[i])
        {
          if i > 0 {
            assert parts[i] == rest[i - 1];
          }
        }
      }
      parts
  }

  /** `sep.join(parts)` */
  function Join(parts: seq<string>, sep: string): string
    decreases |parts|
  {
    if parts == [] then ""
    else if |parts| == 1 then parts[0]
    else parts[0] + sep + Join(parts[1..], sep)
  }

  /** A join starts with its first part. */
  lemma JoinFirst(parts: seq<string>, sep: string)
    requires parts != []
    ensures |parts[0]| <= |Join(parts, sep)| && Join(parts, sep)[..|parts[0]|] == parts[0]
  {
  }

  /** A join ends with its last part. */
  lemma {:induction false} JoinLast(parts: seq<string>, sep: string)
    requires parts != []
    ensures var j, last := Join(parts, sep), parts[|parts| - 1];
      |last| <= |j| && j[|j| - |last|..] == last
    decreases |parts|
  {
    if |parts| > 1 {
      JoinLast(parts[1..], sep);
    }
  }

  /** `s.split(c)` for a one-character separator: every piece, empty ones included. */
  function SplitOn(s: string, c: char): (parts: seq<string>)
    ensures |parts| >= 1
    decreases |s|
  {
    if s == [] then [""]
    else
      var rest := SplitOn(s[1..], c);
      if s[0] == c then [""] + rest else [[s[0]] + rest[0]] + rest[1..]
  }

  predicate StartsWith(s: string, prefix: string) {
    |prefix| <= |s| && s[..|prefix|] == prefix
  }

  /** `sub in s` */
  predicate Contains(s: string, sub: string)
    decreases |s|
  {
    StartsWith(s, sub) || (s != [] && Contains(s[1..], sub))
  }

  /** `sub` occurs in `s` starting at position `i`. */
  predicate OccursAt(s: string, sub: string, i: int) {
    0 <= i <= |s| - |sub| && s[i..i + |sub|] == sub
  }

  /** The recursive `Contains` agrees with the positional reading of `sub in s`. */
  lemma {:induction false} ContainsAt(s: string, sub: string)
    ensures Contains(s, sub) <==> exists i :: OccursAt(s, sub, i)
    decreases |s|
  {
    if s != [] {
      ContainsAt(s[1..], sub);
      if Contains(s[1..], sub) {
        var i :| OccursAt(s[1..], sub, i);
        assert s[1..][i..i + |sub|] == s[i + 1..i + 1 + |sub|];
        assert OccursAt(s, sub, i + 1);
      }
      if StartsWith(s, sub) {
        assert OccursAt(s, sub, 0);
      }
      if exists i :: OccursAt(s, sub, i) {
        var i :| OccursAt(s, sub, i);
        if i > 0 {
          assert s[1..][i - 1..i - 1 + |sub|] == s[i..i + |sub|];
          assert OccursAt(s[1..], sub, i - 1);
        }
      }
    } else {
      if StartsWith(s, sub) {
        assert OccursAt(s, sub, 0);
      }
      if exists i :: OccursAt(s, sub, i) {
        var i :| OccursAt(s, sub, i);
        assert s[..|sub|] == s[i..i + |sub|];
      }
    }
  }

  /** The word of a token followed by whitespace (or nothing) is the token itself. */
  lemma {:induction false} WordOfToken(w: string, rest: string)
    requires IsToken(w)
    requires rest == [] || IsSpace(rest[0])
    ensures Word(w + rest) == w
    decreases |w|
  {
    if |w| > 1 {
      assert (w + rest)[1..] == w[1..] + rest;
      WordOfToken(w[1..], rest);
    } else {
      assert (w + rest)[1..] == rest;
    }
  }

  /** Leading whitespace does not change the split. */
  lemma SplitLStrip(s: string)
    ensures LStrip(LStrip(s)) == LStrip(s)
    ensures Split(s) == Split(LStrip(s))
  {
  }

  /** A single token splits into itself. */
  lemma SplitToken(w: string)
    requires IsToken(w)
    ensures Split(w) == [w]
  {
    assert LStrip(w) == w;
    WordOfToken(w, []);
    assert w + [] == w;
    assert w[|w|..] == [];
    assert Split([]) == [];
  }

  /** A token followed by whitespace splits off as the first part. */
  lemma SplitTokenThen(a: string, tail: string)
    requires IsToken(a) && tail != [] && IsSpace(tail[0])
    ensures Split(a + tail) == [a] + Split(tail)
  {
    var s := a + tail;
    assert s[0] == a[0];
    assert LStrip(s) == s;
    WordOfToken(a, tail);
    assert s[|a|..] == tail;
  }

  /** A token after one space splits into itself. */
  lemma SplitSpaceToken(b: string)
    requires IsToken(b)
    ensures Split(" " + b) == [b]
  {
    var tail := " " + b;
    assert tail[1..] == b;
    assert LStrip(b) == b;
    assert LStrip(tail) == b;
    SplitLStrip(tail);
    SplitToken(b);
  }

  /** Two tokens separated by one space split back into the two tokens. */
  lemma SplitPair(a: string, b: string)
    requires IsToken(a) && IsToken(b)
    ensures Split(a + " " + b) == [a, b]
  {
    var tail := " " + b;
    assert a + " " + b == a + tail;
    SplitTokenThen(a, tail);
    SplitSpaceToken(b);
  }

  /** Joining non-empty pieces: the separator appears between the two joins. */
  lemma {:induction false} JoinAppend(a: seq<string>, b: seq<string>, sep: string)
    requires a != [] && b != []
    ensures Join(a + b, sep) == Join(a, sep) + sep + Join(b, sep)
    decreases |a|
  {
    if |a| == 1 {
      assert (a + b)[1..] == b;
    } else {
      assert (a + b)[1..] == a[1..] + b;
      JoinAppend(a[1..], b, sep);
    }
  }

  /** A piece without the separator is not cut. */
  lemma {:induction false} SplitOnPlain(p: string, c: char)
    requires c !in p
    ensures SplitOn(p, c) == [p]
    decreases |p|
  {
    if p != [] {
      SplitOnPlain(p[1..], c);
      assert [p[0]] + p[1..] == p;
    }
  }

  /** Splitting `p + c + rest` cuts exactly after `p` when `p` holds no `c`. */
  lemma {:induction false} SplitOnCut(p: string, c: char, rest: string)
    requires c !in p
    ensures SplitOn(p + [c] + rest, c) == [p] + SplitOn(rest, c)
    decreases |p|
  {
    if p == [] {
      assert p + [c] + rest == [c] + rest;
      assert ([c] + rest)[1..] == rest;
    } else {
      var s := p + [c] + rest;
      assert s[1..] == p[1..] + [c] + rest;
      SplitOnCut(p[1..], c, rest);
      assert [p[0]] + p[1..] == p;
    }
  }

  /** Round trip: splitting a join on a separator the pieces avoid gives the pieces back. */
  lemma {:induction false} SplitOnJoin(parts: seq<string>, c: char)
    requires parts != []
    requires forall i :: 0 <= i < |parts| ==> c !in parts[i]
    ensures SplitOn(Join(parts, [c]), c) == parts
    decreases |parts|
  {
    if |parts| == 1 {
      SplitOnPlain(parts[0], c);
    } else {
      SplitOnJoin(parts[1..], c);
      SplitOnCut(parts[0], c, Join(parts[1..], [c]));
      assert parts == [parts[0]] + parts[1..];
    }
  }

  /** Round trip the other way: joining the pieces of a split restores the string. */
  lemma {:induction false} JoinSplitOn(s: string, c: char)
    ensures Join(SplitOn(s, c), [c]) == s
    decreases |s|
  {
    if s != [] {
      var rest := SplitOn(s[1..], c);
      JoinSplitOn(s[1..], c);
      assert Join(rest, [c]) == s[1..];
      if s[0] == c {
        JoinCons("", rest, [c]);
      } else {
        var parts := SplitOn(s, c);
        assert parts == [[s[0]] + rest[0]] + rest[1..];
        if |rest| == 1 {
          assert parts == [[s[0]] + rest[0]];
        } else {
          JoinCons(rest[0], rest[1..], [c]);
          JoinCons([s[0]] + rest[0], rest[1..], [c]);
          assert [rest[0]] + rest[1..] == rest;
        }
        assert s == [s[0]] + s[1..];
      }
    }
  }

  /** Joining a piece in front of a non-empty list. */
  lemma JoinCons(p: string, rest: seq<string>, sep: string)
    requires rest != []
    ensures Join([p] + rest, sep) == p + sep + Join(rest, sep)
  {
    assert ([p] + rest)[1..] == rest;
  }

  /** Splitting at a separator placed between two strings splits each side on its own. */
  lemma {:induction false} SplitOnAppend(a: string, c: char, b: string)
    ensures SplitOn(a + [c] + b, c) == SplitOn(a, c) + SplitOn(b, c)
    decreases |a|
  {
    var s := a + [c] + b;
    if a == [] {
      assert s == [c] + b;
      assert s[1..] == b;
    } else {
      assert s[0] == a[0];
      assert s[1..] == a[1..] + [c] + b;
      SplitOnAppend(a[1..], c, b);
      SplitOnStep(s, a, c, SplitOn(b, c));
    }
  }

  /** One step of `SplitOnAppend`: both sides start with the same character. */
  lemma {:induction false} SplitOnStep(s: string, a: string, c: char, tail: seq<string>)
    requires s != [] && a != [] && s[0] == a[0]
    requires SplitOn(s[1..], c) == SplitOn(a[1..], c) + tail
    ensures SplitOn(s, c) == SplitOn(a, c) + tail
  {
    hide SplitOn;
    var rest, front := SplitOn(s[1..], c), SplitOn(a[1..], c);
    SplitOnHead(s, c);
    SplitOnHead(a, c);
    if s[0] != c {
      assert rest[0] == front[0];
      assert rest[1..] == front[1..] + tail;
    }
  }

  /** The first character either closes an empty first piece or joins the first piece of the rest. */
  lemma SplitOnHead(s: string, c: char)
    requires s != []
    ensures SplitOn(s, c) == if s[0] == c then [""] + SplitOn(s[1..], c)
      else [[s[0]] + SplitOn(s[1..], c)[0]] + SplitOn(s[1..], c)[1..]
  {
  }

  /** The pieces of every string of `parts` on separator `c`, in order. */
  function SplitEach(parts: seq<string>, c: char): seq<string>
    decreases |parts|
  {
    if parts == [] then [] else SplitOn(parts[0], c) + SplitEach(parts[1..], c)
  }

  /**
   * Splitting a join on its separator yields the pieces of every part, even of parts that
   * themselves hold the separator.
   */
  lemma {:induction false} SplitOnJoinEach(parts: seq<string>, c: char)
    requires parts != []
    ensures SplitOn(Join(parts, [c]), c) == SplitEach(parts, c)
    decreases |parts|
  {
    if |parts| == 1 {
      assert SplitEach(parts[1..], c) == [];
    } else {
      SplitOnJoinEach(parts[1..], c);
      SplitOnAppend(parts[0], c, Join(parts[1..], [c]));
    }
  }

  /** The lines of `sep.join(parts) + sep`: the pieces of every part, then an empty remainder. */
  lemma JoinLines(parts: seq<string>, c: char)
    requires parts != []
    ensures SplitOn(Join(parts, [c]) + [c], c) == SplitEach(parts + [""], c)
  {
    JoinAppend(parts, [""], [c]);
    assert Join([""], [c]) == "";
    assert Join(parts + [""], [c]) == Join(parts, [c]) + [c];
    SplitOnJoinEach(parts + [""], c);
  }
}
