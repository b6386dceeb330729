/**
 * The string primitives the program leans on: strip(), split(), split(" "),
 * " ".join(...) and iteration over the lines of a file.
 */
module Text {

  /** ASCII whitespace, the characters strip() and split() remove. */
  predicate IsSpace(c: char) {
    c == ' ' || c == '\t' || c == '\n' || c == '\r' || c == '\U{B}' || c == '\U{C}'
  }

  predicate NotSpace(c: char) {
    !IsSpace(c)
  }

  /** Every character of w satisfies p. */
  predicate All(p: char -> bool, w: string) {
    forall i :: 0 <= i < |w| ==> p(w[i])
  }

  /** No character of w satisfies p. */
  predicate NoneOf(p: char -> bool, w: string) {
    forall i :: 0 <= i < |w| ==> !p(w[i])
  }

  /** bytes.lower(): only A-Z change. */
  function AsciiLower(c: char): (d: char)
    ensures 'A' <= c <= 'Z' ==> 'a' <= d <= 'z' && d as int == c as int + 32
    ensures !('A' <= c <= 'Z') ==> d == c
  {
    if 'A' <= c <= 'Z' then (c as int + 32) as char else c
  }

  function LowerAll(s: string): (r: string)
    ensures |r| == |s| && forall i :: 0 <= i < |s| ==> r[i] == AsciiLower(s[i])
  {
    if s == [] then [] else [AsciiLower(s[0])] + LowerAll(s[1..])
  }

  // ---------------------------------------------------------------- strip()

  /** The first position at or after i that is not whitespace, or |s|. */
  function SkipSpaces(s: string, i: nat): (k: nat)
    requires i <= |s|
    ensures i <= k <= |s| && (k < |s| ==> !IsSpace(s[k]))
    ensures forall m :: i <= m < k ==> IsSpace(s[m])
    decreases |s| - i
  {
    if i < |s| && IsSpace(s[i]) then SkipSpaces(s, i + 1) else i
  }

  /** The end of s[i..j] once trailing whitespace is dropped. */
  function DropSpaces(s: string, i: nat, j: nat): (k: nat)
    requires i <= j <= |s|
    ensures i <= k <= j && (k > i ==> !IsSpace(s[k - 1]))
    ensures forall m :: k <= m < j ==> IsSpace(s[m])
    decreases j
  {
    if j > i && IsSpace(s[j - 1]) then DropSpaces(s, i, j - 1) else j
  }

  /** str.strip() / bytes.strip(): the infix left after removing whitespace at both ends. */
  function Strip(s: string): (r: string)
    ensures exists i, j :: 0 <= i <= j <= |s| && r == s[i..j]
                           && (forall k :: 0 <= k < i ==> IsSpace(s[k]))
                           && (forall k :: j <= k < |s| ==> IsSpace(s[k]))
    ensures r != [] ==> !IsSpace(r[0]) && !IsSpace(r[|r| - 1])
  {
    var i := SkipSpaces(s, 0);
    var j := DropSpaces(s, i, |s|);
    s[i..j]
  }

  /** A string that neither starts nor ends with whitespace is its own strip(). */
  lemma StripUnpadded(s: string)
    requires s != [] && !IsSpace(s[0]) && !IsSpace(s[|s| - 1])
    ensures Strip(s) == s
  {
    assert SkipSpaces(s, 0) == 0;
    assert DropSpaces(s, 0, |s|) == |s|;
    assert s[0..|s|] == s;
  }

  // ------------------------------------------------------ maximal runs, split()

  /**
   * The maximal runs of characters satisfying p, in order. split() is the
   * case p == NotSpace.
   */
  function Runs(p: char -> bool, s: string): (r: seq<string>)
    ensures s != [] && p(s[0]) ==> r != [] && |r[0]| > 0 && r[0][0] == s[0]
    decreases |s|
  {
    if s == [] then []
    else if !p(s[0]) then Runs(p, s[1..])
    else
      var rest := Runs(p, s[1..]);
      if |s| > 1 && p(s[1]) then [[s[0]] + rest[0]] + rest[1..] else [[s[0]]] + rest
  }

  /** Every run is non-empty and made of characters p accepts. */
  lemma {:induction false} RunsAreRuns(p: char -> bool, s: string)
    ensures forall k :: 0 <= k < |Runs(p, s)| ==> |Runs(p, s)[k]| > 0 && All(p, Runs(p, s)[k])
    decreases |s|
  {
    if s != [] {
      RunsAreRuns(p, s[1..]);
      if p(s[0]) && |s| > 1 && p(s[1]) {
        var rest := Runs(p, s[1..]);
        assert All(p, [s[0]] + rest[0]);
      }
    }
  }

  /** str.split() with no separator. */
  function Words(s: string): (r: seq<string>)
    ensures forall k :: 0 <= k < |r| ==> |r[k]| > 0 && All(NotSpace, r[k])
  {
    RunsAreRuns(NotSpace, s);
    Runs(NotSpace, s)
  }

  /** Characters that p rejects, in front, never start a run. */
  lemma {:induction false} RunsSkipPrefix(p: char -> bool, x: string, s: string)
    requires NoneOf(p, x)
    ensures Runs(p, x + s) == Runs(p, s)
    decreases |x|
  {
    if x == [] {
      assert x + s == s;
    } else {
      assert (x + s)[0] == x[0] && !p(x[0]);
      assert (x + s)[1..] == x[1..] + s;
      RunsSkipPrefix(p, x[1..], s);
    }
  }

  /** Characters that p rejects, at the end, never extend a run. */
  lemma {:induction false} RunsSkipSuffix(p: char -> bool, s: string, x: string)
    requires NoneOf(p, x)
    ensures Runs(p, s + x) == Runs(p, s)
    decreases |s|
  {
    if s == [] {
      assert s + x == x + [];
      RunsSkipPrefix(p, x, []);
      assert x + [] == x;
    } else {
      assert (s + x)[1..] == s[1..] + x;
      RunsSkipSuffix(p, s[1..], x);
    }
  }

  /** Without a character p accepts there is no run. */
  lemma RunsOfNone(p: char -> bool, s: string)
    requires NoneOf(p, s)
    ensures Runs(p, s) == []
  {
    RunsSkipPrefix(p, s, []);
    assert s + [] == s;
  }

  /** A rejected separator splits the runs in two independent halves. */
  lemma {:induction false} RunsAroundSeparator(p: char -> bool, x: string, sep: char, y: string)
    requires !p(sep)
    ensures Runs(p, x + [sep] + y) == Runs(p, x) + Runs(p, y)
    decreases |x|
  {
    if x == [] {
      assert x + [sep] + y == [sep] + y && ([sep] + y)[1..] == y;
    } else {
      assert (x + [sep] + y)[0] == x[0];
      assert (x + [sep] + y)[1..] == x[1..] + [sep] + y;
      RunsAroundSeparator(p, x[1..], sep, y);
      assert (x + [sep] + y)[1] == if |x| > 1 then x[1] else sep;
    }
  }

  /** A whole run followed by a rejected character (or nothing) is one run. */
  lemma {:induction false} RunsOfRunThen(p: char -> bool, w: string, t: string)
    requires |w| > 0 && All(p, w)
    requires t == [] || !p(t[0])
    ensures Runs(p, w + t) == [w] + Runs(p, t)
    decreases |w|
  {
    assert (w + t)[0] == w[0] && p(w[0]);
    assert (w + t)[1..] == w[1..] + t;
    if |w| == 1 {
      assert w[1..] + t == t;
      assert w == [w[0]];
    } else {
      assert (w + t)[1] == w[1] && p(w[1]);
      RunsOfRunThen(p, w[1..], t);
      var rest := Runs(p, w[1..] + t);
      assert rest[0] == w[1..] && rest[1..] == Runs(p, t);
      assert [w[0]] + w[1..] == w;
    }
  }

  /** Runs does not see whitespace that strip() removes, when p rejects whitespace. */
  lemma RunsOfStrip(p: char -> bool, s: string)
    requires forall c :: IsSpace(c) ==> !p(c)
    ensures Runs(p, Strip(s)) == Runs(p, s)
  {
    var i, j :| 0 <= i <= j <= |s| && Strip(s) == s[i..j]
                && (forall k :: 0 <= k < i ==> IsSpace(s[k]))
                && (forall k :: j <= k < |s| ==> IsSpace(s[k]));
    assert NoneOf(p, s[..i]) by {
      forall k | 0 <= k < i ensures !p(s[..i][k]) { assert IsSpace(s[k]); }
    }
    assert NoneOf(p, s[j..]) by {
      forall k | 0 <= k < |s| - j ensures !p(s[j..][k]) { assert IsSpace(s[j + k]); }
    }
    assert s == s[..i] + (s[i..j] + s[j..]);
    RunsSkipPrefix(p, s[..i], s[i..j] + s[j..]);
    RunsSkipSuffix(p, s[i..j], s[j..]);
  }

  // --------------------------------------------------------------- sep.join

  /** sep.join(ws) */
  function JoinWith(ws: seq<string>, sep: char): (r: string)
    ensures |ws| == 0 ==> r == []
    ensures |ws| > 0 ==> |r| >= |ws[0]| && r[..|ws[0]|] == ws[0]
  {
    if |ws| == 0 then [] else if |ws| == 1 then ws[0] else ws[0] + [sep] + JoinWith(ws[1..], sep)
  }

  /**
   * Joining non-empty separator-free words: the separator never stands at
   * either end nor twice in a row, and every other character is a word's.
   */
  lemma {:induction false} JoinShape(ws: seq<string>, sep: char, q: char -> bool)
    requires forall k :: 0 <= k < |ws| ==> |ws[k]| > 0 && sep !in ws[k] && All(q, ws[k])
    ensures var r := JoinWith(ws, sep);
            && (r != [] ==> r[0] != sep && r[|r| - 1] != sep)
            && (forall i :: 0 <= i < |r| - 1 ==> !(r[i] == sep && r[i + 1] == sep))
            && (forall i :: 0 <= i < |r| ==> r[i] == sep || q(r[i]))
    decreases |ws|
  {
    var r := JoinWith(ws, sep);
    if |ws| > 1 {
      var w, rest := ws[0], JoinWith(ws[1..], sep);
      JoinShape(ws[1..], sep, q);
      assert r == w + [sep] + rest;
      assert rest != [] && rest[0] == ws[1][0];
      forall i | 0 <= i < |r| - 1 ensures !(r[i] == sep && r[i + 1] == sep) {
        if i < |w| {
          assert r[i] == w[i];
        } else if i > |w| {
          assert r[i] == rest[i - |w| - 1] && r[i + 1] == rest[i - |w|];
        }
      }
      forall i | 0 <= i < |r| ensures r[i] == sep || q(r[i]) {
        if i < |w| {
          assert r[i] == w[i];
        } else if i > |w| {
          assert r[i] == rest[i - |w| - 1];
        }
      }
    }
  }

  /** Every run is made of characters of s, so a property of all of s holds of every run. */
  lemma {:induction false} RunsKeep(p: char -> bool, q: char -> bool, s: string)
    requires All(q, s)
    ensures forall k :: 0 <= k < |Runs(p, s)| ==> All(q, Runs(p, s)[k])
    decreases |s|
  {
    if s != [] {
      RunsKeep(p, q, s[1..]);
    }
  }

  /** Splitting a joined list of runs at the (rejected) separator gives the runs back. */
  lemma {:induction false} RunsOfJoin(p: char -> bool, ws: seq<string>, sep: char)
    requires !p(sep)
    requires forall k :: 0 <= k < |ws| ==> |ws[k]| > 0 && All(p, ws[k])
    ensures Runs(p, JoinWith(ws, sep)) == ws
    decreases |ws|
  {
    if |ws| == 1 {
      RunsOfRunThen(p, ws[0], []);
      assert ws[0] + [] == ws[0];
    } else if |ws| > 1 {
      var rest := JoinWith(ws[1..], sep);
      RunsOfRunThen(p, ws[0], [sep] + rest);
      assert ws[0] + [sep] + rest == ws[0] + ([sep] + rest);
      assert ([sep] + rest)[1..] == rest;
      RunsOfJoin(p, ws[1..], sep);
    }
  }

  // ------------------------------------------------------------- split(sep)

  /** s.split(sep) with an explicit one-character separator: empty fields are kept. */
  function SplitOn(s: string, sep: char): (r: seq<string>)
    ensures |r| >= 1
    ensures forall k :: 0 <= k < |r| ==> sep !in r[k]
  {
    if s == [] then [[]]
    else
      var rest := SplitOn(s[1..], sep);
      if s[0] == sep then [[]] + rest else [[s[0]] + rest[0]] + rest[1..]
  }

  /** Joining the fields with the separator restores the string. */
  lemma {:induction false} JoinSplitOn(s: string, sep: char)
    ensures JoinWith(SplitOn(s, sep), sep) == s
    decreases |s|
  {
    if s != [] {
      var rest := SplitOn(s[1..], sep);
      JoinSplitOn(s[1..], sep);
      if s[0] == sep {
        assert SplitOn(s, sep)[1..] == rest;
      } else {
        var r := SplitOn(s, sep);
        assert r[1..] == rest[1..];
        if |rest| > 1 {
          assert rest == [rest[0]] + rest[1..];
          assert JoinWith(rest, sep) == rest[0] + [sep] + JoinWith(rest[1..], sep);
        }
      }
    }
  }

  /** Splitting a join of separator-free fields gives the fields back. */
  lemma {:induction false} SplitOnJoin(ws: seq<string>, sep: char)
    requires |ws| >= 1
    requires forall k :: 0 <= k < |ws| ==> sep !in ws[k]
    ensures SplitOn(JoinWith(ws, sep), sep) == ws
    decreases |ws|
  {
    if |ws| == 1 {
      SplitOnField(ws[0], [], sep);
      assert ws[0] + [] == ws[0];
    } else {
      var rest := JoinWith(ws[1..], sep);
      SplitOnJoin(ws[1..], sep);
      assert ([sep] + rest)[1..] == rest;
      assert SplitOn([sep] + rest, sep) == [[]] + ws[1..];
      SplitOnField(ws[0], [sep] + rest, sep);
      assert ws[0] + [sep] + rest == ws[0] + ([sep] + rest);
      assert ws[0] + [] == ws[0];
      assert [ws[0]] + ws[1..] == ws;
    }
  }

  /** Two separators in a row leave an empty field after the first one. */
  lemma {:induction false} SplitOnDoubled(s: string, sep: char, p: nat)
    requires p + 1 < |s| && s[p] == sep && s[p + 1] == sep
    ensures exists k :: 1 <= k < |SplitOn(s, sep)| && SplitOn(s, sep)[k] == []
    decreases p
  {
    var rest := SplitOn(s[1..], sep);
    if p == 0 {
      assert s[1..][1..] == s[2..];
      assert rest == [[]] + SplitOn(s[2..], sep);
      assert SplitOn(s, sep)[1] == [];
    } else {
      SplitOnDoubled(s[1..], sep, p - 1);
      var k :| 1 <= k < |rest| && rest[k] == [];
      if s[0] == sep {
        assert SplitOn(s, sep)[k + 1] == [];
      } else {
        assert SplitOn(s, sep)[k] == [];
      }
    }
  }

  /** A separator-free field in front of t becomes part of t's first field. */
  lemma {:induction false} SplitOnField(w: string, t: string, sep: char)
    requires sep !in w
    ensures var r := SplitOn(t, sep);
            SplitOn(w + t, sep) == [w + r[0]] + r[1..]
    decreases |w|
  {
    if w != [] {
      assert (w + t)[1..] == w[1..] + t;
      SplitOnField(w[1..], t, sep);
      assert [w[0]] + (w[1..] + SplitOn(t, sep)[0]) == w + SplitOn(t, sep)[0];
    } else {
      var r := SplitOn(t, sep);
      assert w + t == t;
      assert w + r[0] == r[0];
      assert [r[0]] + r[1..] == r;
    }
  }

  // ---------------------------------------------------------------- file lines

  /**
   * Iterating over a text file: every line keeps its '\n'; a final fragment
   * without one is a line too.
   */
  function Lines(s: string): (r: seq<string>)
    ensures s == [] <==> r == []
    ensures forall k :: 0 <= k < |r| ==> |r[k]| > 0
  {
    if s == [] then []
    else if s[0] == '\n' then [['\n']] + Lines(s[1..])
    else
      var rest := Lines(s[1..]);
      if rest == [] then [[s[0]]] else [[s[0]] + rest[0]] + rest[1..]
  }

  /** The pieces one after another: the text of a file written line after line. */
  function Concat<T>(ls: seq<seq<T>>): seq<T> {
    if ls == [] then [] else ls[0] + Concat(ls[1..])
  }

  lemma {:induction false} ConcatAppend<T>(a: seq<seq<T>>, b: seq<seq<T>>)
    ensures Concat(a + b) == Concat(a) + Concat(b)
    decreases |a|
  {
    if a == [] {
      assert a + b == b;
    } else {
      assert (a + b)[1..] == a[1..] + b;
      ConcatAppend(a[1..], b);
    }
  }

  /** A line ending in its only '\n'. */
  predicate IsLine(l: string) {
    |l| > 0 && l[|l| - 1] == '\n' && '\n' !in l[..|l| - 1]
  }

  lemma {:induction false} LinesOfLineThen(w: string, t: string)
    requires '\n' !in w
    ensures Lines(w + ['\n'] + t) == [w + ['\n']] + Lines(t)
    decreases |w|
  {
    if w == [] {
      assert w + ['\n'] + t == ['\n'] + t;
      assert (['\n'] + t)[1..] == t;
    } else {
      assert (w + ['\n'] + t)[1..] == w[1..] + ['\n'] + t;
      LinesOfLineThen(w[1..], t);
      assert [w[0]] + (w[1..] + ['\n']) == w + ['\n'];
    }
  }

  /** Reading back a file written as whole lines yields exactly those lines. */
  lemma {:induction false} LinesOfConcat(ls: seq<string>)
    requires forall k :: 0 <= k < |ls| ==> IsLine(ls[k])
    ensures Lines(Concat(ls)) == ls
    decreases |ls|
  {
    if ls != [] {
      var l := ls[0];
      var w := l[..|l| - 1];
      assert l == w + ['\n'];
      LinesOfLineThen(w, Concat(ls[1..]));
      LinesOfConcat(ls[1..]);
    }
  }

  /** A line of a file holds a '\n' at most at its end. */
  predicate NoInnerNewline(l: string) {
    |l| > 0 && '\n' !in l[..|l| - 1]
  }

  lemma {:induction false} LinesShape(s: string)
    ensures forall k :: 0 <= k < |Lines(s)| ==> NoInnerNewline(Lines(s)[k])
    decreases |s|
  {
    if s != [] {
      LinesShape(s[1..]);
      var rest := Lines(s[1..]);
      if s[0] != '\n' && rest != [] {
        var l := [s[0]] + rest[0];
        assert l[..|l| - 1] == [s[0]] + rest[0][..|rest[0]| - 1];
      }
    }
  }

  /** Stripping a line of a file leaves no '\n' in it. */
  lemma StripNoNewline(l: string)
    requires NoInnerNewline(l)
    ensures '\n' !in Strip(l)
  {
  }
}
