/**
 * The corpus normaliser input/convert_text.py: lower-case the text, strip it,
 * replace every run of characters matching [\W\d] by one space, split on
 * whitespace and join the words with single spaces.
 */
module ConvertText {
  import opened Text

  /**
   * The pieces of Python's Unicode machinery the normaliser depends on: the
   * regular-expression classes \w (isWord) and \d (isDigit) and the
   * per-character effect of str.lower().
   */
  datatype CharClasses = CharClasses(isWord: char -> bool, isDigit: char -> bool, lower: char -> char)

  /** Python promises that no whitespace character is a word character. */
  ghost predicate SpacesAreNotWords(cl: CharClasses) {
    forall c :: IsSpace(c) ==> !cl.isWord(c)
  }

  /** Lower-casing twice is lower-casing once, and leaves the space alone. */
  ghost predicate LowerIsIdempotent(cl: CharClasses) {
    && (forall c :: cl.lower(cl.lower(c)) == cl.lower(c))
    && cl.lower(' ') == ' '
  }

  /** The characters that [\W\d] does not match: word characters that are not digits. */
  function Kept(cl: CharClasses): char -> bool {
    c => cl.isWord(c) && !cl.isDigit(c)
  }

  function Lower(cl: CharClasses, s: string): (r: string)
    ensures |r| == |s| && forall i :: 0 <= i < |s| ==> r[i] == cl.lower(s[i])
  {
    if s == [] then [] else [cl.lower(s[0])] + Lower(cl, s[1..])
  }

  /** The first position at or after i holding a character p accepts, or |s|. */
  function NextKept(p: char -> bool, s: string, i: nat): (k: nat)
    requires i <= |s|
    ensures i <= k <= |s| && (k < |s| ==> p(s[k]))
    ensures forall m :: i <= m < k ==> !p(s[m])
    decreases |s| - i
  {
    if i < |s| && !p(s[i]) then NextKept(p, s, i + 1) else i
  }

  /** Drops the characters p rejects at the front of s. */
  function SkipRejected(p: char -> bool, s: string): (r: string)
    ensures |r| <= |s| && r == s[|s| - |r|..]
    ensures NoneOf(p, s[..|s| - |r|])
    ensures r == [] || p(r[0])
  {
    var k := NextKept(p, s, 0);
    assert forall m :: 0 <= m < k ==> s[..k][m] == s[m];
    s[k..]
  }

  /** re.sub(r'[\W\d]+', ' ', s) with p the characters the class does not match. */
  function Squash(p: char -> bool, s: string): (r: string)
    ensures s == [] <==> r == []
    ensures s != [] ==> r[0] == if p(s[0]) then s[0] else ' '
    ensures forall i :: 0 <= i < |r| ==> r[i] == ' ' || p(r[i])
    decreases |s|
  {
    if s == [] then []
    else if p(s[0]) then [s[0]] + Squash(p, s[1..])
    else [' '] + Squash(p, SkipRejected(p, s[1..]))
  }

  /** The words of the normalised text, before they are joined. */
  function Tokens(cl: CharClasses, text: string): seq<string> {
    Words(Squash(Kept(cl), Strip(Lower(cl, text))))
  }

  /** " ".join(re.sub(r'[\W\d]+', ' ', text.lower().strip()).split()) */
  function Normalise(cl: CharClasses, text: string): (out: string)
    ensures out != [] ==> out[0] != ' ' && out[|out| - 1] != ' '
    ensures forall i :: 0 <= i < |out| - 1 ==> !(out[i] == ' ' && out[i + 1] == ' ')
    ensures forall i :: 0 <= i < |out| ==> out[i] == ' ' || Kept(cl)(out[i])
  {
    TokensAreKept(cl, text);
    JoinShape(Tokens(cl, text), ' ', Kept(cl));
    JoinWith(Tokens(cl, text), ' ')
  }

  /** Every word of the normalised text is non-empty and made of kept characters only. */
  lemma TokensAreKept(cl: CharClasses, text: string)
    ensures forall k :: 0 <= k < |Tokens(cl, text)| ==>
              |Tokens(cl, text)[k]| > 0 && ' ' !in Tokens(cl, text)[k] && All(Kept(cl), Tokens(cl, text)[k])
  {
    var p := Kept(cl);
    var squashed := Squash(p, Strip(Lower(cl, text)));
    var q := c => c == ' ' || p(c);
    assert All(q, squashed);
    RunsKeep(NotSpace, q, squashed);
    var ts := Tokens(cl, text);
    forall k | 0 <= k < |ts| ensures ' ' !in ts[k] && All(p, ts[k]) {
      assert All(NotSpace, ts[k]) && All(q, ts[k]);
      assert forall i :: 0 <= i < |ts[k]| ==> ts[k][i] != ' ' && p(ts[k][i]);
    }
  }

  /** Squashing rejected runs to single spaces does not change the runs of kept characters. */
  lemma {:induction false} RunsOfSquash(p: char -> bool, s: string)
    requires forall c :: p(c) ==> !IsSpace(c)
    ensures Runs(NotSpace, Squash(p, s)) == Runs(p, s)
    decreases |s|
  {
    if s != [] {
      if p(s[0]) {
        var t := Squash(p, s[1..]);
        RunsOfSquash(p, s[1..]);
        var r := [s[0]] + t;
        assert Squash(p, s) == r && r[0] == s[0] && r[1..] == t;
        assert NotSpace(s[0]);
        assert (|r| > 1 && NotSpace(r[1])) == (|s| > 1 && p(s[1]));
      } else {
        var u := SkipRejected(p, s[1..]);
        var t := Squash(p, u);
        RunsOfSquash(p, u);
        var r := [' '] + t;
        assert Squash(p, s) == r && r[1..] == t && !NotSpace(r[0]);
        assert Runs(NotSpace, r) == Runs(NotSpace, t);
        var x := s[1..][..|s| - 1 - |u|];
        assert s[1..] == x + u;
        RunsSkipPrefix(p, x, u);
        assert Runs(p, s) == Runs(p, s[1..]);
      }
    }
  }

  /** Before joining, the words are the maximal runs of kept characters of the lower-cased input. */
  lemma TokensAreRuns(cl: CharClasses, text: string)
    requires SpacesAreNotWords(cl)
    ensures Tokens(cl, text) == Runs(Kept(cl), Lower(cl, text))
  {
    var p, low := Kept(cl), Lower(cl, text);
    RunsOfSquash(p, Strip(low));
    RunsOfStrip(p, low);
  }

  /**
   * The words of the output are the maximal runs of non-digit word characters
   * of the lower-cased input, in their original order.
   */
  lemma NormalisedWords(cl: CharClasses, text: string)
    requires SpacesAreNotWords(cl)
    ensures Words(Normalise(cl, text)) == Runs(Kept(cl), Lower(cl, text))
  {
    TokensAreRuns(cl, text);
    TokensAreKept(cl, text);
    RunsOfJoin(NotSpace, Tokens(cl, text), ' ');
  }

  /** Text without any non-digit word character normalises to the empty string. */
  lemma NormaliseWithoutWords(cl: CharClasses, text: string)
    requires forall i :: 0 <= i < |text| ==> !Kept(cl)(cl.lower(text[i]))
    ensures Normalise(cl, text) == []
  {
    var p, low := Kept(cl), Lower(cl, text);
    var stripped := Strip(low);
    assert NoneOf(p, low);
    StripKeepsNone(p, low);
    SquashOfRejected(p, stripped);
    RunsOfNone(NotSpace, Squash(p, stripped));
  }

  /** A property that no character of s has, no character of s.strip() has. */
  lemma StripKeepsNone(p: char -> bool, s: string)
    requires NoneOf(p, s)
    ensures NoneOf(p, Strip(s))
  {
    var i := SkipSpaces(s, 0);
    var j := DropSpaces(s, i, |s|);
    assert Strip(s) == s[i..j];
    forall m | 0 <= m < j - i ensures !p(Strip(s)[m]) {
      assert Strip(s)[m] == s[i + m];
    }
  }

  /** Squashing text in which nothing is kept leaves nothing but spaces. */
  lemma SquashOfRejected(p: char -> bool, s: string)
    requires NoneOf(p, s)
    ensures NoneOf(NotSpace, Squash(p, s))
  {
    var r := Squash(p, s);
    forall m | 0 <= m < |r| ensures r[m] == ' ' {
      if r[m] != ' ' {
        SquashKeepsOnlyKept(p, s, m);
      }
    }
  }

  /** A kept character of the squashed text is a character of the original. */
  lemma {:induction false} SquashKeepsOnlyKept(p: char -> bool, s: string, m: nat)
    requires m < |Squash(p, s)| && Squash(p, s)[m] != ' '
    ensures Squash(p, s)[m] in s
    decreases |s|
  {
    if p(s[0]) {
      if m > 0 {
        SquashKeepsOnlyKept(p, s[1..], m - 1);
      }
    } else {
      var u := SkipRejected(p, s[1..]);
      SquashKeepsOnlyKept(p, u, m - 1);
      assert u == s[|s| - |u|..];
    }
  }

  /** A property of every character of s holds of every character of s.strip(). */
  lemma StripKeepsAll(q: char -> bool, s: string)
    requires All(q, s)
    ensures All(q, Strip(s))
  {
    var i := SkipSpaces(s, 0);
    var j := DropSpaces(s, i, |s|);
    assert Strip(s) == s[i..j];
    forall m | 0 <= m < j - i ensures q(Strip(s)[m]) {
      assert Strip(s)[m] == s[i + m];
    }
  }

  /** A property of the space and of every character of s holds of the squashed text. */
  lemma {:induction false} SquashKeepsAll(p: char -> bool, q: char -> bool, s: string)
    requires All(q, s) && q(' ')
    ensures All(q, Squash(p, s))
    decreases |s|
  {
    if s != [] {
      if p(s[0]) {
        SquashKeepsAll(p, q, s[1..]);
      } else {
        var u := SkipRejected(p, s[1..]);
        assert u == s[|s| - |u|..];
        SquashKeepsAll(p, q, u);
      }
    }
  }

  /** When lower() is idempotent, the normalised text is already lower-case. */
  lemma NormaliseIsLowerCase(cl: CharClasses, text: string)
    requires LowerIsIdempotent(cl)
    ensures Lower(cl, Normalise(cl, text)) == Normalise(cl, text)
  {
    var low := Lower(cl, text);
    var fixed := c => cl.lower(c) == c;
    assert All(fixed, low);
    StripKeepsAll(fixed, low);
    var squashed := Squash(Kept(cl), Strip(low));
    SquashKeepsAll(Kept(cl), fixed, Strip(low));
    RunsKeep(NotSpace, fixed, squashed);
    TokensAreKept(cl, text);
    JoinShape(Tokens(cl, text), ' ', fixed);
    var out := Normalise(cl, text);
    assert All(fixed, out);
  }

  /** Normalising an already normalised text changes nothing. */
  lemma NormaliseIdempotent(cl: CharClasses, text: string)
    requires SpacesAreNotWords(cl) && LowerIsIdempotent(cl)
    ensures Normalise(cl, Normalise(cl, text)) == Normalise(cl, text)
  {
    var p, out, ts := Kept(cl), Normalise(cl, text), Tokens(cl, text);
    NormaliseIsLowerCase(cl, text);
    TokensAreRuns(cl, out);
    TokensAreKept(cl, text);
    assert !p(' ');
    RunsOfJoin(p, ts, ' ');
  }
}
