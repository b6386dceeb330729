/**
 * input/convert_questions.py: reads an analogy question file whose lines are
 * grouped under ":name" headers and writes, for every group, each ordered
 * pair of distinct lines of the group as one concatenated line.
 */
module ConvertQuestions {
  import opened Results
  import opened Text

  /** The whitespace-separated tokens of one question line (`line.split()`). */
  type Tokens = seq<string>

  /** What the reading loop makes of one line once it is stripped. */
  datatype Entry = Blank | Header(name: string) | Data(tokens: Tokens)

  function Classify(line: string): (e: Entry)
    ensures e.Data? ==> |e.tokens| > 0
  {
    var s := Strip(line);
    if s == [] then Blank
    else if s[0] == ':' then Header(s[1..])
    else
      RunsOfStrip(NotSpace, line);
      Data(Words(s))
  }

  /**
   * The file as it is organised: the data lines before the first header,
   * the header names, and one section per header holding the data lines
   * that follow it up to the next header.
   */
  datatype Layout = Layout(preamble: seq<Tokens>, header: seq<string>, sections: seq<seq<Tokens>>)

  /** How one line extends the layout of the lines before it. */
  function Next(p: Layout, e: Entry): (q: Layout)
    requires |p.sections| == |p.header|
    ensures |q.sections| == |q.header|
  {
    match e
    case Blank => p
    case Header(name) => Layout(p.preamble, p.header + [name], p.sections + [[]])
    case Data(ts) =>
      if p.header == [] then p.(preamble := p.preamble + [ts])
      else
        var n := |p.sections|;
        p.(sections := p.sections[..n - 1] + [p.sections[n - 1] + [ts]])
  }

  function Parse(lines: seq<string>): (p: Layout)
    ensures |p.sections| == |p.header|
    decreases |lines|
  {
    if lines == [] then Layout([], [], [])
    else Next(Parse(lines[..|lines| - 1]), Classify(lines[|lines| - 1]))
  }

  lemma ParseStep(lines: seq<string>, i: nat)
    requires i < |lines|
    ensures Parse(lines[..i + 1]) == Next(Parse(lines[..i]), Classify(lines[i]))
  {
    assert lines[..i + 1][..i] == lines[..i];
  }

  /** The header names of the file, in order. */
  function HeaderNames(lines: seq<string>): seq<string> {
    if lines == [] then []
    else
      var e := Classify(lines[|lines| - 1]);
      HeaderNames(lines[..|lines| - 1]) + (if e.Header? then [e.name] else [])
  }

  /** The tokens of the data lines of the file, in order. */
  function DataLines(lines: seq<string>): seq<Tokens> {
    if lines == [] then []
    else
      var e := Classify(lines[|lines| - 1]);
      DataLines(lines[..|lines| - 1]) + (if e.Data? then [e.tokens] else [])
  }

  /** One line adds its header name, or its data tokens at the end of the data seen so far. */
  lemma NextKeeps(p: Layout, e: Entry)
    requires |p.sections| == |p.header|
    ensures Next(p, e).header == p.header + (if e.Header? then [e.name] else [])
    ensures Next(p, e).preamble + Concat(Next(p, e).sections)
            == p.preamble + Concat(p.sections) + (if e.Data? then [e.tokens] else [])
  {
    match e
    case Blank =>
    case Header(name) =>
      ConcatAppend(p.sections, [[]]);
      assert Concat<Tokens>([[]]) == [];
    case Data(ts) =>
      if p.header != [] {
        var n := |p.sections|;
        var last := p.sections[n - 1];
        assert p.sections[..n - 1] + [last] == p.sections;
        ConcatAppend(p.sections[..n - 1], [last + [ts]]);
        ConcatAppend(p.sections[..n - 1], [last]);
        assert Concat([last + [ts]]) == last + [ts] + Concat<Tokens>([]);
        assert Concat([last]) == last + Concat<Tokens>([]);
      }
  }

  /** Every header is kept in order, and every data line lands in exactly one place, in order. */
  lemma {:induction false} ParseKeepsEverything(lines: seq<string>)
    ensures Parse(lines).header == HeaderNames(lines)
    ensures Parse(lines).preamble + Concat(Parse(lines).sections) == DataLines(lines)
    decreases |lines|
  {
    if lines != [] {
      var init := lines[..|lines| - 1];
      ParseKeepsEverything(init);
      NextKeeps(Parse(init), Classify(lines[|lines| - 1]));
    }
  }

  /** There is one section per header line read so far. */
  lemma {:induction false} HeaderCount(lines: seq<string>)
    ensures |Parse(lines).sections| == |HeaderNames(lines)|
    decreases |lines|
  {
    if lines != [] {
      HeaderCount(lines[..|lines| - 1]);
    }
  }

  /** The tokens of the data lines that come after exactly h header lines, in order. */
  function DataAfter(lines: seq<string>, h: nat): seq<Tokens> {
    if lines == [] then []
    else
      var init, e := lines[..|lines| - 1], Classify(lines[|lines| - 1]);
      DataAfter(init, h) + (if e.Data? && |HeaderNames(init)| == h then [e.tokens] else [])
  }

  /**
   * The preamble is the data before the first header, and section k is the
   * data between header k and the next header (or the end of the file).
   */
  lemma {:induction false} SectionsBetweenHeaders(lines: seq<string>)
    ensures Parse(lines).preamble == DataAfter(lines, 0)
    ensures forall k :: 0 <= k < |Parse(lines).sections| ==> Parse(lines).sections[k] == DataAfter(lines, k + 1)
    ensures forall k :: |Parse(lines).sections| < k ==> DataAfter(lines, k) == []
    decreases |lines|
  {
    if lines != [] {
      var init, e := lines[..|lines| - 1], Classify(lines[|lines| - 1]);
      SectionsBetweenHeaders(init);
      HeaderCount(init);
      var p := Parse(init);
      var n := |p.sections|;
      assert |HeaderNames(init)| == n;
      assert Parse(lines) == Next(p, e);
      match e
      case Blank =>
      case Header(name) =>
        assert DataAfter(lines, n + 1) == [];
      case Data(ts) =>
        if p.header != [] {
          var q := Next(p, e);
          forall k | 0 <= k < |q.sections|
            ensures q.sections[k] == DataAfter(lines, k + 1)
          {
            if k < n - 1 {
              assert q.sections[k] == p.sections[k];
            }
          }
        }
    }
  }

  /**
   * text holds the leading sections that have data lines, and every later
   * section is empty: the shape the reading loop can build.
   */
  predicate Splits(text: seq<seq<Tokens>>, sections: seq<seq<Tokens>>) {
    && |text| <= |sections|
    && text == sections[..|text|]
    && (forall k :: 0 <= k < |text| ==> text[k] != [])
    && (forall k :: |text| <= k < |sections| ==> sections[k] == [])
  }

  /**
   * The reading loop succeeds exactly when no data line comes before the
   * first header and no header without data lines is followed by one with.
   */
  predicate Groupable(p: Layout) {
    && p.preamble == []
    && forall i, j :: 0 <= i < j < |p.sections| && p.sections[i] == [] ==> p.sections[j] == []
  }

  /** Once a data line has nowhere to go, no later line makes the layout groupable again. */
  lemma UngroupableNext(p: Layout, e: Entry)
    requires |p.sections| == |p.header| && !Groupable(p)
    ensures !Groupable(Next(p, e))
  {
    var q := Next(p, e);
    if p.preamble == [] {
      var i, j :| 0 <= i < j < |p.sections| && p.sections[i] == [] && p.sections[j] != [];
      assert q.sections[i] == [] && q.sections[j] != [];
    }
  }

  lemma {:induction false} StaysUngroupable(lines: seq<string>, n: nat)
    requires n <= |lines| && !Groupable(Parse(lines[..n]))
    ensures !Groupable(Parse(lines))
    decreases |lines| - n
  {
    if n == |lines| {
      assert lines[..n] == lines;
    } else {
      ParseStep(lines, n);
      UngroupableNext(Parse(lines[..n]), Classify(lines[n]));
      StaysUngroupable(lines, n + 1);
    }
  }

  /** The reading loop's result: header and text. */
  datatype Grouped = Grouped(header: seq<string>, text: seq<seq<Tokens>>)

  /** The IndexError the script stops with, and where. */
  datatype ConvertError = NoGroupForLine(line: nat) | NoPairsForGroup(group: nat)

  /** A data line under the reading loop, when the lines before it are still groupable. */
  lemma DataStep(p: Layout, text: seq<seq<Tokens>>, ts: Tokens)
    requires |p.sections| == |p.header| && Groupable(p) && Splits(text, p.sections)
    ensures var h := |p.header|;
            && (h > 0 && |text| >= h - 1 ==>
                  var t := if |text| < h then text + [[]] else text;
                  Groupable(Next(p, Data(ts))) && Splits(t[h - 1 := t[h - 1] + [ts]], Next(p, Data(ts)).sections))
            && (h == 0 || |text| < h - 1 ==> !Groupable(Next(p, Data(ts))))
  {
    var q := Next(p, Data(ts));
    var h := |p.header|;
    if h > 0 && |text| < h - 1 {
      assert p.sections[|text|] == [];
      assert q.sections[|text|] == [] && q.sections[h - 1] != [];
    } else if h > 0 {
      var t := if |text| < h then text + [[]] else text;
      var t' := t[h - 1 := t[h - 1] + [ts]];
      assert |t| == h;
      assert t[..h - 1] == p.sections[..h - 1];
      assert t' == q.sections;
    }
  }

  /** A header line under the reading loop. */
  lemma HeaderStep(p: Layout, text: seq<seq<Tokens>>, name: string)
    requires |p.sections| == |p.header| && Groupable(p) && Splits(text, p.sections)
    ensures Groupable(Next(p, Header(name))) && Splits(text, Next(p, Header(name)).sections)
  {
    var q := Next(p, Header(name));
    assert q.sections[..|p.sections|] == p.sections;
  }

  /**
   * The reading loop: a header line appends its name and opens the next
   * group (flag), a data line goes to the current group, created on its
   * first data line. It fails on a data line before any header, and on the
   * first data line after a header that had none.
   */
  method GroupLines(lines: seq<string>) returns (r: Result<Grouped, ConvertError>)
    ensures r.Ok? <==> Groupable(Parse(lines))
    ensures r.Ok? ==> r.value.header == Parse(lines).header && Splits(r.value.text, Parse(lines).sections)
    ensures r.Err? ==> r.error.NoGroupForLine? && var i := r.error.line;
                       i < |lines| && Classify(lines[i]).Data? && Groupable(Parse(lines[..i]))
  {
    var flag := -1;
    var text: seq<seq<Tokens>> := [];
    var header: seq<string> := [];
    var i := 0;
    while i < |lines|
      invariant 0 <= i <= |lines|
      invariant Groupable(Parse(lines[..i])) && Splits(text, Parse(lines[..i]).sections)
      invariant header == Parse(lines[..i]).header && flag == |header| - 1
    {
      ghost var p := Parse(lines[..i]);
      ParseStep(lines, i);
      var line := Strip(lines[i]);
      if line == [] {
        assert Classify(lines[i]) == Blank;
      } else if line[0] == ':' {
        assert Classify(lines[i]) == Header(line[1..]);
        HeaderStep(p, text, line[1..]);
        header := header + [line[1..]];
        flag := flag + 1;
      } else {
        var ts := Words(line);
        assert Classify(lines[i]) == Data(ts);
        DataStep(p, text, ts);
        if flag > |text| - 1 {
          text := text + [[]];
        }
        // flag is -1 only while text is still empty, so text[-1] fails too
        if flag < 0 || flag >= |text| {
          StaysUngroupable(lines, i + 1);
          return Err(NoGroupForLine(i));
        }
        text := text[flag := text[flag] + [ts]];
      }
      i := i + 1;
    }
    assert lines[..i] == lines;
    r := Ok(Grouped(header, text));
  }

  // ------------------------------------------------------------ pair expansion

  /** The entries for line x of group g paired with lines 0 .. y-1 of g, skipping x itself. */
  function RowPrefix(g: seq<Tokens>, x: nat, y: nat): (row: seq<Tokens>)
    requires x < |g| && y <= |g|
    ensures |row| == if x < y then y - 1 else y
  {
    if y == 0 then [] else RowPrefix(g, x, y - 1) + (if y - 1 == x then [] else [g[x] + g[y - 1]])
  }

  /** Entry k of the row for x pairs x with the k-th line other than x. */
  lemma {:induction false} RowPrefixAt(g: seq<Tokens>, x: nat, y: nat, k: nat)
    requires x < |g| && y <= |g| && k < |RowPrefix(g, x, y)|
    ensures RowPrefix(g, x, y)[k] == g[x] + g[if k < x then k else k + 1]
    decreases y
  {
    var init := RowPrefix(g, x, y - 1);
    if k < |init| {
      RowPrefixAt(g, x, y - 1, k);
    }
  }

  function Row(g: seq<Tokens>, x: nat): (row: seq<Tokens>)
    requires x < |g|
    ensures |row| == |g| - 1
  {
    RowPrefix(g, x, |g|)
  }

  /** The entries for lines 0 .. x-1 of g, row after row. */
  function PairsPrefix(g: seq<Tokens>, x: nat): (ps: seq<Tokens>)
    requires x <= |g|
    ensures |ps| == x * (|g| - 1)
  {
    if x == 0 then []
    else
      MulSucc(x - 1, |g| - 1);
      PairsPrefix(g, x - 1) + Row(g, x - 1)
  }

  lemma MulSucc(m: nat, n: nat)
    ensures m * n + n == (m + 1) * n
  {
  }

  lemma MulStep(i: nat, m: nat, n: nat)
    requires i < m
    ensures i * n + n <= m * n
  {
    assert (i + 1) * n <= m * n;
  }

  /** Row i of the group starts at offset i * (|g| - 1). */
  lemma {:induction false} PairsPrefixAt(g: seq<Tokens>, x: nat, i: nat, k: nat)
    requires i < x <= |g| && k < |g| - 1
    ensures i * (|g| - 1) + k < |PairsPrefix(g, x)|
    ensures PairsPrefix(g, x)[i * (|g| - 1) + k] == Row(g, i)[k]
    decreases x
  {
    var n := |g| - 1;
    var ps := PairsPrefix(g, x - 1);
    assert PairsPrefix(g, x) == ps + Row(g, x - 1);
    if i < x - 1 {
      PairsPrefixAt(g, x - 1, i, k);
    } else {
      assert i * n == |ps|;
    }
  }

  /** Where the entry for the ordered pair (x, y) stands in a group of n lines. */
  function PairIndex(n: nat, x: nat, y: nat): nat
    requires x < n && y < n && x != y
  {
    x * (n - 1) + (if y < x then y else y - 1)
  }

  /**
   * The entries of one group: one per ordered pair (x, y) of distinct lines,
   * x-outer and y-inner, each the tokens of line x followed by those of line y.
   */
  function Pairs(g: seq<Tokens>): seq<Tokens> {
    PairsPrefix(g, |g|)
  }

  /** n * (n - 1) entries, the one at PairIndex(n, x, y) joining line x and line y. */
  lemma PairsMeaning(g: seq<Tokens>)
    ensures |Pairs(g)| == |g| * (|g| - 1)
    ensures forall x, y :: 0 <= x < |g| && 0 <= y < |g| && x != y ==>
              PairIndex(|g|, x, y) < |Pairs(g)| && Pairs(g)[PairIndex(|g|, x, y)] == g[x] + g[y]
  {
    var ps := Pairs(g);
    forall x, y | 0 <= x < |g| && 0 <= y < |g| && x != y
      ensures PairIndex(|g|, x, y) < |ps| && ps[PairIndex(|g|, x, y)] == g[x] + g[y]
    {
      var k := if y < x then y else y - 1;
      PairsPrefixAt(g, |g|, x, k);
      RowPrefixAt(g, x, |g|, k);
    }
  }

  /** Entries come in x-outer, y-inner order: PairIndex is strictly increasing in that order. */
  lemma {:induction false} PairIndexOrder(n: nat, x: nat, y: nat, x': nat, y': nat)
    requires x < n && y < n && x != y && x' < n && y' < n && x' != y'
    requires x < x' || (x == x' && y < y')
    ensures PairIndex(n, x, y) < PairIndex(n, x', y')
  {
    if x < x' {
      MulStep(x, x', n - 1);
    }
  }

  /** A group of fewer than two lines has no pairs. */
  lemma PairsOfSmall(g: seq<Tokens>)
    requires |g| < 2
    ensures Pairs(g) == []
  {
  }

  /**
   * What the expansion loop has built after the groups before t: the groups
   * with pairs so far form a prefix of res, and every group after them has
   * fewer than two lines.
   */
  predicate Settled(text: seq<seq<Tokens>>, res: seq<seq<Tokens>>, t: nat)
    requires t <= |text|
  {
    && |res| <= t
    && (forall k :: 0 <= k < |res| ==> |text[k]| >= 2 && res[k] == Pairs(text[k]))
    && (forall k :: |res| <= k < t ==> |text[k]| < 2)
  }

  /** Expansion succeeds unless a group with fewer than two lines precedes one with two or more. */
  predicate Expandable(text: seq<seq<Tokens>>) {
    forall i, j :: 0 <= i < j < |text| && |text[i]| < 2 ==> |text[j]| < 2
  }

  /** The state of the two inner loops once the entries `done` of group t are appended. */
  predicate InGroup(text: seq<seq<Tokens>>, res: seq<seq<Tokens>>, t: nat, done: seq<Tokens>)
    requires t < |text|
  {
    if done == [] then Settled(text, res, t)
    else |res| == t + 1 && Settled(text, res[..t], t) && res[t] == done
  }

  /**
   * Appending one entry of group t: res[t] is created when it is missing,
   * and it can only be missing for a later group when an earlier group had
   * fewer than two lines.
   */
  lemma AppendStep(text: seq<seq<Tokens>>, res: seq<seq<Tokens>>, t: nat, done: seq<Tokens>, e: Tokens)
    requires t < |text| && InGroup(text, res, t, done)
    ensures var res' := if t > |res| - 1 then res + [[]] else res;
            && (t < |res'| ==> InGroup(text, res'[t := res'[t] + [e]], t, done + [e]))
            && (t >= |res'| ==> |res| < t && |text[|res|]| < 2)
  {
    var res' := if t > |res| - 1 then res + [[]] else res;
    if t < |res'| {
      var res2 := res'[t := res'[t] + [e]];
      assert res2[..t] == res[..t];
      if done == [] {
        assert res[..t] == res;
      }
    }
  }

  /**
   * The expansion loop: for each group t and each ordered pair (x, y) with
   * x != y, the entry is appended to res[t], which is created on the first
   * entry of the group. It fails on the first pair of a group when an earlier
   * group had no pairs.
   */
  method ExpandPairs(text: seq<seq<Tokens>>) returns (r: Result<seq<seq<Tokens>>, ConvertError>)
    ensures r.Ok? <==> Expandable(text)
    ensures r.Ok? ==> Settled(text, r.value, |text|)
    ensures r.Err? ==> r.error.NoPairsForGroup? && var t := r.error.group;
                       t < |text| && |text[t]| >= 2 && exists k :: 0 <= k < t && |text[k]| < 2
  {
    var res: seq<seq<Tokens>> := [];
    var t := 0;
    while t < |text|
      invariant 0 <= t <= |text| && Settled(text, res, t)
    {
      var step := ExpandGroup(text, res, t);
      if step.Err? {
        return step;
      }
      res := step.value;
      t := t + 1;
    }
    r := Ok(res);
  }

  /** The two inner loops of the expansion, for group t. */
  method ExpandGroup(text: seq<seq<Tokens>>, res: seq<seq<Tokens>>, t: nat)
    returns (r: Result<seq<seq<Tokens>>, ConvertError>)
    requires t < |text| && Settled(text, res, t)
    ensures r.Ok? ==> Settled(text, r.value, t + 1)
    ensures r.Err? ==> r.error == NoPairsForGroup(t) && |text[t]| >= 2 && exists k :: 0 <= k < t && |text[k]| < 2
  {
    var out := res;
    var g := text[t];
    var x := 0;
    while x < |g|
      invariant 0 <= x <= |g| && InGroup(text, out, t, PairsPrefix(g, x))
    {
      var step := ExpandRow(text, out, t, x);
      if step.Err? {
        return step;
      }
      out := step.value;
      x := x + 1;
    }
    if |g| < 2 {
      PairsOfSmall(g);
    }
    r := Ok(out);
  }

  /** The innermost loop: line x of group t paired with every other line y of the group. */
  method ExpandRow(text: seq<seq<Tokens>>, res: seq<seq<Tokens>>, t: nat, x: nat)
    returns (r: Result<seq<seq<Tokens>>, ConvertError>)
    requires t < |text| && x < |text[t]| && InGroup(text, res, t, PairsPrefix(text[t], x))
    ensures r.Ok? ==> InGroup(text, r.value, t, PairsPrefix(text[t], x + 1))
    ensures r.Err? ==> r.error == NoPairsForGroup(t) && |text[t]| >= 2 && exists k :: 0 <= k < t && |text[k]| < 2
  {
    var out := res;
    var g := text[t];
    var y := 0;
    while y < |g|
      invariant 0 <= y <= |g| && InGroup(text, out, t, PairsPrefix(g, x) + RowPrefix(g, x, y))
    {
      if x != y {
        ghost var done := PairsPrefix(g, x) + RowPrefix(g, x, y);
        assert PairsPrefix(g, x) + RowPrefix(g, x, y + 1) == done + [g[x] + g[y]];
        AppendStep(text, out, t, done, g[x] + g[y]);
        if t > |out| - 1 {
          out := out + [[]];
        }
        if t >= |out| {
          return Err(NoPairsForGroup(t));
        }
        out := out[t := out[t] + [g[x] + g[y]]];
      }
      y := y + 1;
    }
    r := Ok(out);
  }

  // ------------------------------------------------------------ output file

  /** One output line per entry, its tokens joined by single spaces; an empty group writes one blank line. */
  function EntryLines(entries: seq<Tokens>): (ls: seq<string>)
    ensures |ls| == if entries == [] then 1 else |entries|
  {
    if entries == [] then [['\n']]
    else seq(|entries|, i requires 0 <= i < |entries| => JoinWith(entries[i], ' ') + ['\n'])
  }

  /** `' '.join(t) for t in entries` */
  function EntryTexts(entries: seq<Tokens>): (ts: seq<string>)
    ensures |ts| == |entries| && forall i :: 0 <= i < |entries| ==> ts[i] == JoinWith(entries[i], ' ')
  {
    seq(|entries|, i requires 0 <= i < |entries| => JoinWith(entries[i], ' '))
  }

  /** The lines of block r: a blank line before every block but the first, then ":" + name, then the entries. */
  function BlockLines(r: nat, name: string, entries: seq<Tokens>): seq<string> {
    (if r > 0 then [['\n']] else []) + [[':'] + name + ['\n']] + EntryLines(entries)
  }

  /** The lines of the output file: block r for each expanded group r, named by header[r]. */
  function OutputLines(header: seq<string>, res: seq<seq<Tokens>>): seq<string>
    requires |res| <= |header|
  {
    Concat(seq(|res|, r requires 0 <= r < |res| => BlockLines(r, header[r], res[r])))
  }

  /** `"\n".join(ls)` followed by "\n" writes each of ls as a line of its own. */
  lemma {:induction false} JoinLines(ls: seq<string>)
    requires |ls| > 0
    ensures JoinWith(ls, '\n') + ['\n'] == Concat(seq(|ls|, i requires 0 <= i < |ls| => ls[i] + ['\n']))
    decreases |ls|
  {
    var lines := seq(|ls|, i requires 0 <= i < |ls| => ls[i] + ['\n']);
    if |ls| == 1 {
      assert Concat(lines) == lines[0] + Concat([]);
    } else {
      JoinLines(ls[1..]);
      assert lines[1..] == seq(|ls| - 1, i requires 0 <= i < |ls| - 1 => ls[1..][i] + ['\n']);
    }
  }

  lemma EntryText(entries: seq<Tokens>)
    ensures JoinWith(EntryTexts(entries), '\n') + ['\n']
            == Concat(EntryLines(entries))
  {
    var ls := EntryTexts(entries);
    if entries == [] {
      assert Concat(EntryLines(entries)) == ['\n'] + Concat([]);
    } else {
      JoinLines(ls);
      assert EntryLines(entries) == seq(|ls|, i requires 0 <= i < |ls| => ls[i] + ['\n']);
    }
  }

  lemma OutputLinesSnoc(header: seq<string>, res: seq<seq<Tokens>>, r: nat)
    requires |res| <= |header| && r < |res|
    ensures OutputLines(header, res[..r + 1]) == OutputLines(header, res[..r]) + BlockLines(r, header[r], res[r])
  {
    var bs := seq(r + 1, k requires 0 <= k < r + 1 => BlockLines(k, header[k], res[..r + 1][k]));
    assert bs[..r] == seq(r, k requires 0 <= k < r => BlockLines(k, header[k], res[..r][k]));
    assert bs == bs[..r] + [bs[r]];
    ConcatAppend(bs[..r], [bs[r]]);
    assert Concat([bs[r]]) == bs[r] + Concat<string>([]);
  }

  /** The text of block r as the writing loop produces it. */
  lemma BlockText(r: nat, name: string, entries: seq<Tokens>)
    ensures Concat(BlockLines(r, name, entries))
            == (if r > 0 then ['\n'] else []) + [':'] + name + ['\n']
               + JoinWith(EntryTexts(entries), '\n') + ['\n']
  {
    var nl: seq<string> := if r > 0 then [['\n']] else [];
    var head := [':'] + name + ['\n'];
    EntryText(entries);
    ConcatAppend(nl + [head], EntryLines(entries));
    ConcatAppend(nl, [head]);
    assert Concat([head]) == head + Concat([]);
    assert r > 0 ==> Concat(nl) == ['\n'] + Concat([]);
    var nls: string := if r > 0 then ['\n'] else [];
    var j := JoinWith(EntryTexts(entries), '\n');
    assert Concat(BlockLines(r, name, entries)) == nls + head + (j + ['\n']);
    AppendAssoc(nls + head, j, ['\n']);
    AppendAssoc(nls, [':'] + name, ['\n']);
    AppendAssoc(nls, [':'], name);
  }

  /** Writing block r after the blocks before it gives the text of the blocks up to r. */
  lemma FormatStep(header: seq<string>, res: seq<seq<Tokens>>, r: nat)
    requires |res| <= |header| && r < |res|
    ensures var before := Concat(OutputLines(header, res[..r]));
            (if r > 0 then before + ['\n'] else before) + [':'] + header[r] + ['\n']
              + JoinWith(EntryTexts(res[r]), '\n') + ['\n']
            == Concat(OutputLines(header, res[..r + 1]))
  {
    var before := Concat(OutputLines(header, res[..r]));
    var block := Concat(BlockLines(r, header[r], res[r]));
    BlockText(r, header[r], res[r]);
    OutputLinesSnoc(header, res, r);
    ConcatAppend(OutputLines(header, res[..r]), BlockLines(r, header[r], res[r]));
    var nl: string := if r > 0 then ['\n'] else [];
    var j := JoinWith(EntryTexts(res[r]), '\n');
    AppendAssoc(before, nl + [':'] + header[r] + ['\n'] + j, ['\n']);
    AppendAssoc(before, nl + [':'] + header[r] + ['\n'], j);
    AppendAssoc(before, nl + [':'] + header[r], ['\n']);
    AppendAssoc(before, nl + [':'], header[r]);
    AppendAssoc(before, nl, [':']);
    assert (if r > 0 then before + ['\n'] else before) == before + nl;
  }

  lemma AppendAssoc(a: string, b: string, c: string)
    ensures a + (b + c) == a + b + c
  {
  }

  /**
   * The writing loop: for every block r, a newline first unless r is 0,
   * then ":" + header[r], then the entries joined by newlines, then a newline.
   */
  method FormatBlocks(header: seq<string>, res: seq<seq<Tokens>>) returns (out: string)
    requires |res| <= |header|
    ensures out == Concat(OutputLines(header, res))
  {
    out := [];
    var r := 0;
    while r < |res|
      invariant 0 <= r <= |res|
      invariant out == Concat(OutputLines(header, res[..r]))
    {
      FormatStep(header, res, r);
      if r > 0 {
        out := out + ['\n'];
      }
      out := out + [':'] + header[r] + ['\n'];
      out := out + JoinWith(EntryTexts(res[r]), '\n');
      out := out + ['\n'];
      r := r + 1;
    }
    assert res[..r] == res;
  }

  // ------------------------------------------------------------ the whole script

  /** Non-empty tokens without whitespace, as `split()` produces them. */
  predicate CleanTokens(ts: Tokens) {
    forall k :: 0 <= k < |ts| ==> |ts[k]| > 0 && All(NotSpace, ts[k])
  }

  /** A written entry line splits back into the tokens of its pair. */
  lemma EntryWords(e: Tokens)
    requires CleanTokens(e)
    ensures Words(JoinWith(e, ' ')) == e
    ensures '\n' !in JoinWith(e, ' ')
  {
    RunsOfJoin(NotSpace, e, ' ');
    JoinShape(e, ' ', NotSpace);
  }

  /** In the output, the entry for the pair (x, y) of a group reads back as the tokens of x then of y. */
  lemma PairLineWords(g: seq<Tokens>, x: nat, y: nat)
    requires forall i :: 0 <= i < |g| ==> CleanTokens(g[i])
    requires x < |g| && y < |g| && x != y
    ensures PairIndex(|g|, x, y) < |Pairs(g)|
    ensures Words(EntryTexts(Pairs(g))[PairIndex(|g|, x, y)]) == g[x] + g[y]
  {
    PairsMeaning(g);
    EntryWords(g[x] + g[y]);
  }

  /** The number of leading sections that have data lines. */
  function FirstEmpty(ss: seq<seq<Tokens>>): (k: nat)
    ensures k <= |ss| && (forall i :: 0 <= i < k ==> ss[i] != []) && (k < |ss| ==> ss[k] == [])
  {
    if ss == [] || ss[0] == [] then 0 else 1 + FirstEmpty(ss[1..])
  }

  lemma {:induction false} FirstEmptyAt(ss: seq<seq<Tokens>>, m: nat)
    requires m <= |ss| && (forall i :: 0 <= i < m ==> ss[i] != []) && (m < |ss| ==> ss[m] == [])
    ensures FirstEmpty(ss) == m
    decreases m
  {
    if m > 0 {
      FirstEmptyAt(ss[1..], m - 1);
    }
  }

  /** The groups the reading loop builds from a layout: its leading non-empty sections. */
  function GroupText(p: Layout): seq<seq<Tokens>> {
    p.sections[..FirstEmpty(p.sections)]
  }

  lemma SplitsIsGroupText(text: seq<seq<Tokens>>, p: Layout)
    requires Splits(text, p.sections)
    ensures text == GroupText(p)
  {
    assert forall i :: 0 <= i < |text| ==> p.sections[i] == text[i] != [];
    FirstEmptyAt(p.sections, |text|);
  }

  /** The number of leading groups with at least two lines. */
  function FirstSmall(text: seq<seq<Tokens>>): (k: nat)
    ensures k <= |text| && (forall i :: 0 <= i < k ==> |text[i]| >= 2) && (k < |text| ==> |text[k]| < 2)
  {
    if text == [] || |text[0]| < 2 then 0 else 1 + FirstSmall(text[1..])
  }

  lemma {:induction false} FirstSmallAt(text: seq<seq<Tokens>>, m: nat)
    requires m <= |text| && (forall i :: 0 <= i < m ==> |text[i]| >= 2) && (m < |text| ==> |text[m]| < 2)
    ensures FirstSmall(text) == m
    decreases m
  {
    if m > 0 {
      FirstSmallAt(text[1..], m - 1);
    }
  }

  /** What the expansion loop builds: the pairs of each leading group with at least two lines. */
  function Expansion(text: seq<seq<Tokens>>): (res: seq<seq<Tokens>>)
    ensures |res| == FirstSmall(text) && forall t :: 0 <= t < |res| ==> res[t] == Pairs(text[t])
  {
    seq(FirstSmall(text), t requires 0 <= t < FirstSmall(text) => Pairs(text[t]))
  }

  lemma SettledIsExpansion(text: seq<seq<Tokens>>, res: seq<seq<Tokens>>)
    requires Settled(text, res, |text|)
    ensures res == Expansion(text)
  {
    FirstSmallAt(text, |res|);
  }

  /** Header names without '\n', and data lines whose tokens are clean. */
  predicate CleanLayout(p: Layout) {
    && (forall k :: 0 <= k < |p.header| ==> '\n' !in p.header[k])
    && CleanGroups(p.sections)
  }

  predicate CleanEntry(e: Entry) {
    && (e.Header? ==> '\n' !in e.name)
    && (e.Data? ==> CleanTokens(e.tokens))
  }

  /** A file line (no '\n' before its end) gives a clean entry. */
  lemma ClassifyIsClean(l: string)
    requires NoInnerNewline(l)
    ensures CleanEntry(Classify(l))
  {
    StripNoNewline(l);
    var e := Classify(l);
    if e.Header? {
      assert Strip(l)[1..] == e.name;
      assert forall c :: c in e.name ==> c in Strip(l);
    }
  }

  lemma NextIsClean(p: Layout, e: Entry)
    requires |p.sections| == |p.header| && CleanLayout(p) && CleanEntry(e)
    ensures CleanLayout(Next(p, e))
  {
    var q := Next(p, e);
    if e.Data? && p.header != [] {
      var n := |p.sections|;
      assert forall t :: 0 <= t < n - 1 ==> q.sections[t] == p.sections[t];
    }
  }

  /** Header names taken from file lines have no '\n', and data tokens are clean. */
  lemma {:induction false} ParseIsClean(lines: seq<string>)
    requires forall k :: 0 <= k < |lines| ==> NoInnerNewline(lines[k])
    ensures CleanLayout(Parse(lines))
    decreases |lines|
  {
    if lines != [] {
      var l := lines[|lines| - 1];
      ParseIsClean(lines[..|lines| - 1]);
      ClassifyIsClean(l);
      NextIsClean(Parse(lines[..|lines| - 1]), Classify(l));
    }
  }

  /** Reading the written file back gives exactly the lines of OutputLines. */
  lemma ReadBack(header: seq<string>, res: seq<seq<Tokens>>)
    requires |res| <= |header|
    requires forall r :: 0 <= r < |res| ==> '\n' !in header[r]
    requires forall r, i :: 0 <= r < |res| && 0 <= i < |res[r]| ==> CleanTokens(res[r][i])
    ensures Lines(Concat(OutputLines(header, res))) == OutputLines(header, res)
  {
    var bs := seq(|res|, r requires 0 <= r < |res| => BlockLines(r, header[r], res[r]));
    forall r | 0 <= r < |res|
      ensures forall k :: 0 <= k < |bs[r]| ==> IsLine(bs[r][k])
    {
      var head := [':'] + header[r] + ['\n'];
      assert head[..|head| - 1] == [':'] + header[r];
      forall i | 0 <= i < |res[r]| ensures IsLine(EntryLines(res[r])[i]) {
        EntryWords(res[r][i]);
        var l := EntryLines(res[r])[i];
        assert l[..|l| - 1] == JoinWith(res[r][i], ' ');
      }
    }
    ConcatLines(bs);
    LinesOfConcat(OutputLines(header, res));
  }

  lemma {:induction false} ConcatLines(bs: seq<seq<string>>)
    requires forall r, k :: 0 <= r < |bs| && 0 <= k < |bs[r]| ==> IsLine(bs[r][k])
    ensures forall k :: 0 <= k < |Concat(bs)| ==> IsLine(Concat(bs)[k])
    decreases |bs|
  {
    if bs != [] {
      ConcatLines(bs[1..]);
    }
  }

  /** Whether the script runs to the end on a file: both index errors are avoided. */
  predicate Converts(content: string) {
    var p := Parse(Lines(content));
    Groupable(p) && Expandable(GroupText(p))
  }

  /**
   * The script on the text of questions.txt: it fails exactly when a loop
   * raises IndexError, and otherwise writes a file whose lines are block r,
   * for each group with pairs, in the order of the headers.
   */
  method Convert(content: string) returns (r: Result<string, ConvertError>)
    ensures r.Ok? <==> Converts(content)
    ensures r.Ok? ==>
              var p := Parse(Lines(content));
              Lines(r.value) == OutputLines(p.header, Expansion(GroupText(p)))
  {
    var lines := Lines(content);
    var grouped := GroupLines(lines);
    if grouped.Err? {
      return Err(grouped.error);
    }
    var p := Parse(lines);
    SplitsIsGroupText(grouped.value.text, p);
    var expanded := ExpandPairs(grouped.value.text);
    if expanded.Err? {
      return Err(expanded.error);
    }
    SettledIsExpansion(grouped.value.text, expanded.value);
    var out := FormatBlocks(grouped.value.header, expanded.value);
    LinesShape(content);
    ParseIsClean(lines);
    GroupTextIsClean(p);
    ExpansionIsClean(grouped.value.text);
    ReadBack(grouped.value.header, expanded.value);
    r := Ok(out);
  }

  /** Every token list of every group is clean. */
  predicate CleanGroups(text: seq<seq<Tokens>>) {
    forall t, i :: 0 <= t < |text| && 0 <= i < |text[t]| ==> CleanTokens(text[t][i])
  }

  lemma GroupTextIsClean(p: Layout)
    requires CleanGroups(p.sections)
    ensures CleanGroups(GroupText(p))
  {
    var text := GroupText(p);
    assert forall t :: 0 <= t < |text| ==> text[t] == p.sections[t];
  }

  /** An entry joins two clean token lists of its group, so it is clean too. */
  lemma ExpansionIsClean(text: seq<seq<Tokens>>)
    requires CleanGroups(text)
    ensures CleanGroups(Expansion(text))
  {
    var res := Expansion(text);
    forall t, i | 0 <= t < |res| && 0 <= i < |res[t]|
      ensures CleanTokens(res[t][i])
    {
      var g := text[t];
      PairsMeaning(g);
      var x, y := PairAt(|g|, i);
      assert res[t][i] == g[x] + g[y];
    }
  }

  /** Every entry of a group is the entry of some ordered pair. */
  lemma PairAt(n: nat, i: nat) returns (x: nat, y: nat)
    requires i < n * (n - 1)
    ensures x < n && y < n && x != y && PairIndex(n, x, y) == i
  {
    x := i / (n - 1);
    var k := i % (n - 1);
    y := if k < x then k else k + 1;
    assert x * (n - 1) + k == i;
    assert x < n by {
      if x >= n {
        MulStep(n - 1, x, n - 1);
      }
    }
  }
}
