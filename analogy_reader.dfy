/**
 * Loading analogy questions (Word2Vec.read_analogies in
 * word2vec_optimized.py). A question file is a sequence of lines; each data
 * line "a b c d" becomes four vocabulary ids. Files are looked up in a
 * file system given as a map from path to lines; a path exists when it is a key.
 */
module AnalogyReader {
  import opened Results
  import opened Text
  import opened Decimal

  /** One question: a is to b as c is to d. */
  datatype Question = Question(a: nat, b: nat, c: nat, d: nat)

  /** What read_file does with one line of the file. */
  datatype LineKind = Ignored | Skipped | Accepted(q: Question)

  /** A blank line or a ":" section header is neither a question nor a skip. */
  predicate IsIgnored(line: string) {
    var s := Strip(line);
    s == [] || s[0] == ':'
  }

  /** line.lower().split(b" ") of the stripped line: one field per single space. */
  function Fields(line: string): (ws: seq<string>)
    ensures |ws| >= 1
  {
    SplitOn(LowerAll(Strip(line)), ' ')
  }

  /** Every field names a known word (`None not in ids`). */
  predicate AllKnown(word2id: map<string, nat>, ws: seq<string>) {
    forall i :: 0 <= i < |ws| ==> Strip(ws[i]) in word2id
  }

  /** The set of ids a question may carry: the values of word2id. */
  predicate KnownIds(word2id: map<string, nat>, q: Question) {
    q.a in word2id.Values && q.b in word2id.Values && q.c in word2id.Values && q.d in word2id.Values
  }

  /** One pass of the loop body of read_file. */
  function ClassifyLine(word2id: map<string, nat>, line: string): LineKind {
    if IsIgnored(line) then Ignored
    else
      var ws := Fields(line);
      if |ws| != 4 || !AllKnown(word2id, ws) then Skipped
      else
        assert Strip(ws[0]) in word2id && Strip(ws[1]) in word2id;
        assert Strip(ws[2]) in word2id && Strip(ws[3]) in word2id;
        Accepted(Question(word2id[Strip(ws[0])], word2id[Strip(ws[1])],
                          word2id[Strip(ws[2])], word2id[Strip(ws[3])]))
  }

  /**
   * A line is ignored exactly when it is blank or a header, skipped exactly
   * when it has not four fields or one of them is unknown, and otherwise
   * accepted as the ids of its four fields, in order.
   */
  lemma ClassifyLineMeaning(word2id: map<string, nat>, line: string)
    ensures ClassifyLine(word2id, line) == Ignored <==> IsIgnored(line)
    ensures ClassifyLine(word2id, line) == Skipped <==>
              (!IsIgnored(line) && (|Fields(line)| != 4 || !AllKnown(word2id, Fields(line))))
    ensures var k := ClassifyLine(word2id, line);
            k.Accepted? ==>
              var ws := Fields(line);
              && |ws| == 4 && AllKnown(word2id, ws)
              && k.q.a == word2id[Strip(ws[0])] && k.q.b == word2id[Strip(ws[1])]
              && k.q.c == word2id[Strip(ws[2])] && k.q.d == word2id[Strip(ws[3])]
    ensures var k := ClassifyLine(word2id, line);
            k.Accepted? ==> KnownIds(word2id, k.q)
  {
    var ws := Fields(line);
    if !IsIgnored(line) && |ws| == 4 && AllKnown(word2id, ws) {
      assert Strip(ws[0]) in word2id && Strip(ws[1]) in word2id;
      assert Strip(ws[2]) in word2id && Strip(ws[3]) in word2id;
    }
  }

  /**
   * Fields are cut at every single space, so a doubled space inside a line
   * yields an empty field; as no word is empty, such a line is a skip.
   */
  lemma DoubledSpaceSkipped(word2id: map<string, nat>, line: string, p: nat)
    requires !IsIgnored(line) && "" !in word2id
    requires p + 1 < |Strip(line)| && Strip(line)[p] == ' ' && Strip(line)[p + 1] == ' '
    ensures ClassifyLine(word2id, line) == Skipped
  {
    var s := LowerAll(Strip(line));
    assert s[p] == ' ' && s[p + 1] == ' ';
    SplitOnDoubled(s, ' ', p);
    var ws := Fields(line);
    var k :| 1 <= k < |ws| && ws[k] == [];
    assert Strip(ws[k]) == [];
    ClassifyLineMeaning(word2id, line);
  }

  /** A character a vocabulary word may hold: no whitespace, no upper case. */
  predicate PlainChar(c: char) {
    !IsSpace(c) && !('A' <= c <= 'Z')
  }

  /** A plain word is its own strip() and holds no space. */
  lemma PlainWord(w: string)
    requires |w| > 0 && All(PlainChar, w)
    ensures ' ' !in w && Strip(w) == w
  {
    assert PlainChar(w[0]) && PlainChar(w[|w| - 1]);
    StripUnpadded(w);
  }

  /** Plain words: none empty, each made of plain characters. */
  predicate PlainWords(ws: seq<string>) {
    forall k :: 0 <= k < |ws| ==> |ws[k]| > 0 && All(PlainChar, ws[k])
  }

  /** Plain words joined by single spaces: the line starts with the first word and is all plain but for the spaces. */
  lemma JoinPlain(ws: seq<string>)
    requires |ws| >= 1 && PlainWords(ws)
    ensures forall k :: 0 <= k < |ws| ==> ' ' !in ws[k]
    ensures var line := JoinWith(ws, ' ');
            && line != [] && line[0] == ws[0][0] && !IsSpace(line[|line| - 1])
            && forall i :: 0 <= i < |line| ==> line[i] == ' ' || PlainChar(line[i])
  {
    forall k | 0 <= k < |ws|
      ensures ' ' !in ws[k]
    {
      PlainWord(ws[k]);
    }
    JoinShape(ws, ' ', PlainChar);
  }

  /** Lower-casing changes neither a space nor a plain character. */
  lemma LowerPlain(s: string)
    requires forall i :: 0 <= i < |s| ==> s[i] == ' ' || PlainChar(s[i])
    ensures LowerAll(s) == s
  {
    assert forall i :: 0 <= i < |s| ==> LowerAll(s)[i] == s[i];
  }

  /** Plain words joined by single spaces come back as the fields of the line. */
  lemma FieldsOfJoin(ws: seq<string>)
    requires |ws| >= 1 && PlainWords(ws)
    ensures var line := JoinWith(ws, ' ');
            Strip(line) == line && line[0] == ws[0][0] && Fields(line) == ws
  {
    var line := JoinWith(ws, ' ');
    JoinPlain(ws);
    StripUnpadded(line);
    LowerPlain(line);
    SplitOnJoin(ws, ' ');
  }

  /**
   * Four known words in lower case, without whitespace, joined by single
   * spaces, with no ':' in front: the line is accepted, and the question is
   * their ids in order.
   */
  lemma KnownWordsAccepted(word2id: map<string, nat>, ws: seq<string>)
    requires |ws| == 4 && ws[0] != [] && ws[0][0] != ':'
    requires PlainWords(ws) && forall k :: 0 <= k < |ws| ==> ws[k] in word2id
    ensures ClassifyLine(word2id, JoinWith(ws, ' ')) ==
              Accepted(Question(word2id[ws[0]], word2id[ws[1]], word2id[ws[2]], word2id[ws[3]]))
  {
    var line := JoinWith(ws, ' ');
    FieldsOfJoin(ws);
    PlainWord(ws[0]);
    PlainWord(ws[1]);
    PlainWord(ws[2]);
    PlainWord(ws[3]);
    assert !IsIgnored(line);
    assert AllKnown(word2id, ws);
  }

  /** What read_file returns (questions) and reports (questions_skipped). */
  datatype FileReport = FileReport(questions: seq<Question>, skipped: nat)

  function IgnoredCount(lines: seq<string>): nat {
    if lines == [] then 0
    else IgnoredCount(lines[..|lines| - 1]) + (if IsIgnored(lines[|lines| - 1]) then 1 else 0)
  }

  /** The effect of one classified line on the report. */
  function Step(r: FileReport, k: LineKind): FileReport {
    match k
    case Ignored => r
    case Skipped => r.(skipped := r.skipped + 1)
    case Accepted(q) => r.(questions := r.questions + [q])
  }

  /** read_file over a list of lines: each line classified in turn. */
  function ParseFile(word2id: map<string, nat>, lines: seq<string>): FileReport
    decreases |lines|
  {
    if lines == [] then FileReport([], 0)
    else Step(ParseFile(word2id, lines[..|lines| - 1]), ClassifyLine(word2id, lines[|lines| - 1]))
  }

  /**
   * Every line that is not ignored is either a question or a skip, and every
   * question is made of known ids.
   */
  lemma {:induction false} ParseFileCounts(word2id: map<string, nat>, lines: seq<string>)
    ensures var r := ParseFile(word2id, lines);
            |r.questions| + r.skipped + IgnoredCount(lines) == |lines|
    ensures var r := ParseFile(word2id, lines);
            forall k :: 0 <= k < |r.questions| ==> KnownIds(word2id, r.questions[k])
    decreases |lines|
  {
    if lines != [] {
      ParseFileCounts(word2id, lines[..|lines| - 1]);
      ClassifyLineMeaning(word2id, lines[|lines| - 1]);
    }
  }

  /** read_file: one pass over the lines, appending questions and counting skips. */
  method ReadFile(word2id: map<string, nat>, lines: seq<string>) returns (report: FileReport)
    ensures report == ParseFile(word2id, lines)
  {
    var questions: seq<Question> := [];
    var skipped := 0;
    var i := 0;
    while i < |lines|
      invariant 0 <= i <= |lines|
      invariant FileReport(questions, skipped) == ParseFile(word2id, lines[..i])
    {
      assert lines[..i + 1][..i] == lines[..i];
      var kind := ClassifyLine(word2id, lines[i]);
      assert ParseFile(word2id, lines[..i + 1]) == Step(FileReport(questions, skipped), kind);
      match kind {
        case Ignored =>
        case Skipped => skipped := skipped + 1;
        case Accepted(q) => questions := questions + [q];
      }
      i := i + 1;
    }
    assert lines[..i] == lines;
    report := FileReport(questions, skipped);
  }

  // ------------------------------------------------------- numbered files

  /** "%d" starts at position k of the pattern. */
  predicate IsPlaceholderAt(pattern: string, k: nat) {
    k + 1 < |pattern| && pattern[k] == '%' && pattern[k + 1] == 'd'
  }

  /** '%d' in eval_data */
  predicate HasPlaceholder(pattern: string) {
    exists k: nat | k < |pattern| :: IsPlaceholderAt(pattern, k)
  }

  /** The position of the first "%d", the one that % formatting fills in. */
  function FirstPlaceholder(pattern: string, from: nat): (k: nat)
    requires exists k: nat | from <= k < |pattern| :: IsPlaceholderAt(pattern, k)
    ensures from <= k && IsPlaceholderAt(pattern, k)
    ensures forall j: nat :: from <= j < k ==> !IsPlaceholderAt(pattern, j)
    decreases |pattern| - from
  {
    if IsPlaceholderAt(pattern, from) then from else FirstPlaceholder(pattern, from + 1)
  }

  /** eval_data % idx: the placeholder replaced by the decimal index. */
  function NumberedPath(pattern: string, idx: nat): string
    requires HasPlaceholder(pattern)
  {
    var k := FirstPlaceholder(pattern, 0);
    pattern[..k] + ShowNat(idx) + pattern[k + 2..]
  }

  /** The file of the k-th block (0-based): eval_data % (k + 1). */
  function BlockPath(pattern: string, k: nat): string
    requires HasPlaceholder(pattern)
  {
    NumberedPath(pattern, k + 1)
  }

  /** Different indices name different files. */
  lemma NumberedPathInjective(pattern: string, i: nat, j: nat)
    requires HasPlaceholder(pattern)
    requires NumberedPath(pattern, i) == NumberedPath(pattern, j)
    ensures i == j
  {
    var k := FirstPlaceholder(pattern, 0);
    var pi, pj := NumberedPath(pattern, i), NumberedPath(pattern, j);
    assert |ShowNat(i)| == |ShowNat(j)|;
    assert ShowNat(i) == pi[k..k + |ShowNat(i)|];
    assert ShowNat(j) == pj[k..k + |ShowNat(j)|];
    ShowNatInjective(i, j);
  }

  /** The questions read_file finds in every file of the file system. */
  ghost function ParsedFiles(word2id: map<string, nat>, fs: map<string, seq<string>>): map<string, seq<Question>> {
    map path | path in fs :: ParseFile(word2id, fs[path]).questions
  }

  /** Block k holds the questions of file eval_data % (k + 1), for every block loaded. */
  ghost predicate Loaded(parsed: map<string, seq<Question>>, evalData: string, blocks: seq<seq<Question>>)
    requires HasPlaceholder(evalData)
  {
    forall k :: 0 <= k < |blocks| ==> BlockPath(evalData, k) in parsed && blocks[k] == parsed[BlockPath(evalData, k)]
  }

  lemma LoadedSnoc(parsed: map<string, seq<Question>>, evalData: string, blocks: seq<seq<Question>>, questions: seq<Question>)
    requires HasPlaceholder(evalData) && Loaded(parsed, evalData, blocks)
    requires BlockPath(evalData, |blocks|) in parsed && questions == parsed[BlockPath(evalData, |blocks|)]
    ensures Loaded(parsed, evalData, blocks + [questions])
  {
    var bs := blocks + [questions];
    forall k | 0 <= k < |bs|
      ensures BlockPath(evalData, k) in parsed && bs[k] == parsed[BlockPath(evalData, k)]
    {
      if k < |blocks| {
        assert bs[k] == blocks[k];
      }
    }
  }

  /** Every path in seen is eval_data % k for some k below idx. */
  ghost predicate AllNumbered(evalData: string, seen: set<string>, idx: nat)
    requires HasPlaceholder(evalData)
  {
    forall s :: s in seen ==> exists k :: 1 <= k < idx && s == NumberedPath(evalData, k)
  }

  /** The file for idx has not been read before, so reading it brings the loop closer to its end. */
  lemma SeenStep(evalData: string, keys: set<string>, seen: set<string>, idx: nat)
    requires HasPlaceholder(evalData) && seen <= keys && AllNumbered(evalData, seen, idx)
    requires 1 <= idx && NumberedPath(evalData, idx) in keys
    ensures seen + {NumberedPath(evalData, idx)} <= keys
    ensures AllNumbered(evalData, seen + {NumberedPath(evalData, idx)}, idx + 1)
    ensures |keys - (seen + {NumberedPath(evalData, idx)})| < |keys - seen|
  {
    var path := NumberedPath(evalData, idx);
    if path in seen {
      var k :| 1 <= k < idx && path == NumberedPath(evalData, k);
      NumberedPathInjective(evalData, k, idx);
    }
    forall s | s in seen + {path}
      ensures exists k :: 1 <= k < idx + 1 && s == NumberedPath(evalData, k)
    {
      if s == path {
        assert 1 <= idx < idx + 1 && s == NumberedPath(evalData, idx);
      } else {
        var k :| 1 <= k < idx && s == NumberedPath(evalData, k);
        assert 1 <= k < idx + 1;
      }
    }
    assert keys - (seen + {path}) == (keys - seen) - {path};
  }

  /** The error read_analogies can end with: open() of a single file that does not exist. */
  datatype ReadError = FileMissing(path: string)

  /**
   * read_analogies: with a "%d" pattern, files 1, 2, ... are read until the
   * first index whose file does not exist; otherwise exactly one file is read.
   */
  method ReadAnalogies(word2id: map<string, nat>, fs: map<string, seq<string>>, evalData: string)
    returns (r: Result<seq<seq<Question>>, ReadError>)
    ensures HasPlaceholder(evalData) ==>
              && r.Ok?
              && BlockPath(evalData, |r.value|) !in fs
              && forall k :: 0 <= k < |r.value| ==>
                   BlockPath(evalData, k) in fs
                   && r.value[k] == ParseFile(word2id, fs[BlockPath(evalData, k)]).questions
    ensures !HasPlaceholder(evalData) ==>
              r == if evalData in fs then Ok([ParseFile(word2id, fs[evalData]).questions])
                   else Err(FileMissing(evalData))
  {
    if HasPlaceholder(evalData) {
      var blocks: seq<seq<Question>> := [];
      var idx := 1;
      ghost var seen: set<string> := {};
      while NumberedPath(evalData, idx) in fs
        invariant idx == |blocks| + 1
        invariant seen <= fs.Keys && AllNumbered(evalData, seen, idx)
        invariant Loaded(ParsedFiles(word2id, fs), evalData, blocks)
        decreases |fs.Keys - seen|
      {
        var path := NumberedPath(evalData, idx);
        assert path == BlockPath(evalData, |blocks|);
        var report := ReadFile(word2id, fs[path]);
        LoadedSnoc(ParsedFiles(word2id, fs), evalData, blocks, report.questions);
        blocks := blocks + [report.questions];
        SeenStep(evalData, fs.Keys, seen, idx);
        seen := seen + {path};
        idx := idx + 1;
      }
      assert NumberedPath(evalData, idx) == BlockPath(evalData, |blocks|);
      forall k | 0 <= k < |blocks|
        ensures BlockPath(evalData, k) in fs && blocks[k] == ParseFile(word2id, fs[BlockPath(evalData, k)]).questions
      {
        assert BlockPath(evalData, k) in ParsedFiles(word2id, fs);
      }
      r := Ok(blocks);
    } else if evalData in fs {
      var report := ReadFile(word2id, fs[evalData]);
      r := Ok([report.questions]);
    } else {
      r := Err(FileMissing(evalData));
    }
  }
}
