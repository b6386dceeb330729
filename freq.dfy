/**
 * input/freq.py: get_nums reads a vocabulary file back and keeps, for every
 * line after the first, the integer in its last whitespace-separated field.
 */
module Freq {
  import opened Results
  import opened Text
  import opened Decimal
  import Vocabulary

  /** Why int(s.strip().split()[-1]) fails on a line. */
  datatype LineError =
    | NoField       // IndexError: split() of a blank line is empty
    | NotAnInteger  // ValueError from int()

  /** The exception get_nums raises, with the 0-based number of the offending line. */
  datatype NumError = NumError(line: nat, kind: LineError)

  /** int(s.strip().split()[-1]) for one line. */
  function LineValue(line: string): Result<int, LineError>
  {
    var fields := Words(Strip(line));
    if fields == [] then Err(NoField)
    else match ParseInt(fields[|fields| - 1])
      case Some(n) => Ok(n)
      case None => Err(NotAnInteger)
  }

  /**
   * A line fails with NoField exactly when it has no field, and otherwise its
   * value is the integer its last field spells (stripping first changes nothing).
   */
  lemma LineValueMeaning(line: string)
    ensures LineValue(line) == Err(NoField) <==> Words(line) == []
    ensures Words(line) != [] ==>
              var last := Words(line)[|Words(line)| - 1];
              var r := LineValue(line);
              (r.Ok? ==> ParseInt(last) == Some(r.value)) && (r.Err? <==> ParseInt(last).None?)
  {
    RunsOfStrip(NotSpace, line);
  }

  /** The values of a list of per-line results, or the first failure and where it is. */
  function Collect(rs: seq<Result<int, LineError>>): (r: Result<seq<int>, NumError>)
    ensures r.Ok? <==> forall i :: 0 <= i < |rs| ==> rs[i].Ok?
    ensures r.Ok? ==> |r.value| == |rs| && forall i :: 0 <= i < |rs| ==> rs[i] == Ok(r.value[i])
    ensures r.Err? ==> r.error.line < |rs| && rs[r.error.line] == Err(r.error.kind)
                       && forall i :: 0 <= i < r.error.line ==> rs[i].Ok?
    decreases |rs|
  {
    if rs == [] then Ok([])
    else
      match rs[0]
      case Err(kind) => Err(NumError(0, kind))
      case Ok(v) =>
        match Collect(rs[1..])
        case Ok(vs) => Ok([v] + vs)
        case Err(e) => Err(NumError(e.line + 1, e.kind))
  }

  /** The list comprehension: one value per line, or the first line that fails. */
  function LineValues(lines: seq<string>): (r: Result<seq<int>, NumError>)
    ensures r.Ok? <==> forall i :: 0 <= i < |lines| ==> LineValue(lines[i]).Ok?
    ensures r.Ok? ==> |r.value| == |lines|
                      && forall i :: 0 <= i < |lines| ==> LineValue(lines[i]) == Ok(r.value[i])
    ensures r.Err? ==> r.error.line < |lines|
                       && LineValue(lines[r.error.line]) == Err(r.error.kind)
                       && forall i :: 0 <= i < r.error.line ==> LineValue(lines[i]).Ok?
  {
    var rs := LineResults(lines);
    var r := Collect(rs);
    assert forall i :: 0 <= i < |lines| ==> rs[i] == LineValue(lines[i]);
    r
  }

  /** LineValue of every line, in order. */
  function LineResults(lines: seq<string>): (rs: seq<Result<int, LineError>>)
    ensures |rs| == |lines| && forall i :: 0 <= i < |lines| ==> rs[i] == LineValue(lines[i])
  {
    seq(|lines|, i requires 0 <= i < |lines| => LineValue(lines[i]))
  }

  /** get_nums on the text of a file: the values of all lines but the first. */
  function GetNums(content: string): (r: Result<seq<int>, NumError>)
    ensures r.Ok? ==> |r.value| == if Lines(content) == [] then 0 else |Lines(content)| - 1
  {
    match LineValues(Lines(content))
    case Ok(vs) => Ok(if vs == [] then [] else vs[1..])
    case Err(e) => Err(e)
  }

  /** The last field of a line written by save_vocab is the count. */
  lemma VocabLineValue(word: string, count: int)
    ensures LineValue(Vocabulary.VocabLine(word, count)) == Ok(count)
  {
    var digits := ShowInt(count);
    assert All(NotSpace, digits);
    RunsOfRunThen(NotSpace, digits, []);
    assert digits + [] == digits;
    var line := Vocabulary.VocabLine(word, count);
    assert line == word + [' '] + digits + ['\n'];
    RunsSkipSuffix(NotSpace, word + [' '] + digits, ['\n']);
    RunsAroundSeparator(NotSpace, word, ' ', digits);
    RunsOfStrip(NotSpace, line);
    ParseShowInt(count);
  }

  /**
   * Round trip: reading back the vocabulary file that save_vocab wrote gives
   * every count but the first (the UNK entry), as long as no word holds a newline.
   */
  lemma GetNumsOfSavedVocab(words: seq<string>, counts: seq<int>)
    requires |counts| == |words|
    requires forall i :: 0 <= i < |words| ==> '\n' !in words[i]
    ensures GetNums(Concat(Vocabulary.VocabLines(words, counts))) == Ok(if counts == [] then [] else counts[1..])
  {
    var ls := Vocabulary.VocabLines(words, counts);
    forall k | 0 <= k < |ls| ensures IsLine(ls[k]) {
      var l := ls[k];
      assert l[..|l| - 1] == words[k] + [' '] + ShowInt(counts[k]);
    }
    LinesOfConcat(ls);
    forall k | 0 <= k < |ls| ensures LineValue(ls[k]) == Ok(counts[k]) {
      VocabLineValue(words[k], counts[k]);
    }
    var r := LineValues(ls);
    assert r.Ok? && r.value == counts;
  }
}
