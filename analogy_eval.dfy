/**
 * Scoring analogy questions (Word2Vec.eval in word2vec_optimized.py). The
 * embedding arithmetic and the top-4 search are not modelled: for every
 * question the four predicted ids, best first, are an input.
 */
module AnalogyEval {
  import opened Results
  import opened AnalogyReader

  /** ANALOGY_COUNT: predictions per question. */
  const AnalogyCount: nat := 4
  /** Questions sent to the predictor at once. */
  const ChunkSize: nat := 2500

  /** A prediction that repeats a, b or c of the question (`idx[q, j] in sub[q, :3]`). */
  predicate Echoes(q: Question, id: int) {
    id == q.a || id == q.b || id == q.c
  }

  /**
   * The result of scanning one question's predictions: the priority bucket of
   * the hit (None for a total miss) and how many echoes were skipped.
   */
  datatype Outcome = Outcome(hit: Option<nat>, skips: nat)

  /** The position of the first occurrence of x in s at or after i, or |s|. */
  function FindFrom(s: seq<int>, x: int, i: nat): (k: nat)
    requires i <= |s|
    ensures i <= k <= |s| && (k < |s| ==> s[k] == x)
    ensures forall m :: i <= m < k ==> s[m] != x
    decreases |s| - i
  {
    if i < |s| && s[i] != x then FindFrom(s, x, i + 1) else i
  }

  /** How many of the first k predictions repeat a word of the question. */
  function EchoCount(q: Question, s: seq<int>, k: nat): (n: nat)
    requires k <= |s|
    ensures n <= k
  {
    if k == 0 then 0 else EchoCount(q, s, k - 1) + (if Echoes(q, s[k - 1]) then 1 else 0)
  }

  /**
   * The scoring rule, read from prediction j on: the first prediction equal
   * to d is a hit in bucket 0; a prediction before it that echoes a, b or c
   * is skipped; any other one pushes the hit one bucket down.
   */
  function ScoreFrom(q: Question, pred: seq<int>, j: nat): Outcome
    requires j <= |pred|
    decreases |pred| - j
  {
    if j == |pred| then Outcome(None, 0)
    else if pred[j] == q.d then Outcome(Some(0), 0)
    else
      var o := ScoreFrom(q, pred, j + 1);
      if Echoes(q, pred[j]) then Outcome(o.hit, o.skips + 1)
      else Outcome(if o.hit.Some? then Some(o.hit.value + 1) else None, o.skips)
  }

  /** The outcome of a question whose predictions, best first, are pred. */
  function Score(q: Question, pred: seq<int>): Outcome {
    ScoreFrom(q, pred, 0)
  }

  /**
   * Read from j on, the scan stops at the first d after j: it is a hit
   * exactly when there is one, the echoes it skips are those between j and
   * that d, and bucket plus skips is the distance from j to it.
   */
  lemma {:induction false} ScoreFromMeaning(q: Question, pred: seq<int>, j: nat)
    requires j <= |pred|
    ensures var o, k := ScoreFrom(q, pred, j), FindFrom(pred, q.d, j);
            && (o.hit.Some? <==> k < |pred|)
            && o.skips + EchoCount(q, pred, j) == EchoCount(q, pred, k)
            && (o.hit.Some? ==> o.hit.value + o.skips == k - j)
    decreases |pred| - j
  {
    if j < |pred| && pred[j] != q.d {
      ScoreFromMeaning(q, pred, j + 1);
    }
  }

  /**
   * A question is a hit exactly when d is among its predictions; the hit's
   * bucket plus the skipped echoes is the position of the first d, and the
   * echoes are counted before it. Equality with d is checked first, so a
   * question whose d is also one of a, b, c still counts as a hit.
   */
  lemma ScoreMeaning(q: Question, pred: seq<int>)
    ensures Score(q, pred).skips <= |pred|
    ensures Score(q, pred).hit.Some? <==> q.d in pred
    ensures var o := Score(q, pred);
            o.hit.Some? ==>
              var at := o.hit.value + o.skips;
              && at < |pred| && pred[at] == q.d && o.skips == EchoCount(q, pred, at)
              && forall m :: 0 <= m < at ==> pred[m] != q.d
    ensures var o := Score(q, pred);
            o.hit.None? ==> o.skips == EchoCount(q, pred, |pred|)
  {
    ScoreFromMeaning(q, pred, 0);
    var stop := FindFrom(pred, q.d, 0);
    if q.d in pred {
      var m :| 0 <= m < |pred| && pred[m] == q.d;
      assert stop <= m;
    }
  }

  /** Buckets a scored question can touch: correct[0..3] and skips_map[0..4]. */
  lemma ScoreFitsBuckets(q: Question, pred: seq<int>)
    requires |pred| == AnalogyCount
    ensures Score(q, pred).skips <= AnalogyCount
    ensures Score(q, pred).hit.Some? ==> Score(q, pred).hit.value + Score(q, pred).skips < AnalogyCount
  {
    ScoreMeaning(q, pred);
  }

  /** The inner `for j in xrange(ANALOGY_COUNT)` loop for one question. */
  method ScoreQuestion(q: Question, pred: seq<int>) returns (o: Outcome)
    requires |pred| == AnalogyCount
    ensures o == Score(q, pred)
  {
    var prio, skips := 0, 0;
    var hit: Option<nat> := None;
    var j := 0;
    while j < AnalogyCount
      invariant 0 <= j <= AnalogyCount
      invariant forall m :: 0 <= m < j ==> pred[m] != q.d
      invariant skips == EchoCount(q, pred, j) && prio + skips == j
    {
      if pred[j] == q.d {
        hit := Some(prio);
        break;
      } else if Echoes(q, pred[j]) {
        skips := skips + 1;
      } else {
        prio := prio + 1;
      }
      j := j + 1;
    }
    assert FindFrom(pred, q.d, 0) == j;
    ScoreFromMeaning(q, pred, 0);
    o := Outcome(hit, skips);
  }

  // ------------------------------------------------------------- histograms

  function Sum(h: seq<nat>): nat {
    if h == [] then 0 else h[0] + Sum(h[1..])
  }

  /** `h[i] += 1` */
  function Inc(h: seq<nat>, i: nat): (h': seq<nat>)
    requires i < |h|
    ensures |h'| == |h| && h'[i] == h[i] + 1
    ensures forall k :: 0 <= k < |h| && k != i ==> h'[k] == h[k]
  {
    h[i := h[i] + 1]
  }

  lemma {:induction false} SumInc(h: seq<nat>, i: nat)
    requires i < |h|
    ensures Sum(Inc(h, i)) == Sum(h) + 1
    decreases |h|
  {
    if i > 0 {
      assert Inc(h, i)[1..] == Inc(h[1..], i - 1);
      SumInc(h[1..], i - 1);
    } else {
      assert Inc(h, i)[1..] == h[1..];
    }
  }

  /** What every outcome of Score with four predictions satisfies. */
  predicate Fits(o: Outcome) {
    o.skips <= AnalogyCount && (o.hit.Some? ==> o.hit.value < AnalogyCount)
  }

  /** The correct and skips_map dicts of a block, as lists indexed by bucket. */
  datatype Counts = Counts(correct: seq<nat>, skipsMap: seq<nat>)

  /** correct has ANALOGY_COUNT buckets, skips_map one more. */
  predicate Shaped(c: Counts) {
    |c.correct| == AnalogyCount && |c.skipsMap| == AnalogyCount + 1
  }

  /**
   * `correct[prio] += 1` on a hit and `skips_map[skips] += 1` for every
   * question: a question adds one to guessed exactly when it is a hit, and
   * always one to the skips total.
   */
  function Record(c: Counts, o: Outcome): (c': Counts)
    requires Shaped(c) && Fits(o)
    ensures Shaped(c')
    ensures Sum(c'.correct) == Sum(c.correct) + (if o.hit.Some? then 1 else 0)
    ensures Sum(c'.skipsMap) == Sum(c.skipsMap) + 1
  {
    SumInc(c.skipsMap, o.skips);
    if o.hit.Some? then
      SumInc(c.correct, o.hit.value);
      Counts(Inc(c.correct, o.hit.value), Inc(c.skipsMap, o.skips))
    else
      Counts(c.correct, Inc(c.skipsMap, o.skips))
  }

  predicate WellPredicted(questions: seq<Question>, preds: seq<seq<int>>) {
    |preds| == |questions| && forall i :: 0 <= i < |preds| ==> |preds[i]| == AnalogyCount
  }

  /** The counts after the first n questions of a block are scored in order, from all zeros. */
  function Tallied(questions: seq<Question>, preds: seq<seq<int>>, n: nat): (c: Counts)
    requires WellPredicted(questions, preds) && n <= |questions|
    ensures Shaped(c)
  {
    if n == 0 then Counts([0, 0, 0, 0], [0, 0, 0, 0, 0])
    else
      ScoreFitsBuckets(questions[n - 1], preds[n - 1]);
      Record(Tallied(questions, preds, n - 1), Score(questions[n - 1], preds[n - 1]))
  }

  /** How many of the first n questions have their d among their four predictions. */
  function HitCount(questions: seq<Question>, preds: seq<seq<int>>, n: nat): (k: nat)
    requires |preds| == |questions| && n <= |questions|
    ensures k <= n
  {
    if n == 0 then 0
    else HitCount(questions, preds, n - 1) + (if questions[n - 1].d in preds[n - 1] then 1 else 0)
  }

  /**
   * Each question adds to at most one correct bucket, and to exactly one
   * skips_map entry: sum(correct) is the number of questions answered within
   * the top four, and sum(skips_map) the number of questions.
   */
  lemma {:induction false} TalliedSums(questions: seq<Question>, preds: seq<seq<int>>, n: nat)
    requires WellPredicted(questions, preds) && n <= |questions|
    ensures Sum(Tallied(questions, preds, n).correct) == HitCount(questions, preds, n)
    ensures Sum(Tallied(questions, preds, n).skipsMap) == n
  {
    if n > 0 {
      TalliedSums(questions, preds, n - 1);
      ScoreMeaning(questions[n - 1], preds[n - 1]);
    }
  }

  /** How many of the first n questions score a hit in bucket p. */
  function HitsIn(questions: seq<Question>, preds: seq<seq<int>>, n: nat, p: nat): (k: nat)
    requires |preds| == |questions| && n <= |questions|
    ensures k <= n
  {
    if n == 0 then 0
    else HitsIn(questions, preds, n - 1, p) + (if Score(questions[n - 1], preds[n - 1]).hit == Some(p) then 1 else 0)
  }

  /** How many of the first n questions skip exactly s echoes. */
  function SkippingIn(questions: seq<Question>, preds: seq<seq<int>>, n: nat, s: nat): (k: nat)
    requires |preds| == |questions| && n <= |questions|
    ensures k <= n
  {
    if n == 0 then 0
    else SkippingIn(questions, preds, n - 1, s) + (if Score(questions[n - 1], preds[n - 1]).skips == s then 1 else 0)
  }

  /** Recording an outcome adds one to its hit bucket, if any, and to its skips bucket, and nothing else. */
  lemma RecordBuckets(c: Counts, o: Outcome)
    requires Shaped(c) && Fits(o)
    ensures forall p :: 0 <= p < AnalogyCount ==>
              Record(c, o).correct[p] == c.correct[p] + (if o.hit == Some(p) then 1 else 0)
    ensures forall s :: 0 <= s <= AnalogyCount ==>
              Record(c, o).skipsMap[s] == c.skipsMap[s] + (if o.skips == s then 1 else 0)
  {
    if o.hit.Some? {
      assert Record(c, o).correct == Inc(c.correct, o.hit.value);
    }
    assert Record(c, o).skipsMap == Inc(c.skipsMap, o.skips);
  }

  /**
   * Bucket by bucket: correct[p] counts the questions whose hit lies in
   * bucket p, and skips_map[s] the questions that skipped s echoes.
   */
  lemma {:induction false} TalliedBuckets(questions: seq<Question>, preds: seq<seq<int>>, n: nat)
    requires WellPredicted(questions, preds) && n <= |questions|
    ensures forall p :: 0 <= p < AnalogyCount ==> Tallied(questions, preds, n).correct[p] == HitsIn(questions, preds, n, p)
    ensures forall s :: 0 <= s <= AnalogyCount ==> Tallied(questions, preds, n).skipsMap[s] == SkippingIn(questions, preds, n, s)
  {
    if n > 0 {
      TalliedBuckets(questions, preds, n - 1);
      var q, pred := questions[n - 1], preds[n - 1];
      ScoreFitsBuckets(q, pred);
      RecordBuckets(Tallied(questions, preds, n - 1), Score(q, pred));
    }
  }

  /** What eval computes for one block. */
  datatype BlockReport = BlockReport(correct: seq<nat>, skipsMap: seq<nat>, guessed: nat, total: nat)

  /**
   * One block: correct[p] counts the questions hit in bucket p and
   * skips_map[s] those that skipped s echoes; guessed = sum(correct) is the
   * number of questions answered within the top four, so it never exceeds
   * total, the block's size, and skips_map accounts for every question once.
   */
  function ScoreBlock(questions: seq<Question>, preds: seq<seq<int>>): (r: BlockReport)
    requires WellPredicted(questions, preds)
    ensures r.total == |questions|
    ensures |r.correct| == AnalogyCount && |r.skipsMap| == AnalogyCount + 1
    ensures r.guessed == HitCount(questions, preds, |questions|) <= r.total
    ensures Sum(r.skipsMap) == r.total
    ensures forall p :: 0 <= p < AnalogyCount ==> r.correct[p] == HitsIn(questions, preds, |questions|, p)
    ensures forall s :: 0 <= s <= AnalogyCount ==> r.skipsMap[s] == SkippingIn(questions, preds, |questions|, s)
  {
    TalliedSums(questions, preds, |questions|);
    TalliedBuckets(questions, preds, |questions|);
    var c := Tallied(questions, preds, |questions|);
    BlockReport(c.correct, c.skipsMap, Sum(c.correct), |questions|)
  }

  /** Scores question n and adds it to the counts of the questions before it. */
  method Tally(questions: seq<Question>, preds: seq<seq<int>>, n: nat, correct: seq<nat>, skipsMap: seq<nat>)
    returns (correct': seq<nat>, skipsMap': seq<nat>)
    requires WellPredicted(questions, preds) && n < |questions|
    requires Counts(correct, skipsMap) == Tallied(questions, preds, n)
    ensures Counts(correct', skipsMap') == Tallied(questions, preds, n + 1)
  {
    var o := ScoreQuestion(questions[n], preds[n]);
    ScoreFitsBuckets(questions[n], preds[n]);
    correct' := correct;
    if o.hit.Some? {
      correct' := Inc(correct, o.hit.value);
    }
    skipsMap' := Inc(skipsMap, o.skips);
  }

  /** `for question in xrange(sub.shape[0])` over the chunk sub = questions[start:stop]. */
  method ScoreChunk(questions: seq<Question>, preds: seq<seq<int>>, start: nat, stop: nat,
                    correct: seq<nat>, skipsMap: seq<nat>)
    returns (correct': seq<nat>, skipsMap': seq<nat>)
    requires WellPredicted(questions, preds) && start <= stop <= |questions|
    requires Counts(correct, skipsMap) == Tallied(questions, preds, start)
    ensures Counts(correct', skipsMap') == Tallied(questions, preds, stop)
  {
    correct', skipsMap' := correct, skipsMap;
    var question := start;
    while question < stop
      invariant start <= question <= stop
      invariant Counts(correct', skipsMap') == Tallied(questions, preds, question)
    {
      correct', skipsMap' := Tally(questions, preds, question, correct', skipsMap');
      question := question + 1;
    }
  }

  /**
   * The body of the per-block loop of eval: questions are sent to the
   * predictor in chunks of ChunkSize (the last one shorter), and every
   * question of every chunk is scored in order.
   */
  method EvalBlock(questions: seq<Question>, preds: seq<seq<int>>) returns (r: BlockReport)
    requires WellPredicted(questions, preds)
    ensures r == ScoreBlock(questions, preds) && r.guessed <= r.total
  {
    var correct: seq<nat> := [0, 0, 0, 0];
    var skipsMap: seq<nat> := [0, 0, 0, 0, 0];
    var total := |questions|;
    var start := 0;
    ghost var done := 0;
    while start < total
      invariant done <= total && (start < total ==> done == start) && (start >= total ==> done == total)
      invariant Counts(correct, skipsMap) == Tallied(questions, preds, done)
    {
      var limit := start + ChunkSize;
      // questions[start:limit]: the slice is cut at the end of the block
      var stop := if limit < total then limit else total;
      correct, skipsMap := ScoreChunk(questions, preds, start, stop, correct, skipsMap);
      start := limit;
      done := stop;
    }
    r := BlockReport(correct, skipsMap, Sum(correct), total);
  }

  /**
   * Why eval stops: the percentages of a block without questions divide by
   * zero, or no questions were ever read, so `_analogy_questions` does not
   * exist and reading it raises AttributeError.
   */
  datatype EvalError = EmptyBlock(block: nat) | QuestionsNotRead

  /** Everything eval reports: one report per block and the global totals. */
  datatype EvalSummary = EvalSummary(blocks: seq<BlockReport>, guessed: nat, total: nat)

  function SumGuessed(rs: seq<BlockReport>): nat {
    if rs == [] then 0 else SumGuessed(rs[..|rs| - 1]) + rs[|rs| - 1].guessed
  }

  function SumTotal(rs: seq<BlockReport>): nat {
    if rs == [] then 0 else SumTotal(rs[..|rs| - 1]) + rs[|rs| - 1].total
  }

  lemma SumsSnoc(rs: seq<BlockReport>, r: BlockReport)
    ensures SumGuessed(rs + [r]) == SumGuessed(rs) + r.guessed
    ensures SumTotal(rs + [r]) == SumTotal(rs) + r.total
  {
    assert (rs + [r])[..|rs|] == rs;
  }

  lemma {:induction false} GlobalGuessedBounded(rs: seq<BlockReport>)
    requires forall i :: 0 <= i < |rs| ==> rs[i].guessed <= rs[i].total
    ensures SumGuessed(rs) <= SumTotal(rs)
    decreases |rs|
  {
    if rs != [] {
      GlobalGuessedBounded(rs[..|rs| - 1]);
    }
  }

  /**
   * eval: every block is scored in turn and global_guessed / global_total
   * sum the blocks; the first block without questions raises
   * ZeroDivisionError when its percentages are formatted.
   */
  method Eval(blocks: seq<seq<Question>>, preds: seq<seq<seq<int>>>) returns (r: Result<EvalSummary, EvalError>)
    requires |preds| == |blocks|
    requires forall i :: 0 <= i < |blocks| ==> WellPredicted(blocks[i], preds[i])
    ensures r.Ok? <==> forall i :: 0 <= i < |blocks| ==> |blocks[i]| > 0
    ensures r.Err? ==> r.error.EmptyBlock? && var b := r.error.block;
                       b < |blocks| && blocks[b] == [] && forall i :: 0 <= i < b ==> |blocks[i]| > 0
    ensures r.Ok? ==> && |r.value.blocks| == |blocks|
                      && (forall i :: 0 <= i < |blocks| ==> r.value.blocks[i] == ScoreBlock(blocks[i], preds[i]))
                      && r.value.guessed == SumGuessed(r.value.blocks)
                      && r.value.total == SumTotal(r.value.blocks)
                      && r.value.guessed <= r.value.total
  {
    var reports: seq<BlockReport> := [];
    var globalGuessed, globalTotal := 0, 0;
    var i := 0;
    while i < |blocks|
      invariant 0 <= i <= |blocks| && |reports| == i
      invariant forall k :: 0 <= k < i ==> |blocks[k]| > 0 && reports[k] == ScoreBlock(blocks[k], preds[k])
      invariant globalGuessed == SumGuessed(reports) && globalTotal == SumTotal(reports)
      invariant globalGuessed <= globalTotal
    {
      var report := EvalBlock(blocks[i], preds[i]);
      if report.total == 0 {
        return Err(EmptyBlock(i));
      }
      SumsSnoc(reports, report);
      reports := reports + [report];
      globalGuessed := globalGuessed + report.guessed;
      globalTotal := globalTotal + report.total;
      i := i + 1;
    }
    r := Ok(EvalSummary(reports, globalGuessed, globalTotal));
  }
}
