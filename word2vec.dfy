/**
 * The state of the Word2Vec object (word2vec_optimized.py) that the
 * discrete parts of the program touch: the vocabulary maps and the loaded
 * analogy questions. The embeddings and the TensorFlow graph are not modelled.
 */
module Word2Vec {
  import opened Results
  import opened Vocabulary
  import opened AnalogyReader
  import opened AnalogyEval

  /** One iteration of `word2id[w] = i` on top of whatever word2id held before. */
  lemma BuildStep(before: map<string, nat>, words: seq<string>, i: nat)
    requires i < |words|
    ensures (before + Word2Id(words[..i]))[words[i] := i] == before + Word2Id(words[..i + 1])
  {
    assert words[..i + 1][..i] == words[..i];
    var m := Word2Id(words[..i]);
    assert Word2Id(words[..i + 1]) == m[words[i] := i];
    assert (before + m)[words[i] := i] == before + m[words[i] := i];
  }

  class Model {
    var word2id: map<string, nat>
    var id2word: seq<string>
    /** `_analogy_questions`: None until read_analogies has stored the blocks. */
    var analogyQuestions: Option<seq<seq<Question>>>

    /** Word2Vec.__init__ before build_graph: empty maps, and no questions attribute yet. */
    constructor ()
      ensures word2id == map[] && id2word == [] && analogyQuestions == None
    {
      word2id := map[];
      id2word := [];
      analogyQuestions := None;
    }

    /** word2id is the inverse of id2word built by the loop in build_graph. */
    ghost predicate Valid()
      reads this
    {
      word2id == Word2Id(id2word)
    }

    /** build_graph: `id2word = vocab_words`, then `word2id[w] = i` for each entry in order. */
    method BuildVocabMaps(vocabWords: seq<string>)
      modifies this
      ensures id2word == vocabWords && word2id == old(word2id) + Word2Id(vocabWords)
      ensures analogyQuestions == old(analogyQuestions)
      ensures old(word2id) == map[] ==> Valid()
    {
      ghost var before := word2id;
      id2word := vocabWords;
      var i := 0;
      while i < |id2word|
        invariant 0 <= i <= |id2word| && id2word == vocabWords
        invariant word2id == before + Word2Id(vocabWords[..i])
        invariant analogyQuestions == old(analogyQuestions)
      {
        BuildStep(before, vocabWords, i);
        word2id := word2id[id2word[i] := i];
        i := i + 1;
      }
      assert vocabWords[..i] == vocabWords;
      assert old(word2id) == map[] ==> old(word2id) + Word2Id(vocabWords) == Word2Id(vocabWords);
    }

    /**
     * `word2id.get(w, 0)`: a known word maps to its position in id2word (the
     * last one if it occurs twice), an unknown word to 0, the UNK entry.
     */
    function WordId(w: string): (id: nat)
      reads this
      ensures Valid() && w in id2word ==> id < |id2word| && id2word[id] == w
      ensures w !in word2id ==> id == 0
    {
      Word2IdMeaning(id2word);
      IdOrUnk(word2id, w)
    }

    /**
     * The ids looked up by analogy (for its three words) and by nearby: one
     * id per word, in the same order.
     */
    function WordIds(words: seq<string>): (ids: seq<nat>)
      reads this
      ensures |ids| == |words| && forall k :: 0 <= k < |words| ==> ids[k] == WordId(words[k])
      ensures Valid() ==> forall k :: 0 <= k < |words| && words[k] in id2word ==> ids[k] < |id2word| && id2word[ids[k]] == words[k]
      ensures forall k :: 0 <= k < |words| && words[k] !in word2id ==> ids[k] == 0
    {
      seq(|words|, k reads this requires 0 <= k < |words| => WordId(words[k]))
    }

    /**
     * read_analogies: the blocks found are stored in analogy_questions; a
     * missing single file raises before anything is stored.
     */
    method ReadAnalogyBlocks(fs: map<string, seq<string>>, evalData: string)
      returns (r: Result<seq<seq<Question>>, ReadError>)
      modifies this
      ensures word2id == old(word2id) && id2word == old(id2word)
      ensures r.Ok? ==> analogyQuestions == Some(r.value)
      ensures HasPlaceholder(evalData) ==>
                && r.Ok?
                && BlockPath(evalData, |r.value|) !in fs
                && forall k :: 0 <= k < |r.value| ==>
                     BlockPath(evalData, k) in fs
                     && r.value[k] == ParseFile(word2id, fs[BlockPath(evalData, k)]).questions
      ensures !HasPlaceholder(evalData) ==>
                r == if evalData in fs then Ok([ParseFile(word2id, fs[evalData]).questions])
                     else Err(FileMissing(evalData))
      ensures r.Ok? ==> forall k, j :: 0 <= k < |r.value| && 0 <= j < |r.value[k]| ==> KnownIds(word2id, r.value[k][j])
      ensures r.Err? ==> analogyQuestions == old(analogyQuestions) && !HasPlaceholder(evalData) && evalData !in fs
    {
      r := ReadAnalogies(word2id, fs, evalData);
      if r.Ok? {
        forall k | 0 <= k < |r.value|
          ensures forall j :: 0 <= j < |r.value[k]| ==> KnownIds(word2id, r.value[k][j])
        {
          var path := if HasPlaceholder(evalData) then BlockPath(evalData, k) else evalData;
          ParseFileCounts(word2id, fs[path]);
        }
        analogyQuestions := Some(r.value);
      }
    }

    /**
     * eval over the stored blocks, given the top-4 predictions of every
     * question; before read_analogies there is nothing to read from.
     */
    method Evaluate(preds: seq<seq<seq<int>>>) returns (r: Result<EvalSummary, EvalError>)
      requires analogyQuestions.Some? ==> |preds| == |analogyQuestions.value|
      requires analogyQuestions.Some? ==>
                 forall i :: 0 <= i < |preds| ==> WellPredicted(analogyQuestions.value[i], preds[i])
      ensures analogyQuestions.None? <==> r == Err(QuestionsNotRead)
      ensures analogyQuestions.Some? ==> var qs := analogyQuestions.value;
                && (r.Ok? <==> forall i :: 0 <= i < |qs| ==> |qs[i]| > 0)
                && (r.Ok? ==> |r.value.blocks| == |qs| && r.value.guessed <= r.value.total)
                && (r.Ok? ==> forall i :: 0 <= i < |preds| ==> r.value.blocks[i] == ScoreBlock(qs[i], preds[i]))
                && (r.Ok? ==> r.value.guessed == SumGuessed(r.value.blocks) && r.value.total == SumTotal(r.value.blocks))
                && (r.Err? ==> r.error.EmptyBlock? && var b := r.error.block;
                                 b < |qs| && qs[b] == [] && forall i :: 0 <= i < b ==> |qs[i]| > 0)
    {
      if analogyQuestions.None? {
        r := Err(QuestionsNotRead);
      } else {
        r := Eval(analogyQuestions.value, preds);
      }
    }
  }
}
