/**
 * The vocabulary maps of the model (word2vec_optimized.py): id2word is the
 * vocabulary list produced by the training op, word2id its inverse, and
 * save_vocab writes one "word count" line per entry.
 */
module Vocabulary {
  import opened Text
  import opened Decimal

  /** word2id after `for i, w in enumerate(id2word): word2id[w] = i` on an empty dict. */
  function Word2Id(words: seq<string>): map<string, nat>
    decreases |words|
  {
    if words == [] then map[]
    else Word2Id(words[..|words| - 1])[words[|words| - 1] := |words| - 1]
  }

  /**
   * The keys of word2id are exactly the words; each maps to a position holding
   * it, and no later position holds it, so the last occurrence wins.
   */
  lemma {:induction false} Word2IdMeaning(words: seq<string>)
    ensures Word2Id(words).Keys == set w | w in words
    ensures forall w :: w in Word2Id(words) ==> Word2Id(words)[w] < |words| && words[Word2Id(words)[w]] == w
    ensures forall w, j :: w in Word2Id(words) && Word2Id(words)[w] < j < |words| ==> words[j] != w
  {
    Word2IdKeys(words);
    Word2IdLast(words);
  }

  lemma {:induction false} Word2IdKeys(words: seq<string>)
    ensures Word2Id(words).Keys == set w | w in words
    decreases |words|
  {
    if words != [] {
      var init, last := words[..|words| - 1], words[|words| - 1];
      assert words == init + [last];
      Word2IdKeys(init);
      assert (set w | w in words) == (set w | w in init) + {last};
    }
  }

  lemma {:induction false} Word2IdLast(words: seq<string>)
    ensures forall w :: w in Word2Id(words) ==> Word2Id(words)[w] < |words| && words[Word2Id(words)[w]] == w
    ensures forall w, j :: w in Word2Id(words) && Word2Id(words)[w] < j < |words| ==> words[j] != w
    decreases |words|
  {
    if words != [] {
      var init, last := words[..|words| - 1], words[|words| - 1];
      Word2IdLast(init);
      var m := Word2Id(init);
      assert Word2Id(words) == m[last := |init|];
      forall w | w in m && w != last
        ensures m[w] < |words| && words[m[w]] == w
        ensures forall j :: m[w] < j < |words| ==> words[j] != w
      {
        assert words[m[w]] == init[m[w]];
      }
    }
  }

  predicate Distinct(words: seq<string>) {
    forall i, j :: 0 <= i < j < |words| ==> words[i] != words[j]
  }

  /** With distinct words, word2id inverts id2word exactly. */
  lemma Word2IdInverts(words: seq<string>)
    requires Distinct(words)
    ensures forall i :: 0 <= i < |words| ==> words[i] in Word2Id(words) && Word2Id(words)[words[i]] == i
    ensures |Word2Id(words)| == |words|
  {
    var m := Word2Id(words);
    Word2IdMeaning(words);
    forall i | 0 <= i < |words| ensures m[words[i]] == i {
      assert words[i] in m.Keys;
      var j := m[words[i]];
      assert words[j] == words[i];
    }
    DistinctSetSize(words);
  }

  lemma {:induction false} DistinctSetSize(words: seq<string>)
    requires Distinct(words)
    ensures |set w | w in words| == |words|
    decreases |words|
  {
    if words != [] {
      var init := words[..|words| - 1];
      DistinctSetSize(init);
      assert (set w | w in words) == (set w | w in init) + {words[|words| - 1]};
      assert words[|words| - 1] !in init;
    }
  }

  /** `word2id.get(w, 0)`: the id of a known word, 0 (the UNK entry) otherwise. */
  function IdOrUnk(word2id: map<string, nat>, w: string): nat {
    if w in word2id then word2id[w] else 0
  }

  /** The line save_vocab writes for one entry: "%s %d\n". */
  function VocabLine(word: string, count: int): string {
    word + [' '] + ShowInt(count) + ['\n']
  }

  function VocabLines(words: seq<string>, counts: seq<int>): (ls: seq<string>)
    requires |counts| == |words|
    ensures |ls| == |words|
  {
    seq(|words|, i requires 0 <= i < |words| => VocabLine(words[i], counts[i]))
  }

  lemma VocabTextSnoc(words: seq<string>, counts: seq<int>, i: nat)
    requires |counts| == |words| && i < |words|
    ensures Concat(VocabLines(words, counts)[..i + 1]) == Concat(VocabLines(words, counts)[..i]) + VocabLine(words[i], counts[i])
  {
    var ls := VocabLines(words, counts);
    assert ls[..i + 1] == ls[..i] + [ls[i]];
    ConcatAppend(ls[..i], [ls[i]]);
    assert Concat([ls[i]]) == ls[i] + Concat<char>([]);
  }

  /** save_vocab: the text of vocab.txt, one line per vocabulary entry in id order. */
  method SaveVocab(words: seq<string>, counts: seq<int>) returns (content: string)
    requires |counts| == |words|
    ensures content == Concat(VocabLines(words, counts))
  {
    content := [];
    var i := 0;
    while i < |words|
      invariant 0 <= i <= |words|
      invariant content == Concat(VocabLines(words, counts)[..i])
    {
      VocabTextSnoc(words, counts, i);
      content := content + VocabLine(words[i], counts[i]);
      i := i + 1;
    }
    assert VocabLines(words, counts)[..i] == VocabLines(words, counts);
  }
}
