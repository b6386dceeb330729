# word2vec (tol_stoy): the discrete core, in Dafny

This project models the integer and string logic around a skip-gram word2vec
trainer. The trainer runs on TensorFlow and has a set of small preprocessing
scripts beside it. The modelled parts are:

- **Run-mode resolution** in `Options.__init__`. Three flags, `load_data`, `resume` and `interactive`, together decide whether the program trains, restores a checkpoint or opens a shell (module `RunOptions`).
- **The vocabulary maps.** `word2id` is built as the inverse of `id2word`. `save_vocab` writes `vocab.txt` as `"word count"` lines (module `Vocabulary`). The `Word2Vec` object holds both maps and the loaded questions (module `Word2Vec`, class `Model`).
- **Loading analogy questions.** `read_file` filters lines, splits them and looks the words up. Blocks are discovered through a numbered `eval_data` pattern (module `AnalogyReader`).
- **Scoring analogy questions** in `eval`. The top-4 predicted ids are scanned, a hit goes into a priority bucket, and ids that echo the question are skipped. A skip histogram is kept. Questions are processed in chunks of 2500, and totals are summed across blocks (module `AnalogyEval`). The predictor is an input: four ids per question, best first.
- **`input/convert_questions.py`**: grouping question lines under `:` headers, expanding each group into every ordered pair of distinct lines, and writing the output file (module `ConvertQuestions`).
- **`input/convert_text.py`**: normalising a corpus. It lowercases, turns every run of non-word or digit characters into one space, then splits and joins (module `ConvertText`). Character classes and lowercasing are parameters.
- **`input/freq.py`**: `get_nums` reads the count column of a vocab file (module `Freq`). A round-trip lemma connects it to `save_vocab`.

Shared string machinery lives in `Text`:

- `strip`, `split()` and `split(sep)`, `join`;
- iterating over the lines of a file.

`Decimal` holds `%d` and `int()`, and `Results` holds the `Option` and `Result` types.

Files are modelled as values. The text of a file is a `string`; a file system is a `map` from path to lines. Real I/O and `os.path.exists` are not modelled.

## Model

| member | source | states |
|---|---|---|
| RunOptions.ResolveMode | word2vec_optimized.py:163-169 | load_data without resume sets epochs_to_train to 0. It sets interactive to True only when it was unset. resume forces load_data and leaves epochs_to_train unchanged. Otherwise nothing changes. |
| RunOptions.ResolveModeIdempotent | word2vec_optimized.py:163-169 | Applying the rule again to its own result changes nothing. |
| RunOptions.ResolvedRunPlan | word2vec_optimized.py:163-169 | With a positive epoch count, the program trains exactly when it is not loading or is resuming. A plain load opens the shell unless interactive was explicitly False. Resume keeps the user's interactive flag. |
| RunOptions.Options.constructor | word2vec_optimized.py:110-169 | Every flag is copied into its field, then the mode fields hold ResolveMode of the flags. |
| Vocabulary.Word2IdMeaning | word2vec_optimized.py:249-251 | For Word2Id, the map built from id2word: the keys are exactly the vocabulary words. Each word maps to an index holding that word, and no later index holds it, so the last occurrence wins. |
| Vocabulary.Word2IdInverts | word2vec_optimized.py:249-251 | For distinct words, word2id[id2word[i]] == i for every i, and the map has one entry per word. |
| Vocabulary.SaveVocab | word2vec_optimized.py:293-300 | The file text is the concatenation of VocabLines: one VocabLine, "word count\n", per vocabulary entry, in id order. |
| Word2Vec.Model.BuildVocabMaps | word2vec_optimized.py:249-251 | id2word becomes the vocabulary. word2id becomes its old contents overridden by Word2Id of the vocabulary, so starting from the empty map word2id is the inverse of id2word. |
| Word2Vec.Model.WordId | word2vec_optimized.py:463 | A known word maps to an id whose id2word entry is that word. An unknown word maps to 0, the UNK entry. |
| Word2Vec.Model.WordIds | word2vec_optimized.py:463-475 | One id per word, in order, as analogy and nearby look them up. Known words map back to themselves through id2word; unknown words map to 0. |
| Word2Vec.Model.ReadAnalogyBlocks | word2vec_optimized.py:220-229 | With "%d" in eval_data it always succeeds: block k is ParseFile of file k+1, and the file after the last block does not exist. Otherwise it succeeds exactly when the one file exists, with its questions as the only block. On success the blocks are stored, replacing any earlier ones, and every question uses known ids. A failure is a missing single file and leaves the stored questions, or their absence, unchanged. |
| Word2Vec.Model.Evaluate | word2vec_optimized.py:404-458 | Before any questions are read, eval fails with QuestionsNotRead, the AttributeError on the missing attribute, and only then. Otherwise it succeeds exactly when no stored block is empty; else the error names the first empty block. Each block report is ScoreBlock, the global totals are the sums of guessed and total over the blocks, and guessed never exceeds total. |
| AnalogyReader.ClassifyLineMeaning | word2vec_optimized.py:207-216 | For ClassifyLine, one pass of the loop body: a line is ignored exactly when its stripped form is empty or starts with ":". It is skipped exactly when it is not ignored and splitting on single spaces gives other than 4 fields or an unknown word. An accepted question holds the ids of its four fields, which are values of word2id. |
| AnalogyReader.DoubledSpaceSkipped | word2vec_optimized.py:211-214 | A line that is not ignored and has two spaces in a row after stripping is skipped, given that no word is empty: the split leaves an empty field. |
| AnalogyReader.KnownWordsAccepted | word2vec_optimized.py:211-216 | Four known lowercase words without whitespace, the first not starting with ":", joined by single spaces, are accepted as the question of their four ids in order. |
| AnalogyReader.FieldsOfJoin | word2vec_optimized.py:207-211 | Words without whitespace or upper case, joined by single spaces, are unchanged by strip(), and lower() followed by split(b" ") gives them back. |
| AnalogyReader.ParseFileCounts | word2vec_optimized.py:207-218 | For ParseFile, the whole read_file loop over a list of lines: questions, skips and ignored lines add up to the number of lines. Every question is made of known ids. |
| AnalogyReader.ReadFile | word2vec_optimized.py:203-218 | The line loop returns exactly ParseFile of the lines. |
| AnalogyReader.NumberedPathInjective | word2vec_optimized.py:220-223 | Different indices give different paths when substituted for the first "%d". |
| AnalogyReader.ReadAnalogies | word2vec_optimized.py:219-229 | With "%d" in eval_data, block k is the questions of file k+1, and the file after the last block does not exist. Otherwise the result is exactly the one file's questions, or a missing-file error. |
| AnalogyEval.ScoreMeaning | word2vec_optimized.py:429-442 | For Score, the outcome of one question: the prediction at position prio + skips is the first one equal to d, and skips counts the earlier predictions that echo a, b or c. There is a hit exactly when d is among the predictions. On a miss, skips counts the echoes among all four. |
| AnalogyEval.ScoreFromMeaning | word2vec_optimized.py:431-442 | For ScoreFrom, the scan read from prediction j: scanning from prediction j, there is a hit exactly when d occurs at or after j. The echoes skipped are those between j and the first such d, and bucket plus skips is the distance from j to it. |
| AnalogyEval.ScoreFitsBuckets | word2vec_optimized.py:429-445 | With four predictions, prio + skips < 4 on a hit and skips <= 4, so the correct and skips_map indices stay in range. |
| AnalogyEval.ScoreQuestion | word2vec_optimized.py:429-445 | The j-loop with its break computes Score. |
| AnalogyEval.Record | word2vec_optimized.py:432-445 | Recording a question keeps 4 correct buckets and 5 skips_map buckets. It adds one to sum(correct) exactly on a hit, and always one to sum(skips_map). |
| AnalogyEval.TalliedSums | word2vec_optimized.py:428-447 | After n questions, sum(correct) is the number of them whose d is among their predictions, and sum(skips_map) is n: each question lands in at most one correct bucket and exactly one skips_map bucket. |
| AnalogyEval.TalliedBuckets | word2vec_optimized.py:428-445 | After n questions, correct[p] is the number of them whose hit is in bucket p, and skips_map[s] the number that skipped exactly s echoes. |
| AnalogyEval.RecordBuckets | word2vec_optimized.py:440-445 | Recording one outcome adds one to its hit bucket, if it has one, and one to its skips bucket; every other bucket is unchanged. |
| AnalogyEval.ScoreBlock | word2vec_optimized.py:412-447 | One block: correct has 4 buckets and skips_map 5. correct[p] counts the questions hit in bucket p, and skips_map[s] those that skipped s echoes. guessed == sum(correct) is the number of questions whose d is among their predictions, so guessed <= total, and sum(skips_map) == total, the block's size. |
| AnalogyEval.Tally | word2vec_optimized.py:429-445 | Scoring question n and updating correct and skips_map turns the counts of the first n questions into those of the first n+1. |
| AnalogyEval.ScoreChunk | word2vec_optimized.py:428-445 | The loop over one chunk, questions start to stop, turns the counts of the questions before start into those of the questions before stop. |
| AnalogyEval.EvalBlock | word2vec_optimized.py:422-445 | The chunked loop with limit = start + 2500 scores every question exactly once and in order, whatever the total, and yields ScoreBlock. |
| AnalogyEval.GlobalGuessedBounded | word2vec_optimized.py:452-453 | Summed over blocks, global_guessed <= global_total. |
| AnalogyEval.Eval | word2vec_optimized.py:404-458 | It succeeds exactly when no block is empty; otherwise the error names the first empty block. On success it gives one ScoreBlock report per block, and the global totals are the sums of guessed and total. |
| ConvertQuestions.Classify | input/convert_questions.py:11-20 | A data line has at least one token. |
| ConvertQuestions.SectionsBetweenHeaders | input/convert_questions.py:10-20 | For Parse, which applies Next line by line: the preamble is the data lines before the first header, and section k holds exactly the data lines after header k and before header k+1 (or the end of the file), in order. |
| ConvertQuestions.HeaderCount | input/convert_questions.py:14-17 | There is one section per header line. |
| ConvertQuestions.ParseKeepsEverything | input/convert_questions.py:10-20 | For Parse: header names are kept in order. Every data line's tokens appear exactly once, in order, either before the first header or in the section of the header above it. |
| ConvertQuestions.StaysUngroupable | input/convert_questions.py:18-20 | Once the lines read so far cannot be grouped, no further lines can make the file groupable. |
| ConvertQuestions.UngroupableNext | input/convert_questions.py:14-20 | A line read after a data line has found no group cannot make the lines groupable again. |
| ConvertQuestions.ParseIsClean | input/convert_questions.py:11-20 | Header names read from file lines contain no newline. Every data token is non-empty and has no whitespace. |
| ConvertQuestions.GroupLines | input/convert_questions.py:4-20 | It succeeds exactly when no data line precedes the first header and no header without data is followed by one with data. The failing line is a data line, and all lines before it are groupable. On success, header is every header name and text is the leading non-empty sections, all later sections being empty. |
| ConvertQuestions.PairsMeaning | input/convert_questions.py:21-28 | For Pairs, the expansion of one group: a group of n lines has n*(n-1) entries. The entry at PairIndex(n, x, y) is line x's tokens followed by line y's. |
| ConvertQuestions.PairIndexOrder | input/convert_questions.py:22-23 | Entries are ordered with x outer and y inner. |
| ConvertQuestions.PairAt | input/convert_questions.py:22-28 | Every entry position belongs to some ordered pair of distinct lines. |
| ConvertQuestions.ExpandPairs | input/convert_questions.py:21-28 | It succeeds exactly when no group with fewer than two lines precedes one with two or more. On success, res[t] is Pairs of group t for the leading groups with pairs, and every later group has fewer than two lines. An error names a group with pairs that has a smaller group before it. |
| ConvertQuestions.ExpandGroup | input/convert_questions.py:22-28 | The two inner loops for group t extend res so that it covers group t. They fail only when group t has pairs and an earlier group had fewer than two lines. |
| ConvertQuestions.ExpandRow | input/convert_questions.py:23-28 | Pairing line x with every other line y appends its row of entries to res[t]. res[t] is created on the first entry, and creating it fails when an earlier group had no entries. |
| ConvertQuestions.FormatBlocks | input/convert_questions.py:30-36 | The written text is the concatenation of OutputLines: a blank line before every block after the first, then ":" + header[r], then one line per entry, its tokens joined by single spaces. |
| ConvertQuestions.EntryWords | input/convert_questions.py:35 | A written entry line splits back into its tokens and contains no newline. |
| ConvertQuestions.PairLineWords | input/convert_questions.py:28-35 | The output line for the pair (x, y) splits into line x's tokens followed by line y's. |
| ConvertQuestions.ReadBack | input/convert_questions.py:30-36 | Reading the written file back line by line gives exactly OutputLines, the blocks' lines one after another. |
| ConvertQuestions.Convert | input/convert_questions.py:1-36 | The script fails exactly when one of its index errors occurs. Otherwise the lines of its output are OutputLines of the header names and the pair expansion of the groups. |
| ConvertText.Squash | input/convert_text.py:10 | The result of `re.sub(r'[\W\d]+', ' ', ...)` is empty exactly for empty input. It starts with the first character when that is kept and with a space otherwise. Every character is a space or a kept character. |
| ConvertText.Normalise | input/convert_text.py:10-12 | The output has no leading or trailing space and no double space, and every other character is a non-digit word character. |
| ConvertText.Lower | input/convert_text.py:10 | lower() maps every character by itself and keeps the length. |
| ConvertText.TokensAreKept | input/convert_text.py:10 | For Tokens, the words of the squashed text: every token is non-empty and made only of non-digit word characters. |
| ConvertText.TokensAreRuns | input/convert_text.py:10 | The tokens are exactly the maximal runs of non-digit word characters of the lowercased text, in order. |
| ConvertText.NormalisedWords | input/convert_text.py:10-12 | Splitting the output gives back exactly those runs. |
| ConvertText.NormaliseWithoutWords | input/convert_text.py:10-12 | Text without a non-digit word character, the empty text included, gives empty output. |
| ConvertText.NormaliseIsLowerCase | input/convert_text.py:10-12 | When lowercasing is idempotent, the output is already lowercase. |
| ConvertText.NormaliseIdempotent | input/convert_text.py:10-12 | Normalising the output again gives the same output. |
| Freq.LineValueMeaning | input/freq.py:3 | For LineValue, one element of the comprehension: a line without fields is the IndexError case. Otherwise the value is int() of the last whitespace-separated field, or the ValueError case when that field is not an integer. |
| Freq.LineValues | input/freq.py:3 | Success exactly when every line parses, with the values in line order. An error names the first failing line and why it failed. |
| Freq.GetNums | input/freq.py:1-3 | The value of the first line is dropped, so a successful result has one value fewer than there are lines. |
| Freq.VocabLineValue | input/freq.py:3 | A "word count" line written by save_vocab (word2vec_optimized.py, lines 299-300) parses back to its count. |
| Freq.GetNumsOfSavedVocab | input/freq.py:1-3 | A vocab file written by save_vocab (word2vec_optimized.py, lines 293-300), with newline-free words, reads back as counts[1:]. |
| Decimal.ShowInt | word2vec_optimized.py:299-300 | "%d" gives a non-empty string of digits, with a leading "-" exactly for negative values. |
| Decimal.ParseInt | input/freq.py:3 | int() accepts exactly an optional sign followed by at least one ASCII digit. |
| Decimal.ParseShowInt | input/freq.py:3 | int() of "%d" % n is n, the "%d" being the one save_vocab writes. |
| Decimal.ShowNatInjective | word2vec_optimized.py:222-223 | Different indices give different decimal strings. |
| Text.Strip | word2vec_optimized.py:208 | strip() removes only whitespace, at both ends, and the result neither starts nor ends with whitespace. |
| Text.Words | input/convert_text.py:10 | Every token split() produces is non-empty and has no whitespace. |
| Text.LowerAll | word2vec_optimized.py:211 | lower() keeps the length and maps each character through ASCII lowercasing. |
| Text.StripUnpadded | word2vec_optimized.py:208 | A string that neither starts nor ends with whitespace is unchanged by strip(). |
| Text.RunsAreRuns | input/convert_text.py:10 | Every token that split() produces is non-empty and is made only of accepted characters. |
| Text.RunsOfJoin | input/convert_text.py:12 | For JoinWith, `sep.join`: joining non-empty tokens with a separator and splitting again gives the tokens back. |
| Text.SplitOn | word2vec_optimized.py:211 | split(b" ") gives at least one field, and no field holds the separator. |
| Text.SplitOnDoubled | word2vec_optimized.py:211 | Two separators in a row give an empty field after the first field. |
| Text.JoinSplitOn | word2vec_optimized.py:211 | Joining the fields of split(b" ") with a single space rebuilds the line. |
| Text.SplitOnJoin | word2vec_optimized.py:211 | Splitting a JoinWith space-join of space-free fields gives the fields back, empty ones included. |
| Text.Lines | input/freq.py:2-3 | A file has no lines exactly when it is empty, and every line is non-empty. |
| Text.LinesOfConcat | input/freq.py:2-3 | Iterating over a file written as whole lines yields exactly those lines. |

## Left out

- The training ops `skipgram_word2vec` and `neg_train_word2vec`, and vocabulary building, subsampling and windowing. They live in a compiled op library whose source is not part of this model.
- Multi-threaded training, the epoch polling and the sleeps (`_train_thread_body`, `train`). The concurrency is not modelled.
- Floating point:
  - the learning rate;
  - embedding initialisation, normalisation, matmul and top-k, whose top-4 output is an input of `AnalogyEval`;
  - the percentages that eval formats. Only their division by zero on an empty block is kept, as `EmptyBlock`.
- TensorFlow sessions, checkpoint save and restore, the IPython shell, the log file and everything printed.
- `u2b`, `b2u` and `to_utf`. Words are modelled as already-decoded strings.
- Real file reading and writing and `os.path.exists`. A file is its text or its list of lines; a file system is a map from path to lines.
- The module-level driver code and hard-coded paths of the `input/` scripts, and the `sys.exit` argument check in `main`.
- Text.IsSpace: the six characters space, '\t', '\n', '\r', '\x0b' and '\x0c' only, which is exactly what `bytes.split()` and `bytes.strip()` remove. On `str`, `split()` and `strip()` also remove the ASCII separators '\x1c' to '\x1f', '\x85' and the Unicode spaces; those are not modelled.
- Decimal.ParseInt: no underscores, no non-ASCII digits and no surrounding whitespace. The caller has already stripped the field.
- Text.Lines: a line ends only at '\n'. The '\r' and "\r\n" endings that text-mode reading also splits on are not modelled.
- Text.LowerAll: ASCII case mapping only, for `bytes.lower()`. ConvertText takes `str.lower()` as a parameter that maps one character to one, so lowercasings that change length are not modelled.
- AnalogyReader.NumberedPath: only the first "%d" is filled in. A pattern with other `%` conversions, such as "%%" or "%s", is not modelled.
- The Word2Vec constructor's calls to build_graph, build_eval_graph and save_vocab. They are modelled separately, as BuildVocabMaps and SaveVocab.
- Behaviour at the edges, as the code has it:
  - With a numbered pattern, a missing first file gives zero blocks and no error: `read_analogies` reads nothing, and eval of zero blocks reports nothing.
  - Analogy lines are split on single spaces, not on any whitespace. A doubled space gives an empty field, and the line is skipped.
