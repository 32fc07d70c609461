# Verb translation accuracy, modelled in Dafny

`eval_verb_accuracy.py` scores a machine translation system on ambiguous verbs. A query CSV
maps each English query (for example `a dog jumps`) to its gold verb in English (`verb`) and
in German (`verb_translation`). Every line of the images file names an evaluation image whose
prefix before `"__"`, with underscores read as spaces, is such a query. The script:

1. builds the query -> verb lexicon for the target language;
2. turns the images file into one gold form per line;
3. lemmatizes each candidate translation line with spaCy;
4. repairs a few known lemmatizer mistakes with a fixed correction table;
5. counts a line as correct when one of its tokens matches the line's gold form;
6. reports `100 * correct / total`.

The match rule is: a VERB token whose lemma is the gold form, or, in German only, any token
whose lemma is a suffix of the gold form.

The model has one module per part of the script:

- `Errors`: the uncaught Python exceptions (`KeyError`, `IndexError`, `ZeroDivisionError`)
  and the `Option` and `Result` wrappers.
- `Text`: `str.strip`, `split("__")[0]`, `replace` and `endswith`, and the lexicon key of an
  image line.
- `Tokens`: a spaCy token as a lemma and a POS tag. A loaded spaCy model is a function from
  text to tokens (`Lemmatizer`).
- `Lexicon`: `load_query_trans_dict`.
- `Gold`: `load_gold_lemmas`.
- `Corrections`: `create_correction_dict`, and `tidy_lemmatization` as an in-place update of
  an array of tokens.
- `Scoring`: the match rule, the counting loop of `eval_verb_accuracy`, and the percentage.
- `Driver`: `main`'s language dispatch and the whole pipeline.

Each loop of the script is a method with a loop. It is proved equal to a specification
function: a fold over the prefix read so far, which stops at the first error. The lemmas
about those functions carry the properties:

- which row or line fails and with what error;
- which keys the lexicon has, and that the last duplicate row wins;
- that tidying is idempotent;
- how the count relates to the lines that are correct;
- the bounds of the accuracy.

The file contents are inputs to the model:

- the candidate lines and the image lines are `seq<string>`, as `readlines` returns them,
  with their `'\n'`;
- the CSV rows are maps from column name to cell.

The script loads the English pipeline under the name `en_core_news_sm`. That is how the
source spells it, and `Driver.ModelName` keeps that spelling. spaCy itself publishes its
small English pipeline as `en_core_web_sm`.

## Model

| member | source | states |
|---|---|---|
| Text.Strip | eval_verb_accuracy.py:19 | `s.strip()` is the slice of `s` after its leading whitespace. Neither end of the result is whitespace. Every character cut away on either side is whitespace in the sense of `str.isspace`. |
| Text.ReplaceChar | eval_verb_accuracy.py:37 | `replace("_", " ")` keeps the length and changes exactly the target characters. |
| Text.RemoveChar | eval_verb_accuracy.py:94 | `line.replace("\n", "")` leaves no newline, and leaves a line without newlines as it is. Its order is fixed by `Text.RemoveCharAppend`. |
| Text.RemoveCharCounts | eval_verb_accuracy.py:94 | Removing the newlines shortens the line by its number of newlines. Every other character keeps its number of occurrences. |
| Text.RemoveCharAppend | eval_verb_accuracy.py:94 | Removing the newlines from a concatenation removes them from each part in turn, so the kept characters stay in their order. |
| Text.RemoveCharOfReadLine | eval_verb_accuracy.py:94 | A line `x + "\n"` as `readlines` returns it, with no other newline, becomes exactly `x`. |
| Text.BeforeSeparator | eval_verb_accuracy.py:37 | `split("__")[0]` is a prefix of the name with no `"__"` inside it. When it is shorter than the name, a `"__"` starts right after it. |
| Text.QueryKey | eval_verb_accuracy.py:37 | The lookup key of an image line is as long as the text before its first `"__"`. It has that text's characters with every `_` turned into a space, and no `_` is left. |
| Text.QueryKeyWithoutSeparator | eval_verb_accuracy.py:33-37 | A line without `"__"` is keyed by the whole line, so its trailing `'\n'` from `readlines` stays in the key. |
| Text.QueryKeyAtFirstSeparator | eval_verb_accuracy.py:37 | The key is cut at the first `"__"`, not at a later one. |
| Text.EndsWith | eval_verb_accuracy.py:98 | `s.endswith(suffix)` holds exactly when `s` is some text followed by `suffix`. |
| Lexicon.TargetColumn | eval_verb_accuracy.py:20-23 | English reads `verb`, German reads `verb_translation`, and any other language reads no column (each in both directions). |
| Lexicon.AddRowOutcome | eval_verb_accuracy.py:19-23 | One pass of the loop body over a row (`Lexicon.AddRow`) fails exactly when the row lacks `query` or the target column, with a `KeyError` naming the first missing column. Otherwise it sets the stripped query to the stripped target verb, or for another language leaves the lexicon unchanged. |
| Lexicon.LoadQueryTransDict | eval_verb_accuracy.py:10-25 | The row loop returns exactly the lexicon fold `BuildLexicon`, including the error of the first row that lacks a column. |
| Lexicon.LexiconErrorPersists | eval_verb_accuracy.py:18-23 | Once a row has raised, later rows do not change the outcome. |
| Lexicon.LexiconSucceeds | eval_verb_accuracy.py:18-23 | Rows that have every column read from them always give a lexicon. |
| Lexicon.LexiconFailsAtFirstBadRow | eval_verb_accuracy.py:19-23 | The first row missing `query`, or missing the target column, ends the load with a `KeyError` naming that column. `query` is checked first. |
| Lexicon.LexiconKeys | eval_verb_accuracy.py:18-23 | For English and German, the lexicon's keys are exactly the stripped queries of the rows. |
| Lexicon.LexiconLastRowWins | eval_verb_accuracy.py:21-23 | For a query that appears more than once, the lexicon keeps the stripped verb of its last row. |
| Lexicon.LexiconStep | eval_verb_accuracy.py:18-23 | One more readable row sets its stripped query to its stripped target-language verb and leaves the other entries. |
| Lexicon.LexiconOtherLanguage | eval_verb_accuracy.py:19-23 | For any other language the lexicon is empty, but every row still needs a `query` column. |
| Gold.ResolveLine | eval_verb_accuracy.py:37-39 | One image line gives its gold form exactly when its key is in the lexicon and the form lemmatizes to at least one token, and the form is the lexicon entry for the key. A missing key is `KeyError(key)`, and an empty document is `IndexError` from `[0]`. |
| Gold.LoadGoldLemmas | eval_verb_accuracy.py:28-41 | The image-line loop returns exactly the fold `GoldForms`, including the error of the first line that fails. |
| Gold.GoldErrorPersists | eval_verb_accuracy.py:36-39 | Once an image line has raised, later lines do not change the outcome. |
| Gold.GoldFormsResolved | eval_verb_accuracy.py:36-41 | When every line resolves, there is one gold form per line, in order, and form `i` is the lexicon entry for line `i`'s key. |
| Gold.GoldFormsFailAtFirstBadLine | eval_verb_accuracy.py:37-38 | The first line that fails decides the error. It is a `KeyError` carrying the missing key, or an `IndexError` when the form lemmatizes to no tokens. |
| Gold.GoldFormsIgnoreLemmas | eval_verb_accuracy.py:38-39 | The lemma computed on line 38 never reaches the result. Two models that agree on which forms give an empty document give the same gold forms. |
| Corrections.CreateCorrectionDict | eval_verb_accuracy.py:44-63 | The fourteen insertions build exactly the correction table. |
| Corrections.CorrectionTableKeys | eval_verb_accuracy.py:48-62 | The table corrects exactly the wrong lemmas of `Corrections.WrongLemmas`. |
| Corrections.WrongLemmas | eval_verb_accuracy.py:49-62 | The fourteen wrong lemmas, in insertion order, are pairwise distinct. |
| Corrections.CorrectionTableSize | eval_verb_accuracy.py:48-62 | No insertion overwrites another, so the table has fourteen entries. |
| Corrections.Tidied | eval_verb_accuracy.py:70-72 | Tidying keeps the number of tokens and every tag. A VERB token whose lemma is a key gets the corrected lemma, and every other token is unchanged. |
| Corrections.TidyLemmatization | eval_verb_accuracy.py:66-73 | The in-place loop leaves the token array equal to `Tidied` of its old contents. |
| Corrections.TidiedIdempotent | eval_verb_accuracy.py:70-72 | When no corrected lemma is itself a key, tidying twice is the same as tidying once. |
| Corrections.TidyingWithTableIdempotent | eval_verb_accuracy.py:48-72 | The script's table has no corrected lemma that is also a key, so tidying with it is idempotent. |
| Scoring.Matches | eval_verb_accuracy.py:98 | For German, a token matches exactly when the gold form ends with its lemma, whatever its tag. For any other language, it matches exactly when it is a VERB with the gold lemma. |
| Scoring.EmptyLemmaMatchesInGerman | eval_verb_accuracy.py:98 | Under the German rule, a token with an empty lemma matches every gold form. |
| Scoring.SuffixRuleIsNotSubstring | eval_verb_accuracy.py:98 | The German rule compares suffixes, not substrings. |
| Scoring.DocMatchesSomeToken | eval_verb_accuracy.py:97-101 | The scan with `break` (`Scoring.DocMatches`) finds a match exactly when some token of the document matches. |
| Scoring.LineCorrectSomeToken | eval_verb_accuracy.py:94-101 | A candidate line counts as correct (`Scoring.LineCorrect`) exactly when some token of its lemmatization matches the gold form, after its newlines are removed and its lemmas tidied. |
| Scoring.CountCorrect | eval_verb_accuracy.py:93-101 | The count over the first `n` lines is at most `n`. |
| Scoring.Aligned | eval_verb_accuracy.py:93 | `zip` stops at the shortest of the candidate lines, the gold forms and the image lines. |
| Scoring.Percentage | eval_verb_accuracy.py:107 | `100*(correct/total)` raises `ZeroDivisionError` exactly when `total` is 0. Otherwise `value * total == 100 * correct`, and the value lies in [0, 100] when `correct <= total`. |
| Scoring.NewDoc | eval_verb_accuracy.py:95 | Applying the model gives a fresh document holding the model's tokens. |
| Scoring.EvalVerbAccuracy | eval_verb_accuracy.py:76-107 | `total` counts every candidate line. `correct` is the number of aligned lines that are correct after tidying. `correct <= aligned <= total`, and the accuracy is `Percentage(correct, total)`. |
| Scoring.AllCorrectIff | eval_verb_accuracy.py:93-101 | The count reaches `n` exactly when all of the first `n` lines are correct. |
| Scoring.NoneCorrectIff | eval_verb_accuracy.py:93-101 | The count is 0 exactly when none of the first `n` lines is correct. |
| Scoring.PerfectScore | eval_verb_accuracy.py:93-107 | With three inputs of the same nonzero length and every line correct, the accuracy is 100. |
| Scoring.ZeroScore | eval_verb_accuracy.py:93-107 | With at least one line and no aligned line correct, the accuracy is 0. |
| Scoring.UnalignedLinesCountAsWrong | eval_verb_accuracy.py:88-107 | Candidate lines beyond the gold forms or image lines still count in `total`, so the accuracy stays below 100. |
| Scoring.CorrectionDecidesMatch | eval_verb_accuracy.py:96-98 | A VERB `fällt` matches the gold form `fallen` after tidying but not before, in either language. |
| Driver.ModelName | eval_verb_accuracy.py:111-117 | Only `en` and `de` have a pipeline, with the names as written. |
| Driver.Run | eval_verb_accuracy.py:110-122 | A language other than `en` and `de` ends with the notice and scores nothing. Otherwise the run is the pipeline `Evaluate`: lexicon, gold forms, count, percentage, stopping at the first error. A scored run has `correct <= total`, `total` equal to the number of candidate lines and above 0, and an accuracy in [0, 100]. |
| Driver.EmptyInputFails | eval_verb_accuracy.py:107 | Once the lexicon and the gold forms load, the run fails with `ZeroDivisionError` exactly when there are no candidate lines. Otherwise it scores. |
| Driver.SingleLineRun | eval_verb_accuracy.py:110-122 | One English row, one image line keyed by its query and one candidate line matching its verb score 1 of 1, that is 100. |

## Left out

- The spaCy pipeline is a parameter (`Lemmatizer`). Its tokenization, tagging and lemmatization are not part of this model.
- `spacy.load` is the parameter `load`, assumed to succeed. Loading a model that is not installed raises `OSError`, which is not modelled.
- Opening and reading files is not modelled. The candidate lines and image lines are given as sequences of lines. The images file is read twice (lines 33 and 90), and the model passes the same sequence to both reads.
- CSV parsing is not modelled. Rows are given as maps from column name to cell.
- `csv.DictReader` gives `None` for the cells of a short row, and `.strip()` on `None` raises `AttributeError`. That case is not modelled. A column absent from a row's map is the `KeyError` case.
- The `type(infile) is not list` branch (lines 83-86) is not modelled: `main` always passes a path, and the model takes the lines it would read.
- `argparse` and the `__main__` block (lines 125-134) are not modelled.
- Printing is not modelled. The `VERBOSE` diagnostic line (lines 102-104) is left out. The final accuracy line is the `accuracy` result, and the unsupported-language notice is the `Unsupported` report.
- `u"{}".format(line)` on line 95 is the identity on a `str`, and the model passes the line itself.
- Scoring.Percentage: computes `100*(correct/total)` as an exact real, not as an IEEE double. Rounding in the last place is not modelled.
- Scoring.EvalVerbAccuracy: counts `correct` as a natural number, where the source uses a float starting at `0.`. The two agree for any count below 2^53.
- Text.Strip: works on Unicode code points, matching Python's `str.isspace` for single code points. No normalisation is modelled.
