# Japanese vocabulary extraction and lookup, in Dafny

This project models the core of a small script, `src/segmentize_and_lookup.py`.
The script reads Japanese text, splits it into tokens, and keeps the tokens that
look like dictionary words. It then looks every such word up in an online
dictionary service and collects, per word, its reading and the first English
gloss of each sense. A console progress bar advances as lookups succeed.

The model has one Dafny module per component of that file:

- `Results` (`results.dfy`): `Option` and `Result`, used for the script's exceptions.
- `Validator` (`validator.dfy`): `validate_word`, its three regular-expression tests written out exactly.
  `re.match` is anchored at the start of the string only. So the `\W` test and the script test look at the
  first character alone, and the `^\s*$` test also matches before a final newline, as Python's `$` does.
  The Unicode classes `\s`, `\w`, `\p{Hiragana}`, `\p{Katakana}` and `\p{Han}` are fields of a
  `CharClasses` value (predicates on characters). The lemmas that need real-table facts assume them
  through `Coherent`: whitespace is never a word character, and newline is whitespace.
- `Extractor` (`extractor.dfy`): the set comprehension in `main` that keeps the valid tokens.
  Its input is the tokenizer's output, already split on whitespace.
- `Progress` (`progress.dfy`): the `ProgressBar` class, with its fields `high`, `value` and `size`.
  Its bar has 20 cells, counted with floor division. Dafny's `/` agrees with Python's `//` here,
  because the divisor `high` is positive wherever the bar is drawn.
- `Lookup` (`lookup.dfy`): the dictionary service's JSON response as datatypes, and its parsing in `get_meaning`.
  Each empty list on the way is a distinct error.
- `Orchestrator` (`orchestrator.dfy`): `get_meaning`'s update of the shared dictionary and bar;
  the fan-out in `main`; and the script's top level.
  `get_meaning` has no `await` and its HTTP request blocks. So each task runs to completion without
  interleaving, and the fan-out is a loop over the word set in an unspecified order. The result is
  stated as a function of the word set (`Resolved`), so it cannot depend on that order.

## Behaviour worth noting

- The validator inspects only the first character for `\W` and for the three scripts. So a token with
  punctuation after its first character, such as `"猫。"`, is accepted (`Validator.AcceptsTrailingPunctuation`).
- The progress bar advances only when a lookup succeeds. A failing lookup raises before line 48, so
  after a run with failures the bar stops short of full (`Orchestrator.FullBarIffAllResolved`).
- With an empty word set, `aio.wait` receives no task and raises `ValueError`. The script then prints
  no result (`waited` is false in `Dispatch` and `Run`; `Script` returns `None`).
- Particles such as `が` and `を` are Hiragana, so the validator accepts them
  (`Extractor.ExtractsEachWordOnce`).

## Model

| member | source | states |
|---|---|---|
| `Validator.ValidateWord` | src/segmentize_and_lookup.py:32-37 | the conjunction of the three `re.match` tests; an accepted token is never empty and never all whitespace, whatever the tables say |
| `Validator.BlankMatchIffAllSpace` | src/segmentize_and_lookup.py:34 | with coherent tables, `^\s*$` matches exactly the tokens made only of whitespace (the empty token included); the match before a final newline adds nothing |
| `Validator.AcceptsIffFirstCharacter` | src/segmentize_and_lookup.py:33-37 | with coherent tables, a token is accepted iff it is non-empty and its first character is a word character in the Hiragana, Katakana or Han script |
| `Validator.OnlyFirstCharacterMatters` | src/segmentize_and_lookup.py:35-36 | characters after the first never change the verdict |
| `Validator.AcceptsTrailingPunctuation` | src/segmentize_and_lookup.py:35-36 | `"猫。"` is accepted when `猫` is a Han word character: trailing punctuation goes unnoticed |
| `Extractor.Filter` | src/segmentize_and_lookup.py:56-58 | `filter(validate_word, ...)` keeps exactly the tokens the validator accepts, each as many times as it occurs in the input, and drops every other token; it is no longer than its input |
| `Extractor.ExtractWords` | src/segmentize_and_lookup.py:56-58 | the word set holds exactly the tokens that pass the validator, and has at most as many elements as there are tokens |
| `Extractor.OrderAndRepetitionIrrelevant` | src/segmentize_and_lookup.py:56-58 | two token sequences with the same elements, in any order and with any repetition, give the same word set |
| `Extractor.ExtractConcat` | src/segmentize_and_lookup.py:56-58 | extracting from concatenated token sequences is the union of extracting from each |
| `Extractor.ExtractsEachWordOnce` | src/segmentize_and_lookup.py:56-58 | the tokens `猫 が 猫 を` give the three-word set `{猫, が, を}`: the repeated word appears once |
| `Progress.Repeat` | src/segmentize_and_lookup.py:19-20 | Python's `n * c`: exactly `n` copies of `c`, and none when `n` is zero or negative |
| `Progress.BarText` | src/segmentize_and_lookup.py:17-21 | the bar is drawn iff `high > 0` (otherwise the division raises); it is a bar sign, then `(20*value)//high` filled cells, then `max(0, (20*(high-value))//high)` blank cells, then a closing bar sign |
| `Progress.ProgressBar.constructor` | src/segmentize_and_lookup.py:12-15 | a new bar has the given `high` and `size` (default 50) and `value` 0 |
| `Progress.ProgressBar.Increment` | src/segmentize_and_lookup.py:26-29 | `value` goes up by exactly 1; `high` and `size` are unchanged; the redrawn line is the bar for the new state |
| `Progress.CellTotal` | src/segmentize_and_lookup.py:19-20 | for `0 <= value <= high`, filled + blank cells is 20 when `high` divides `20*value` and 19 otherwise |
| `Progress.CellTotalBounds` | src/segmentize_and_lookup.py:19-20 | for `0 <= value <= high` the bar is 19 or 20 cells wide |
| `Progress.EmptyAtStart` | src/segmentize_and_lookup.py:19-20 | at `value == 0` the bar has no filled cell and 20 blank ones |
| `Progress.FullAtEnd` | src/segmentize_and_lookup.py:19-20 | at `value == high` the bar has 20 filled cells and no blank one |
| `Progress.FilledMonotone` | src/segmentize_and_lookup.py:19 | the filled part never shrinks as `value` grows |
| `Progress.FullIff` | src/segmentize_and_lookup.py:19 | for `value <= high`, all 20 cells are filled iff `value == high` |
| `Lookup.FirstDefinitions` | src/segmentize_and_lookup.py:44 | succeeds iff every sense has an English definition, and then yields one meaning per sense, in sense order, each the sense's first definition; otherwise it names the first sense without one |
| `Lookup.ParseDefinition` | src/segmentize_and_lookup.py:41-44 | succeeds iff `data`, `data[0].japanese` and every sense's `english_definitions` are non-empty; the record's reading is `data[0].japanese[0].reading` and its meanings are the senses' first definitions in order; an empty `data` and an empty `japanese` are distinct errors |
| `Lookup.LookupWord` | src/segmentize_and_lookup.py:41-44 | a failed request or decoding gives `RequestFailed`, and only then; otherwise the result is `ParseDefinition` of the response |
| `Lookup.ParseResponseFor` | src/segmentize_and_lookup.py:41-46 | parsing the minimal response built from a record gives back exactly that record |
| `Lookup.OnlyFirstEntry` | src/segmentize_and_lookup.py:41 | entries after `data[0]` never change the result |
| `Lookup.OnlyFirstDefinitions` | src/segmentize_and_lookup.py:44 | only each sense's first definition matters: senses that agree on it give the same result |
| `Orchestrator.ResultMapping.constructor` | src/segmentize_and_lookup.py:71 | the shared dictionary starts empty |
| `Orchestrator.GetMeaning` | src/segmentize_and_lookup.py:40-48 | on success, exactly one key (the word) is written with the parsed record and `value` goes up by one; on any lookup error, neither the dictionary nor the bar changes |
| `Orchestrator.ResolvedKeys` | src/segmentize_and_lookup.py:62-64 | a word has a record after the fan-out iff it was in the word set and its lookup succeeded, and the record is the parsed one |
| `Orchestrator.ResolvedInsert` | src/segmentize_and_lookup.py:46-48 | one more word adds exactly its record on success, and nothing on failure; every other entry stays as it was |
| `Orchestrator.ResolvedBound` | src/segmentize_and_lookup.py:62-64 | there are never more records than words |
| `Orchestrator.ResolvedAllIff` | src/segmentize_and_lookup.py:62-64 | every word gets a record iff every lookup succeeds |
| `Orchestrator.FullBarIffAllResolved` | src/segmentize_and_lookup.py:62-64 | after the fan-out the bar is full iff every lookup succeeded |
| `Orchestrator.ResolvedRecord` | src/segmentize_and_lookup.py:46 | a word whose lookup returns the response for a record is stored with exactly that record |
| `Orchestrator.Dispatch` | src/segmentize_and_lookup.py:62-64 | the bar is created for the word count; afterwards the dictionary is the old one with the successful words' records added, other entries untouched; the bar's `value` is the number of successes, at most `high`; `aio.wait` raises iff there is no word |
| `Orchestrator.Run` | src/segmentize_and_lookup.py:51-64 | the reported count is the size of the extracted word set (at most the number of tokens), and the dictionary gains exactly the records of the extracted words whose lookup succeeded |
| `Orchestrator.Script` | src/segmentize_and_lookup.py:68-77 | the printed mapping is absent when no word was extracted; otherwise it is exactly the records of the successfully looked-up extracted words |

## Left out

- The HTTP request, the URL built from `API_URL` and `.json()` decoding are network I/O and a foreign library.
  They are the parameter `fetch: string -> Option<Response>`. `None` stands for any exception raised there, or by a key
  missing from the JSON (the `Response` datatype always has its keys). These all become `RequestFailed`.
- The MeCab tokenizer is an external C library. Its whitespace-split output is the input `tokens`.
- Reading the input file, `sys.argv`, and every `print` and `sys.stdout` write are I/O. `Increment` returns the line
  it would draw. `Run` returns the word count it would print. `Script` returns the mapping it would print, but not
  its iteration order.
- BarText: does not include the percentage `round(100 * value / high, 2)` that follows the bar, because it is floating point.
- The `asyncio` event loop and task objects are left out, and so is the "Task exception was never retrieved" log.
  They add no interleaving, because `get_meaning` never suspends.
- The Unicode tables behind `\s`, `\w`, `\p{Hiragana}`, `\p{Katakana}` and `\p{Han}` are left out. They are
  abstract `CharClasses` predicates.
- `ProgressBar.high` is a `nat`. The script only ever passes `len(words)`, so negative bounds (where Python's `//`
  and Dafny's `/` would differ) are not modelled. `size` is stored and never used, as in the source.
