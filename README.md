# consolidate-csvs: a verified model of `app.py`

`app.py` is the whole of the program's logic. It has two parts, and this project models both.

- **`consolidate(*file_paths)`** reads the first line of every file. If those lines are not all the same string, it raises `ValueError("Header mismatch across files")`. Otherwise it returns the first file's whole text as `read_text()` delivers it, with its line endings turned into `'\n'`. With no files, the header check passes on an empty set, and `file_paths[0]` then raises an `IndexError`.
- **`OrderedMultiSet`** is the row collector. Its state is a `_seen` set and an insertion-ordered `_order` list, both starting empty. Its `extend` is an unimplemented stub (`...`), so it changes nothing.

The model is split into three modules.

- `TextIO` (`text_io.dfy`) models what Python's text-mode reads deliver. A file is represented by its characters. `open()` and `read_text()` use universal newlines, so `"\r\n"` and a lone `'\r'` both become `'\n'` (`Translate`). `readline()` returns the first line with its terminator (`FirstLine`, `ReadLine`).
- `Consolidation` (`consolidation.dfy`) models `consolidate` as a pure function. It takes the sequence of file texts and returns a `Result`. The two exceptions become the error values `ValueError(message)` and `IndexError`.
- `Collector` (`collector.dfy`) models `OrderedMultiSet` as a class with fields `seen: set<Row>` and `order: seq<Row>`, where a `Row` is a tuple of field strings. `Extend` is the stub as written: it changes nothing.
  - The behaviour that tests/test_main.py:54-99 expects is specified separately. The ghost function `Merge` states the intended result over a sequence of per-file batches. `ExtendAsTested` is an in-place implementation proved against `Merge`.
  - Under that behaviour, repeats inside one batch are kept, a row already seen in an earlier batch is dropped, and arrival order is preserved. None of this is what `extend` currently does.

### What app.py does not do

- It does not parse headers into fields. It compares unparsed first lines after newline translation: whether a line ends in a terminator counts, but the terminator's style (`"\r\n"`, `'\n'` or `'\r'`) does not. As a result, a header-only file with no final line break does not match a file with the same header followed by rows (`UnterminatedHeaderMismatches`).
- It has no separate check for a missing header. An empty file's header is `""`, and it matters only through the equality test.
- It does no filtering, whitespace normalisation, row merging, sorting or CSV serialisation. `consolidate` returns the first file's text, with line endings turned into `'\n'`, and does not use the collector.

## Model

| member | source | states |
|---|---|---|
| `TextIO.Translate` | app.py:14 | Text-mode reading leaves no `'\r'`. The result has a `'\n'` exactly when the file had any line terminator, and it is never longer than the file. |
| `TextIO.FirstLine` | app.py:14 | `readline` returns a prefix of the text. Without a `'\n'` the prefix is the whole text; with one, it ends at the first `'\n'`, which is included. |
| `TextIO.TranslateWithoutCarriageReturn` | app.py:18 | A file without `'\r'` is returned by `read_text` unchanged. |
| `TextIO.ReadLine` | app.py:14 | `path.open().readline()` gives a prefix of the text `read_text()` gives, with no `'\r'` in it. |
| `TextIO.ReadLineTerminated` | app.py:14 | The line read ends in `'\n'` exactly when the file has any line terminator. |
| `TextIO.TranslatePlainPrefix` | app.py:18 | Text before the first `'\r'` passes through translation as it is. |
| `TextIO.FirstLineOfTerminated` | app.py:14 | The first line is everything up to the first `'\n'`; what follows it is never read into the header. |
| `TextIO.TranslateTerminator` | app.py:18 | Each `"\r\n"`, `'\n'` or lone `'\r'` becomes exactly one `'\n'`, and the text after it is kept and translated in turn. Together with `TranslatePlainPrefix` this determines the translation of every file. |
| `TextIO.TerminatedHeaderLine` | app.py:14 | A line ended by `"\r\n"`, `'\n'` or a lone `'\r'` reads as the line plus `'\n'`, whatever follows. |
| `TextIO.HeaderLineTerminators` | app.py:14 | The three terminator styles give the same header line. |
| `TextIO.UnterminatedLine` | app.py:14 | A file with no terminator reads as one line: its whole text. |
| `Consolidation.Headers` | app.py:14-15 | `set(headers)` holds every file's first line and nothing else. It is empty exactly when no file is given, and it has at most as many elements as there are files. |
| `Consolidation.DistinctFirstLinesAtMost` | app.py:14-15 | The first lines of the first k files are at most k distinct strings. |
| `Consolidation.Consolidate` | app.py:13-18 | On success there is at least one file, and the result is the first file's translated text, which starts with its header line. The result is `IndexError` exactly when no file is given. |
| `Consolidation.MoreThanOne` | app.py:15 | `len(set(headers)) > 1` holds exactly when the set has two different elements. |
| `Consolidation.MismatchIffHeadersDiffer` | app.py:14-16 | The result is the "Header mismatch across files" error exactly when two files' first lines differ. |
| `Consolidation.SuccessIffHeadersAgree` | app.py:13-18 | Success happens exactly when there is a file and every file's first line equals the first file's; the value is then the first file's translated text. |
| `Consolidation.SingleFile` | app.py:13-18 | A single file never mismatches; its translated text is returned. |
| `Consolidation.SameFilesSameDecision` | app.py:15 | Reordering or repeating the files leaves the header set unchanged, so the result fails the same way or succeeds likewise. |
| `Consolidation.LaterContentIgnored` | app.py:14-18 | Only the first lines of the later files matter; the rest of their text never affects the result. |
| `Consolidation.DifferentHeaderLinesMismatch` | app.py:14-16 | Two files whose header lines differ in any way, each ended by `"\r\n"`, fail with the mismatch error. |
| `Consolidation.CaseSensitiveHeaders` | app.py:14-16 | Header comparison is case-sensitive: `Date,desc,amount` and `date,desc,amount` mismatch. |
| `Consolidation.UnterminatedHeaderMismatches` | app.py:14-16 | The line terminator is part of the comparison: a header with no line break mismatches the same header followed by one. |
| `Consolidation.LineEndingStyleIgnored` | app.py:14-18 | Headers that differ only in `"\r\n"` versus `'\n'` agree, and the first file's translated text is returned. |
| `Collector.OrderedMultiSet.constructor` | app.py:6-8 | A new collector has an empty seen set and an empty order list. |
| `Collector.OrderedMultiSet.Extend` | app.py:10 | `extend` as written leaves the seen set and the order list unchanged. |
| `Collector.StubLosesRows` | app.py:10 | Fed one file holding a row twice, the stub keeps nothing, while the expected result keeps both copies. |
| `Collector.Merge` | tests/test_main.py:54-99 | The rows the tests expect from a sequence of per-file batches are never more than the rows handed over. Its other properties are the lemmas below. |
| `Collector.UnseenNoLonger` | tests/test_main.py:54-99 | Filtering a batch against the rows seen before never lengthens it. |
| `Collector.Unseen` | tests/test_main.py:71-80 | A batch's rows that are kept are exactly those not seen before. |
| `Collector.UnseenCount` | tests/test_main.py:54-68 | An unseen row is kept as often as the batch holds it; a seen row is never kept. |
| `Collector.UnseenAppend` | tests/test_main.py:54-68 | Unfolding lemma: the defining equation of `Unseen` for a batch extended by one row, used by the loop proof of `ExtendAsTested`. |
| `Collector.UnseenAllNew` | tests/test_main.py:83-99 | A batch with no row seen before is kept whole, in order. |
| `Collector.SeenByAppend` | tests/test_main.py:71-80 | After one more batch, the seen set is the old one plus that batch's rows. |
| `Collector.MergeAppend` | tests/test_main.py:71-99 | Unfolding lemma: the defining equation of `Merge` for a history extended by one batch, used to tie `ExtendAsTested` to `Merge`. |
| `Collector.MergeMembership` | tests/test_main.py:71-99 | A row is kept exactly when some batch holds it. |
| `Collector.MergeMultiplicity` | tests/test_main.py:54-80 | A row is kept exactly as often as the first batch holding it holds it: within-file repeats stay and later-file repeats go. |
| `Collector.RowNeverHandedOver` | tests/test_main.py:54-99 | A row no batch holds is never kept. |
| `Collector.MergeDisjointIsConcat` | tests/test_main.py:83-99 | When no row recurs in a later batch, the result is all batches concatenated in arrival order. |
| `Collector.MergeSingleBatch` | tests/test_main.py:54-68 | One file's rows all come through, duplicates included. |
| `Collector.RepeatedAcrossFiles` | tests/test_main.py:71-80 | A row in two successive files appears once. |
| `Collector.SuccessiveFilesInOrder` | tests/test_main.py:83-99 | Two distinct rows from successive files appear in file order. |
| `Collector.KeptWithinDroppedAcross` | tests/test_main.py:54-80 | Two copies in the first file plus one in the second leave exactly the first file's two copies. |
| `Collector.OrderedMultiSet.ExtendAsTested` | tests/test_main.py:54-99 | Appends the batch's rows not seen before it, repeats included. Then adds the whole batch to the seen set, and keeps the fields equal to `Merge` of all batches so far. |
| `Collector.AsTestedScenarios` | tests/test_main.py:54-99 | Driving the collector with `ExtendAsTested` on the three test scenarios yields exactly the rows each test expects. |

## Findings

| source | as written | input that shows it | evidently intended | confidence | as-written member | corrected member |
|---|---|---|---|---|---|---|
| app.py:10 | `extend` has the body `...`, so it returns without recording any row | one batch `[r, r]` (the test's Coffee row twice) leaves `order == []` | keep `[r, r]`; drop rows already seen in an earlier batch; keep arrival order (tests/test_main.py:54-99) | high; not executed | `Collector.StubLosesRows` | `Collector.OrderedMultiSet.ExtendAsTested` |

## Left out

- main.py is not part of this model. It is a command-line wrapper that echoes the first file's text and calls neither `consolidate` nor the collector.
- File access (`open`, `readline`, `read_text`) is replaced by the files' characters. Missing or unreadable files are not modelled, and neither is decoding bytes into characters under the locale's encoding.
- The test fixtures are not modelled: CSV writing, subprocess invocation, and float-to-text conversion (`4.50` becoming `4.5`). Only the row collections that tests/test_main.py:54-99 expects are used.
- tests/test_app.py is not modelled because it is inconsistent with `app.py`. It passes a list as a single argument and expects a lower-case header that its fixture does not write.
- Filtering by a required column, whitespace collapsing, date-aware sorting, CSV quoting and ragged rows are not present in `app.py`, so they are not modelled.
- `Collector.OrderedMultiSet.ExtendAsTested` is not code from `app.py`. It is the behaviour the tests expect, kept separate from `Extend`, which models the stub. `consolidate` as written does not use the collector.
