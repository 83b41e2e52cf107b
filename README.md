# Alpaca translation bookkeeping, modelled in Dafny

This project models the batch-translation driver that translates the Stanford
Alpaca records into Polish, and the pass that finally sorts its output.

- **Driver (`translate_alpaca.py`).** It sends the records to a
  language-model backend in batches and appends every translated object to a
  line-delimited JSON output file. Each object is stamped with the 1-based
  `"index"` of its source record.
  - **Normal mode** resumes after the index on the file's last line.
  - **Recovery mode** re-translates, one record at a time, every index that
    is missing from the file and every malformed line number.
- **Sort pass (`scripts/sort_by_index.py`).** It loads the finished file,
  stable-sorts the records by `"index"`, pops that key from each record and
  rewrites the file.

The modules follow the program's structure:

- `Jsonl` (`jsonl.dfy`): the JSON values `json.loads` yields, the lines of the
  output file (`Parsed(value)` or `Unparseable`), the index a line records,
  and the file itself as the class `Sink`, whose `lines` only grow while
  translating.
- `TranslationClient` (`translation_client.dfy`): the cleaning
  `strip()` → `replace("```json", "")` → `replace("```", "")`. It also holds
  the backend as an oracle and `translate_batch`: two attempts, a retry only
  after a `JSONDecodeError`, `[]` for a reply that is not an array.
- `NormalMode` (`normal_mode.dfy`): covers three things.
  - The resume point `processed_items` and the Python slice
    `alpaca_data[processed_items:]`.
  - The batches `unprocessed[i:i + batch_size]`.
  - The stamping loop, which gives element `k` of the returned list the index
    `processed_items + i + 1 + k`.
- `RecoveryMode` (`recovery_mode.dfy`): the classification of output lines
  into valid indices and malformed line numbers,
  `to_recover = sorted(missing ∪ malformed)` and the per-target
  re-translation loop (an `IndexError` skips the target).
- `SortByIndex` (`sort_by_index.dfy`): the loading and key step, a stable
  insertion sort that stands for Python's `sorted`, the in-place
  `item.pop('index', None)` loop over an array of dicts, and the rewrite of
  the file.

The backend is a parameter. `Service(reply, parse)` gives the reply text to
request number `n` for a batch, and how that cleaned text parses. Its effect
on the drivers is the function `Attempts(svc)` from (batch, request number) to
an attempt outcome: `NotJson`, `NotArray` or `Array(items)`. The request
counter is threaded through both loops, so any sequence of backend answers
can be represented. Under a fault-free backend, every request is answered at
the first attempt with as many objects as were sent. Among the properties proved
under that assumption, normal mode completes the file and recovery mode fills
every gap.

Python details that matter to the bookkeeping are written out explicitly:

- `bool` counts as `int` for `isinstance(index, int)`.
- Negative slicing and negative indexing count from the end (`PyDrop`,
  `PyIndex`).
- An out-of-range `alpaca_data[idx - 1]` raises `IndexError`.
- `range(0, n, 0)` raises, and a negative step gives no batches.
- `dict.get("index", len(lines))` falls back to the number of lines only when
  the key is absent.
- A present `"index"` on the last line that is not an integer is kept, and the
  run raises before its first write. The model calls that case `BadIndex`.

## Model

| member | source | states |
|---|---|---|
| Jsonl.AsInt | translate_alpaca.py:149 | `isinstance(v, int)` holds exactly for JSON integers and booleans. An integer keeps its value. |
| Jsonl.LineIndex | translate_alpaca.py:147-149 | The integer index a line records, or none when the line fails to load, is not an object, or has no integer `"index"`. The sort key of scripts/sort_by_index.py:8 uses the same test. Its properties are stated by `RecoveryMode.ValidUpToMeans`, `RecoveryMode.MalformedUpToMeans` and `SortByIndex.RewrittenSpec`. |
| Jsonl.Stamped | translate_alpaca.py:128-130 | After `translated["index"] = idx`, the written line is an object that records index `idx`. All its other keys and values are unchanged. |
| Jsonl.Sink.Append | translate_alpaca.py:130 | Writing a line appends exactly that line at the end of the file. |
| Jsonl.Sink.Truncate | scripts/sort_by_index.py:15 | Opening the file with mode `'w'` empties it. |
| TranslationClient.TrimSpec | translate_alpaca.py:77 | `strip()` leaves no whitespace at either end. It keeps only characters of the input and leaves an already trimmed string alone. |
| TranslationClient.TrimStartSpec | translate_alpaca.py:77 | The leading part removed is all whitespace. What remains is a suffix that does not start with whitespace. |
| TranslationClient.TrimEndSpec | translate_alpaca.py:77 | The trailing part removed is all whitespace. What remains is a prefix that does not end with whitespace. |
| TranslationClient.Trim | translate_alpaca.py:77 | `strip()`. Its properties are stated by `TrimSpec`, `TrimStartSpec` and `TrimEndSpec`. |
| TranslationClient.RemoveAll | translate_alpaca.py:78 | `replace(pat, "")` never lengthens the text. When the length changes, it shrinks by at least `|pat|`. What survives is stated by `RemoveAllKeepsPrefix`, `RemoveAllAbsent` and `NoFenceAfterRemoval`. |
| TranslationClient.RemoveAllKeepsPrefix | translate_alpaca.py:78 | A leading part without the first character of `pat` survives unchanged, and the rest is cleaned on its own. |
| TranslationClient.RemoveAllAbsent | translate_alpaca.py:78 | `replace(pat, "")` leaves a string without `pat` unchanged. |
| TranslationClient.NoFenceAfterRemoval | translate_alpaca.py:78 | No triple backtick survives `replace("```", "")`, even where removing one would join two others. |
| TranslationClient.UnfenceLeavesNoFence | translate_alpaca.py:77-78 | The cleaned reply contains neither `` ```json `` nor `` ``` ``. |
| TranslationClient.UnfenceWithoutBackticks | translate_alpaca.py:77-78 | A reply without backticks is changed only by trimming. |
| TranslationClient.UnfenceFenced | translate_alpaca.py:77-78 | A reply `` ```json `` + body + `` ``` `` whose body has no backticks cleans to exactly that body. |
| TranslationClient.Unfence | translate_alpaca.py:77-78 | The cleaning of the reply text. Its properties are stated by `UnfenceLeavesNoFence`, `UnfenceWithoutBackticks` and `UnfenceFenced`. |
| TranslationClient.Classify | translate_alpaca.py:79-80 | An attempt is `NotJson` exactly when `json.loads` raises `JSONDecodeError`. It is `Array` exactly when the parsed value is a list, and then it keeps that list's elements. Any other value is `NotArray`. |
| TranslationClient.AttemptAt | translate_alpaca.py:73-80 | The outcome of one request: reply, cleaning, `json.loads`, then the list test. Its properties are stated by the contract of `Classify` and by `UnfenceLeavesNoFence`. |
| TranslationClient.Translation | translate_alpaca.py:71-92 | The value `translate_batch` returns and the number of requests it makes. Its properties are stated by `TranslationRetriesOnce`, `FaultFreeTranslation` and `TranslationNeverLonger`, and `TranslateBatch` is proved equal to it. |
| TranslationClient.TranslationRetriesOnce | translate_alpaca.py:69-92 | `translate_batch` always returns a list and makes one or two requests. It makes two exactly when the first reply is not JSON. The result is the last reply's array unchanged, whether that reply is the first or the retry, and `[]` when the last reply is not an array. An array on the first attempt is returned with no retry. |
| TranslationClient.TranslateBatch | translate_alpaca.py:71-92 | The two-attempt loop returns what `Translation` specifies. The request counter advances by the number of requests made. |
| TranslationClient.FaultFreeTranslation | translate_alpaca.py:79-83 | Against a fault-free backend, one request is made. The list returned is that reply's array of as many objects as were sent. |
| TranslationClient.TranslationNeverLonger | translate_alpaca.py:79-92 | If the backend never replies with more elements than it was sent, neither does `translate_batch`. |
| NormalMode.ResumePoint | translate_alpaca.py:97-106 | Four cases. An empty file gives 0. An unreadable or non-object last line gives 0, because the exception is caught. A last object without `"index"` gives the line count. A last line with an integer index gives that index. The run raises before its first write exactly when the last object's `"index"` is not an integer. |
| NormalMode.ResumeAfterOrderedLines | translate_alpaca.py:102-104 | A file holding indices 1..k in order resumes at k, so resuming never repeats a record. |
| NormalMode.PyDrop | translate_alpaca.py:108 | `alpaca_data[k:]` for every integer k. A non-negative k past the end gives the empty list. A negative k counts from the end. |
| NormalMode.Batches | translate_alpaca.py:115-120 | The slices `unprocessed[i:i+batch_size]`. Their properties are stated by `BatchesCover` and `BatchesAreTurns`. |
| NormalMode.BatchesAreTurns | translate_alpaca.py:115-120 | The j-th batch is the slice taken at `i + j*batch_size`, the j-th value of the `range`, which is the slice `RunFrom` sends at that position. |
| NormalMode.StampItems | translate_alpaca.py:127-133 | The lines the stamping loop writes for a returned list. Its properties are stated by `StampItemsWritesObjects`, `StampItemsOnlyObjects`, `StampItemsIncreasing` and `StampAllObjects`. |
| NormalMode.StampItemsWritesObjects | translate_alpaca.py:127-130 | Every dict element k of the returned list is written as itself with index `first + k`, whatever its neighbours are. |
| NormalMode.StampItemsOnlyObjects | translate_alpaca.py:127-133 | Every written line is some dict element k of the returned list, stamped with `first + k`. Non-dicts are never written. |
| NormalMode.BatchesCover | translate_alpaca.py:115-120 | The slices `unprocessed[i:i+batch_size]` concatenate to `unprocessed` exactly. None is empty, and all but the last have exactly `batch_size` records. |
| NormalMode.StampItemsIncreasing | translate_alpaca.py:127-133 | Writing a returned list produces at most one line per element. The lines carry strictly increasing indices inside `first .. first+len-1`. |
| NormalMode.StampAllObjects | translate_alpaca.py:127-130 | When every element is a dict, element k is written as itself with index `first + k`. |
| NormalMode.StampAllObjectsIndexed | translate_alpaca.py:127-130 | When every element is a dict, the written lines carry exactly the indices `first .. first+len-1`, in order. |
| NormalMode.BatchLines | translate_alpaca.py:120-133 | The lines one batch writes: the stamped dicts of the returned list when it is a list, nothing otherwise. Its properties are stated by `BatchLinesIncreasing`, `BatchLinesFaultFree` and `OverAnswerBatch`. |
| NormalMode.BatchLinesIncreasing | translate_alpaca.py:120-133 | With a backend that never over-answers, one batch writes strictly increasing indices inside that batch's own global range. |
| NormalMode.BatchLinesFaultFree | translate_alpaca.py:120-130 | With a fault-free backend, one batch writes each of its global indices once, in order, after one request. |
| NormalMode.RunFrom | translate_alpaca.py:115-133 | What the batch loop appends from position i on. Its properties are stated by `RunFromIncreasing` and `RunFromWhole`, and `RunBatchLoop` is proved to append it. |
| NormalMode.RunFromIncreasing | translate_alpaca.py:115-133 | When every turn stays inside its batch's range, the batch loop appends strictly increasing indices above `processed_items + i`. |
| NormalMode.RunFromWhole | translate_alpaca.py:115-133 | When every turn writes its whole batch, the loop appends every index from `processed_items + i + 1` to the end of the data, once each and in order. |
| NormalMode.NormalAppends | translate_alpaca.py:95-135 | What a normal-mode run appends, or none when it raises before writing. Its properties are stated by `ResumedRunAppendsFreshIndices`, `FaultFreeRunCompletes` and `OverAnsweringRepeatsAnIndex`, and `RunNormal` is proved to append it. |
| NormalMode.ResumedRunAppendsFreshIndices | translate_alpaca.py:97-133 | With a backend that never over-answers, a normal-mode run that resumes at k appends only indices above k and at most N. This includes a negative k, which slices from the end. The indices are strictly increasing, so none repeats. |
| NormalMode.FaultFreeRunAppendsFreshIndices | translate_alpaca.py:97-133 | A fault-free backend never over-answers. So whatever file it resumes, a run appends strictly increasing indices above the resume point and at most N. |
| NormalMode.OverAnsweringRepeatsAnIndex | translate_alpaca.py:120-130 | Without the never-over-answers hypothesis, indices repeat. Two records, an empty file, batch size 1 and a backend answering one object too many give the indices 1, 2, 2, 3. |
| NormalMode.FaultFreeRunCompletes | translate_alpaca.py:97-133 | A file holding indices 1..k in order, resumed with a fault-free backend and a positive batch size, ends holding indices 1..N exactly once each, in order. |
| NormalMode.WriteItems | translate_alpaca.py:127-133 | The stamping loop appends exactly the dicts of the returned list, with indices counted from `batch_start + 1`. Nothing else changes. |
| NormalMode.TranslateAndWrite | translate_alpaca.py:120-133 | One batch: the file grows by that batch's lines, and the request counter by the requests `translate_batch` made. |
| NormalMode.BatchStep | translate_alpaca.py:115-135 | One turn of the batch loop appends exactly the lines of the batch `unprocessed[i:i+batch_size]`, with first index `processed_items + i + 1`. The request counter advances by the requests `translate_batch` made. The turn keeps the loop's goal: the lines written so far, followed by the run from the next batch on. |
| NormalMode.RunBatchLoop | translate_alpaca.py:115-135 | The batch loop appends exactly the specified run over `alpaca_data[processed_items:]`. |
| NormalMode.RunNormal | translate_alpaca.py:95-135 | A normal-mode run appends exactly `NormalAppends`. It appends nothing when the run raises first: a non-integer resume index, or batch size 0. |
| RecoveryMode.ValidUpTo | translate_alpaca.py:145-150 | `valid_indices` after the first k lines. Its meaning is stated by `ValidUpToMeans`. |
| RecoveryMode.MalformedUpTo | translate_alpaca.py:145-154 | `malformed_indices` after the first k lines. Its meaning is stated by `MalformedUpToMeans`. |
| RecoveryMode.ValidUpToMeans | translate_alpaca.py:145-150 | An index is in `valid_indices` exactly when some line records it as an integer. |
| RecoveryMode.MalformedUpToMeans | translate_alpaca.py:145-154 | A line number is in `malformed_indices` exactly when that line fails to load or has no integer `"index"`. |
| RecoveryMode.ClassifiedLines | translate_alpaca.py:145-154 | Every line is accounted for. Its index is valid, or its line number is malformed exactly when it has no integer index. |
| RecoveryMode.ClassifyLines | translate_alpaca.py:141-154 | The reading loop builds exactly `valid_indices` and `malformed_indices`. |
| RecoveryMode.SortedTargetsSpec | translate_alpaca.py:156-159 | The listing of targets within 1..b is strictly ascending. It holds exactly the members of `missing ∪ malformed` in that range. |
| RecoveryMode.SortedTargets | translate_alpaca.py:156-159 | The ascending listing of the targets within 1..b. Its properties are stated by `SortedTargetsSpec` and `SortedListingUnique`. |
| RecoveryMode.SortedListingUnique | translate_alpaca.py:159 | Two strictly ascending sequences with the same members are equal, so `sorted(list(set))` has exactly one listing. |
| RecoveryMode.RecoveryTargets | translate_alpaca.py:156-159 | `to_recover`. Its properties are stated by `RecoveryTargetsSpec`, `RecoveryTargetsAreSorted`, `TargetsWithoutMalformed` and `MalformedLineNumbersAreTargets`. |
| RecoveryMode.RecoveryTargetsSpec | translate_alpaca.py:156-159 | `to_recover` is strictly ascending, so it is duplicate-free, and every target is at least 1. It holds exactly the indices 1..N missing from the file plus the malformed line numbers. |
| RecoveryMode.RecoveryTargetsAreSorted | translate_alpaca.py:159 | Any strictly ascending listing of `missing ∪ malformed` is `to_recover`. |
| RecoveryMode.TargetsWithoutMalformed | translate_alpaca.py:152-159 | When no line is malformed, the targets are exactly the missing indices. |
| RecoveryMode.MalformedLineNumbersAreTargets | translate_alpaca.py:152-159 | Malformed line numbers are used as record positions. Two concrete files show this: one re-targets a record already present, the other targets positions past N. |
| RecoveryMode.PyIndex | translate_alpaca.py:165-168 | `alpaca_data[k]` is the k-th record for k in range. It raises `IndexError` beyond either end. |
| RecoveryMode.RecoveredLines | translate_alpaca.py:170-175 | The line one re-translation writes: the first returned element stamped with the target when it is a dict, nothing otherwise. Its properties are stated by `RetranslateAtMostTheTarget` and `RetranslateFaultFree`. |
| RecoveryMode.RetranslateAtMostTheTarget | translate_alpaca.py:170-175 | Each re-translation writes nothing or one line, and that line carries its target index. |
| RecoveryMode.RetranslateFaultFree | translate_alpaca.py:170-173 | With a fault-free backend, each re-translation writes exactly one line carrying its target index. |
| RecoveryMode.RecoverFrom | translate_alpaca.py:162-175 | What the recovery loop appends from the j-th target on. Its properties are stated by `RecoverFromIncreasing` and `RecoverFromWhole`. |
| RecoveryMode.RecoveryAppends | translate_alpaca.py:137-175 | What a recovery run appends. Its properties are stated by `RecoveryAppendsIncreasing`, `FaultFreeRecoveryAppends` and `FaultFreeRecoveryFillsGaps`, and `RunRecovery` is proved to append it. |
| RecoveryMode.RecoverFromIncreasing | translate_alpaca.py:162-175 | The recovery loop appends strictly increasing indices in 1..N, so a recovery run never writes an index twice. |
| RecoveryMode.RecoverFromWhole | translate_alpaca.py:162-175 | With every turn writing its target, the loop writes exactly the targets that are positions of the data, in order. |
| RecoveryMode.RecoveryAppendsIncreasing | translate_alpaca.py:137-175 | For every backend, a recovery run appends strictly increasing indices within 1..N. |
| RecoveryMode.FaultFreeRecoveryAppends | translate_alpaca.py:137-175 | With a fault-free backend, a recovery run appends one line per target within 1..N, in ascending order. |
| RecoveryMode.FaultFreeRecoveryFillsGaps | translate_alpaca.py:141-175 | With a fault-free backend, every index 1..N is valid in the file after recovery. |
| RecoveryMode.RetranslateOne | translate_alpaca.py:170-175 | `translate_batch([item])` is called once. If the result is non-empty and its first element is a dict, one stamped line is appended; otherwise nothing is. |
| RecoveryMode.RecoverStep | translate_alpaca.py:163-175 | An out-of-range target is skipped without a request, and the file is unchanged. Otherwise the turn appends exactly the re-translated line of `alpaca_data[idx - 1]`, if any, and the request counter advances by the requests made. Either way the turn keeps the loop's goal. |
| RecoveryMode.RunRecovery | translate_alpaca.py:137-175 | A recovery run appends exactly `RecoveryAppends` of the file as it was read. |
| SortByIndex.SortKeys | scripts/sort_by_index.py:5-8 | The loaded lines with their keys `x['index']`, or none when some line fails to load or has no integer `"index"`. Its properties are stated by `RewrittenSpec`. |
| SortByIndex.SortedByIndex | scripts/sort_by_index.py:8 | `sorted(lines, key=...)`. Its properties are stated by `SortPermutes`, `SortOrders`, `SortIsStable` and `StableSortIsUnique`. |
| SortByIndex.SortPermutes | scripts/sort_by_index.py:8 | The sort returns a permutation of the records: same length, same multiset. |
| SortByIndex.SortOrders | scripts/sort_by_index.py:8 | The sorted records have non-decreasing `"index"`. |
| SortByIndex.SortIsStable | scripts/sort_by_index.py:8 | Records sharing an index keep their file order, duplicates included. |
| SortByIndex.StableSortIsUnique | scripts/sort_by_index.py:8 | Any ordering that is sorted by index and stable is the one the reference produces. So the reference fixes what `sorted` returns. |
| SortByIndex.Unindexed | scripts/sort_by_index.py:11-12 | After popping, no record has `"index"`. Every other key is present exactly when it was, with the same value. |
| SortByIndex.PopIndex | scripts/sort_by_index.py:11-12 | The loop pops `"index"` from every dict of the array in place. |
| SortByIndex.Render | scripts/sort_by_index.py:11-17 | The line written for a popped record is an object without `"index"`, so it records no index. Every other key is present exactly when it was, with the same value. |
| SortByIndex.Rendered | scripts/sort_by_index.py:16-17 | The written file has one line per record: line i renders record i. No line records an index. |
| SortByIndex.RenderedSortPermutes | scripts/sort_by_index.py:8-17 | The written lines are a permutation of the input records with `"index"` removed. |
| SortByIndex.Rewritten | scripts/sort_by_index.py:3-17 | The file the pass leaves, or none when it raises before reopening the file. Its properties are stated by `RewrittenSpec`, and `SortJsonlByIndexInPlace` is proved to produce it. |
| SortByIndex.RewrittenSpec | scripts/sort_by_index.py:3-17 | The pass fails exactly when some line fails to load or has no integer `"index"`. Otherwise the new file has as many lines as the old one. It holds the old records with `"index"` removed, duplicates included, in non-decreasing index order, and records of equal index keep their order. No line keeps `"index"`. |
| SortByIndex.DumpAll | scripts/sort_by_index.py:16-17 | The write loop appends one line per record, in order. |
| SortByIndex.SortJsonlByIndexInPlace | scripts/sort_by_index.py:3-17 | On success, the file becomes the rewritten file. On failure, which happens before the file is reopened for writing, it is left exactly as it was. |

## Left out

- The prompt template (translate_alpaca.py:22-57), its formatting with `json.dumps` of the batch (translate_alpaca.py:70), the client setup (translate_alpaca.py:63-66) and the backend call with its model name (translate_alpaca.py:73-76). They are a foreign network service, modelled as the oracle `Service`.
- Exceptions other than `JSONDecodeError` inside `translate_batch`: transport errors, and an `AttributeError` when the reply's message content is `None` (translate_alpaca.py:77). They propagate out of the script and are outside the model.
- `json.loads`, `json.dumps` and `ensure_ascii`. Lines are modelled as already-parsed values or `Unparseable`.
- The bytes of the output file. The file is modelled as a sequence of lines, which assumes that it ends with a newline and that every line decodes as UTF-8. Two behaviours of the script that break these assumptions are not captured:
  - Torn last line. A run killed mid-write can leave a last line without a newline. The next run's first `f_out.write(json.dumps(...) + '\n')` (translate_alpaca.py:130, 173) extends that fragment, so the first new record lands inside one malformed line. The model instead has the `Unparseable` line followed by a separate, valid `Stamped` line.
  - Undecodable line in recovery. A line that is not valid UTF-8 raises inside the `for` header at translate_alpaca.py:145, outside the `try` at translate_alpaca.py:146, so the recovery run stops before writing. The model instead classifies the line as malformed and re-translates it.
- JSON numbers with a fraction. `Json` has integers only.
- File opening and existence checks, `tqdm` progress bars, status printing, `argparse` and `time.sleep(1)` between attempts. These are I/O, UI and timing. An absent output file is modelled as an empty one.
- The `batch_end` report and `pbar.update` (translate_alpaca.py:116-118, 135). They only feed the progress display.
- TranslationClient.Trim: only the ASCII characters Python counts as whitespace (space, tab, line feed, vertical tab, form feed, carriage return and the separators 0x1C-0x1F) are trimmed. Python's `str.strip()` also removes Unicode whitespace.
- SortByIndex.SortKeys: an `"index"` that is not an integer counts as a failure. Python would still sort an all-string or single-line file, or fail only when two incomparable keys meet.
- SortByIndex.SortedByIndex: the sort is an insertion-sort reference rather than Timsort. `StableSortIsUnique` shows that every stable sort by index gives this order.
- Sharing of the dict objects between `lines` and `sorted_lines` is not modelled. Only `sorted_lines` is popped from and written.
