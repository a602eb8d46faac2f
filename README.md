# pydicom-batch: a verified model of the batch bookkeeping

pydicom-batch sends batches of DICOM C-FIND and C-MOVE requests to a PACS. It
keeps its progress in three CSV state files in the output directory:
`requests.whole` (the worklist), `requests.completed` and `requests.failed`.
Matches go to a results CSV, the database file. This project models that
bookkeeping in Dafny:

- how the worklist is built from the configured request template, either
  one request per line of an elements batch file or one request per five-day
  StudyDate window;
- how an interrupted extraction is resumed (whole minus completed) or its
  failed requests retried;
- how the worklist is split over worker threads;
- the daily schedule gate;
- the association retry loop;
- how each C-FIND / C-MOVE response stream is classified into result rows
  and completed/failed appends;
- how the entry point merges the `common` section of the configuration into
  the operation's section.

Modules, in dependency order:

| module | file | what it holds |
|---|---|---|
| `Outcomes` | outcomes.dfy | `Option`, `Result` and the Python exceptions the code can raise |
| `Text` | text.dfy | `str.split`, substring search, ASCII case mapping, `sorted` on strings, `int()` / `str()` of naturals, `hex()` |
| `Dates` | dates.dfy | civil dates, `%Y%m%d` parsing/formatting, day arithmetic, `split_date_range` |
| `Store` | store.dfy | the files as a map from path to (header, lines); `dict_to_csv`, `request_from_csv`, `dataset_to_csv`, `os.path.join` / `dirname` |
| `Planner` | planner.dfy | `add_element_to_list` and `create_requests` |
| `Resume` | resume.dfy | `pending_requests`, `failed_requests`, the resume decisions, `np.array_split` |
| `Schedule` | schedule.dfy | `seconds_until` and the pause decision |
| `Worker` | worker.dfy | the `SCU` class: query model, retries, schedule wait, `send_find`, `send_move`, `process_requests_batch` |
| `Extraction` | extraction.dfy | `process_request_batch` and `thread_scu_function` |
| `Common` | common.dfy | `merge_configs` and the interrupt handler's failed-requests path |

Conventions:

- The files are a value, `Tables`, held in a `RequestStore` object whose
  methods change it in place, as the file system is changed in place.
- Every state-changing method is specified by a function of the old state:
  `RequestStore.DictToCsv` by `AfterWrite`, `Scu.SendFind` by `FindRequest`,
  `Scu.ProcessRequestsBatch` by `RunBatch`, and so on. The properties are
  proved about those functions.
- A stored cell is what `str()` wrote. A cell is either a string or an
  element list, kept as a list rather than as its `repr`. `repr` is
  injective on lists of strings, so row equality is the same either way.
- Exceptions are `Err` values that propagate the way Python propagates
  them. Handlers that swallow them are modelled:
  - the `try` in `send_move`;
  - the unread futures of the thread pool.

## Model

| member | source | states |
|---|---|---|
| Text.JoinSplit | scu.py:96 | splitting loses nothing: joining the parts with the separator gives the string back, and there is one more part than separators |
| Text.SplitAfterPrefix | scu.py:139 | a string with one separator splits into its prefix and the split of the rest |
| Text.ContainsAt | scu.py:429 | Python's `in` on strings holds exactly when the needle occurs at some offset |
| Text.Sort | scu.py:126 | `sorted` returns an ordered permutation of its input |
| Text.SortedUnique | scu.py:126 | two ordered permutations of the same list are equal, so the sorted order is unique |
| Text.SortPermutation | scu.py:66 | sorting depends only on the multiset of the input and is idempotent |
| Text.Decimal | scu.py:187 | `str(int)` of a natural is a digit string without a leading zero that reads back as the same number |
| Dates.OrdinalOrder | scu.py:102 | comparing dates (as `datetime` does) agrees with comparing their day ordinals |
| Dates.AddDaysOrdinal | scu.py:104 | adding n days adds n to the ordinal, and is defined exactly when the result does not pass 9999-12-31 |
| Dates.FormatParse | scu.py:97-98 | formatting a valid date as `%Y%m%d` and parsing it back gives the date |
| Dates.ParseFormat | scu.py:97-109 | an eight-digit string that parses formats back to itself; any accepted string, short forms included, formats to a spelling that parses to the same date |
| Dates.Parse | scu.py:97-98 | `strptime`'s `%Y%m%d` pattern: four year digits, then the first month alternative after which a day alternative matches, no characters left over, and an existing date; a parsed date is valid and its string has 6 to 8 characters; every failure is ValueError |
| Dates.EightDigits | scu.py:97-98 | on eight digits the pattern reads fixed-width fields: the string parses exactly when they name an existing date, and then to that date |
| Dates.ShortForms | scu.py:97-98 | one-character months and days and a space-padded day are accepted (`202411` and `2024011` are 2024-01-01, `2024131` is 2024-01-31); `20241301` is rejected |
| Dates.WindowsTile | scu.py:100-114 | the windows start at the start date and end at the end date; each spans at most five days; every window but the last spans exactly five; each next window starts the day after the previous one ends; there are none when the end comes before the start |
| Dates.WindowsPartition | scu.py:100-114 | a day lies in some window exactly when it lies between start and end inclusive, and then in only one |
| Dates.WindowsDefined | scu.py:104 | the loop never overflows when the end date is at least five days before 9999-12-31 |
| Dates.DateRanges | scu.py:93-96 | an empty string or one without `-` comes back alone; one with other than exactly one `-` raises ValueError |
| Dates.ReversedRangeEmpty | scu.py:102 | an end date before the start date gives an empty list |
| Dates.SplitDateRange | scu.py:91-114 | the while loop returns exactly `DateRanges` of its input, the rendered windows or the error, for every date spelling `strptime` accepts |
| Store.PathJoin | scu.py:156 | the joined path ends with the name and, for a relative name, starts with the directory |
| Store.DirNameOfJoin | common.py:59 | `dirname` of `dir/name` is `dir` when the name has no slash |
| Store.DictToCsvAppends | scu.py:63-72 | no other file changes; the header is the sorted fieldnames exactly when the file is new; earlier lines are kept and exactly one line is appended |
| Store.DictToCsvReadBack | scu.py:63-72 | when the header matches, the file reads back as its earlier rows followed by the written dict |
| Store.Rows | scu.py:52-61 | a missing file reads as no rows, and an existing one as one row per line |
| Store.FirstMissing | scu.py:47-48 | no key is reported exactly when every field name is in the dataset; otherwise the one reported is a field name the dataset lacks |
| Store.DatasetRow | scu.py:46-48 | the row has exactly the field names as keys, each holding the string of its element's value |
| Store.DatasetRowOf | scu.py:46-48 | the loop over the field names raises KeyError for exactly the first one the dataset lacks, and otherwise builds exactly `DatasetRow` |
| Store.FirstMissingAt | scu.py:47-48 | when every field name before position `i` is present and the one at `i` is not, that one is reported |
| Store.DatasetReadBack | scu.py:45-50 | writing a dataset to a new file reads back as exactly that one row |
| Store.SameKeysSameSort | scu.py:66 | the column order depends only on the set of field names, not on their order |
| Store.WriteAllFrame | scu.py:166-167 | writing the requests changes no other file and creates the file exactly when there is something to write |
| Store.WriteAllReadBack | scu.py:166-167 | after the requests are written, the file reads back as its earlier rows followed by them |
| Store.KeysOf | scu.py:167 | `request.keys()` enumerates each key of the dict exactly once |
| Store.KeysOfWrite | scu.py:167 | any duplicate-free enumeration of the keys writes the same line |
| Store.RequestStore.DictToCsv | scu.py:63-72 | the files become `AfterWrite` of the old ones; a key outside the field names raises ValueError after the header is written |
| Store.RequestStore.RequestFromCsv | scu.py:52-61 | returns the rows of the file, none when it is missing, and changes nothing |
| Store.RequestStore.DatasetToCsv | scu.py:45-50 | a dataset lacking a field name raises KeyError and leaves the files unchanged; otherwise the row is written as `dict_to_csv` does |
| Store.RequestStore.RemoveIfExists | scu.py:159-164 | the file is gone afterwards and nothing else changes |
| Planner.Elements | scu.py:408 | a request without `elements` raises KeyError, and one succeeds exactly when the elements are a list |
| Planner.GuardTruthy | scu.py:75 | the guard's list comprehension is non-empty exactly when the element list is, whatever the key |
| Planner.ReplacedAt | scu.py:76 | each element naming the key (`key=...` or `key` itself) becomes `key=value`, and every other element is kept |
| Planner.AddElementToListEffect | scu.py:74-79 | on an empty list the result is `[key=value]`; on any other list it has the same length, with exactly the elements naming the key replaced |
| Planner.AbsentKeyDropped | scu.py:74-79 | on a non-empty list that does not name the key, the list comes back unchanged and the new key is lost |
| Planner.ZipDomain | scu.py:121-124 | a CSV line read as a dict has as keys the header columns that have a value |
| Planner.Dedup | scu.py:124 | the row's keys are listed once each, and no column is lost |
| Planner.BatchRequests | scu.py:122-127 | one request per line of the batch file |
| Planner.AddKeysNonEmpty | scu.py:123-125 | on a non-empty template list the key loop leaves the template's list alone and keeps the row list's length |
| Planner.BatchKeepsTemplate | scu.py:123-125 | with a non-empty template list, no line of the batch file changes the template |
| Planner.BatchElementCount | scu.py:122-127 | with a non-empty template list, every row request has exactly as many elements as the template |
| Planner.AddKeysEffect | scu.py:123-125 | on a non-empty list whose keys have no `=`, the key loop gives element j the value of the column named by its part before `=`, and keeps it unchanged when no column names it; the length never changes |
| Planner.BatchShape | scu.py:122-127 | every row request is the template with a sorted element list, and no other key differs; for a non-empty template list and `=`-free header columns, request i's elements are the template's elements with line i's columns laid over them, sorted |
| Planner.BatchContent | scu.py:122-127 | for a non-empty template list and `=`-free header columns, request i is the template whose `elements` are the sorted overlay of line i's columns on the template's list |
| Planner.FirstLineOfEmptyTemplate | scu.py:78 | on an empty template list the first column is appended in place, so the template's own list takes it too |
| Planner.EmptyTemplateKeepsFirstColumn | scu.py:123-127 | an empty template list ends up holding the first column of the first line, and every row request then holds one element |
| Planner.FirstStudyDate | scu.py:132-136 | the element found is the first one that starts with `StudyDate=`; none is found exactly when no element starts so |
| Planner.StudyDateRange | scu.py:139 | the range is the text after `StudyDate=` up to the next `=`: it holds no `=`, and it is either the rest of the element or followed there by `=` |
| Planner.ReplaceStudyDateAt | scu.py:148-151 | every `StudyDate=` element carries the new range, and all other elements are unchanged |
| Planner.WindowRequestsAt | scu.py:143-152 | request i is the template with range i in its `StudyDate=` elements; every other element and key is the template's |
| Planner.WindowRequests | scu.py:143-152 | one request per date range |
| Planner.ExpandDateSplit | scu.py:138-152 | selects the date-split case of `ExpandRequests`: one request per window of `split_date_range`, in order (what the windows are is stated by `Planner.WindowRequestsAt` and `Dates.WindowsPartition`) |
| Planner.ExpandTemplateAlone | scu.py:128-129 | selects the fallback cases of `ExpandRequests`: a missing batch file, or no batch file key and no StudyDate element, makes the template the sole request |
| Planner.ExpandKeys | scu.py:116-154 | every request of the worklist has the template's keys |
| Planner.StatePathsDistinct | scu.py:156-158 | the three state files are three different paths |
| Planner.CreateResetsState | scu.py:156-167 | afterwards `requests.whole` reads back as exactly the new worklist and is absent when that is empty; `requests.completed` and `requests.failed` are gone; no other file changes |
| Planner.CreateRequests | scu.py:116-169 | returns the expansion of the template; on success the files are reset and the worklist written; on error no file is touched |
| Planner.Expand | scu.py:117-154 | the expansion loops compute exactly `ExpandRequests` |
| Planner.ExpandBatch | scu.py:122-127 | the row loop builds exactly `BatchRequests`, including the in-place growth of the template's list |
| Planner.AddRow | scu.py:124-125 | the key loop of one line gives the row's list and the template's list as `AddKeys` defines them |
| Planner.FindStudyDate | scu.py:132-136 | the search loop with `break` finds exactly `FirstStudyDate` |
| Planner.ExpandWindows | scu.py:143-152 | the loop over the date windows builds exactly `WindowRequests`: one copy of the template per window, in order |
| Resume.Difference | scu.py:183 | an element is in the result exactly when it is in the first list and not the second, and none appears twice |
| Resume.PendingRows | scu.py:175-183 | the pending rows are exactly the rows of `requests.whole` not in `requests.completed`, each once; all of whole when completed is missing |
| Resume.FailedRows | scu.py:228-229 | the retried rows are exactly the rows of `requests.failed`, each once |
| Resume.Convert | scu.py:184-187 | a row without `elements` raises KeyError, and a converted request has sorted elements |
| Resume.ConvertEffect | scu.py:184-187 | conversion succeeds exactly when the elements are a list, `throttle_time` and `threads` are present and `threads` parses; the result keeps the keys, sorts the elements, writes `threads` canonically and leaves the rest unchanged |
| Resume.ConvertIdempotent | scu.py:184-187 | converting a converted request changes nothing |
| Resume.ConvertAll | scu.py:184-187 | every row converts exactly when the loop succeeds, and then result i is the conversion of row i |
| Resume.ConvertAllSorted | scu.py:185 | every converted request has its elements sorted |
| Resume.FirstFailure | scu.py:184-187 | the loop raises the error of the first row that fails to convert |
| Resume.UnsortedStaysPending | scu.py:183-185 | a line of `requests.whole` with unsorted elements never equals a completed line written from a converted request, so it stays pending on every resume |
| Resume.ConvertRequests | scu.py:184-187 | the in-place loop over the rows computes exactly `ConvertAll` |
| Resume.Decide | scu.py:253-263 | retry the failed file exactly when whole and failed exist and the answer is not "Remove failed requests"; create exactly when whole is missing; otherwise take the pending path, whose own prompt decides on overwriting; the failed file is removed exactly when whole and failed exist |
| Resume.OverwriteConvertsFirst | scu.py:183-207 | overwriting a previous extraction first converts its pending rows: a row that fails raises and leaves every file as it was; otherwise the worklist is a fresh `create_requests` |
| Resume.ResolvedClearsFailed | scu.py:235-236 | once the worklist is resolved, `requests.failed` no longer exists |
| Resume.ErrorKeepsFiles | scu.py:184-187 | a conversion error leaves every file as it was |
| Resume.RetryIsFailedRows | scu.py:227-233 | the retry worklist is the conversion of the distinct rows of `requests.failed` |
| Resume.ResumeIsPendingRows | scu.py:178-187 | resuming without overwrite returns the conversion of the pending rows and leaves the files unchanged |
| Resume.ResolveRequests | scu.py:253-263 | the result and the new files are `BatchOutcome` of the old files and the answers |
| Resume.TakeWorklist | scu.py:253-263 | the call for the chosen source (`create_requests`, `pending_requests` or reading `requests.failed`) gives exactly `SourceOutcome` |
| Resume.PendingRequests | scu.py:171-208 | the result and the new files are `PendingOutcome` of the old files and the answer |
| Resume.Slice | scu.py:267 | slice i has `len / n + 1` requests for the first `len % n` slices and `len / n` after |
| Resume.ArraySplit | scu.py:267 | ValueError exactly when the section count is not positive; otherwise there are exactly that many slices |
| Resume.ArraySplitPartitions | scu.py:267 | the slices concatenate to the worklist, with the sizes of `Slice` |
| Resume.ArraySplitBalanced | scu.py:267 | slice sizes differ by at most one, larger ones first |
| Resume.Batches | scu.py:265-276 | an empty worklist is not split, and a thread count below one raises ValueError |
| Resume.BatchesCoverWorklist | scu.py:267-276 | the batches handed to workers concatenate to the worklist |
| Schedule.ParseTime | scu.py:288-294 | `HH:MM` parses exactly when there are at least two `:` parts, the first two decimal, hour < 24 and minute < 60 (further parts are ignored); a missing minute raises IndexError; the value is 3600·hour + 60·minute |
| Schedule.SecondsUntil | scu.py:283-297 | defined exactly when the time parses; lies in [0, 86400); it is the distance on the clock from the current moment rounded up to a whole second to the target, so adding it lands on the target; zero exactly when that second is the target |
| Schedule.UntilRoundsUp | scu.py:295-297 | the truncated remainder of the float difference is the whole seconds from the current moment rounded up to the target |
| Schedule.WaitDecision | scu.py:336-339 | no schedule, or a disabled one, never pauses |
| Schedule.GateCharacterised | scu.py:336-346 | with valid times the worker sleeps exactly when the current moment, rounded up to a second, lies outside the (start, end] window on the clock, and the sleep ends at the start time |
| Worker.QueryModel | scu.py:365-382 | other request types get no model; c-find/c-move without `model` raise KeyError; `study` picks the study root, `psonly` the patient/study-only root and anything else the patient root; the UID is a FIND model exactly for c-find |
| Worker.MoveMatchesFind | scu.py:368-381 | for every `model` value the MOVE UID is the FIND UID with last component 2 |
| Worker.Keywords | scu.py:408 | one keyword per element, the part before `=` |
| Worker.Identifier | scu.py:81-89 | the identifier has every element's keyword |
| Worker.IdentifierValues | scu.py:81-89 | the identifier holds only the elements' keywords, each with the value of the last element naming it |
| Worker.MatchesAnyCharacterised | scu.py:426-443 | a filter matches exactly when its upper-cased text occurs in the upper-cased description; an empty filter matches everything |
| Worker.AnyFilterMatches | scu.py:428-431 | the loop with `break` decides exactly `MatchesAny` |
| Worker.ShouldSaveResponse | scu.py:422-444 | the filter block decides exactly `ShouldSave` |
| Worker.AfterWriteGrows | scu.py:63-72 | a write only appends |
| Worker.FindStepGrows | scu.py:417-460 | one C-FIND response only appends to files |
| Worker.FindFoldGrows | scu.py:417-460 | the C-FIND response loop only appends to files |
| Worker.MoveStepGrows | scu.py:481-498 | one C-MOVE response only appends to files |
| Worker.MoveFoldGrows | scu.py:477-500 | the C-MOVE response loop only appends to files, however it ends |
| Worker.GrowsTrans | scu.py:63-72 | append-only is transitive |
| Worker.RecordAppends | scu.py:456-460 | recording a request adds one line to its state file and changes no other file |
| Worker.AppendedCounts | scu.py:456-460 | recording adds one line to the chosen file and none to any other |
| Worker.DatabaseWriteKeeps | scu.py:446-447 | a database write keeps the line count of every other file |
| Worker.DatasetWriteFrame | scu.py:446-447 | a database write changes no other file |
| Worker.FindStepCounts | scu.py:417-460 | one C-FIND response adds a completed line exactly when terminal 0x0000, and a failed line exactly when terminal otherwise |
| Worker.FindCounts | scu.py:417-460 | over a stream, completed grows by the number of terminal 0x0000 statuses and failed by the number of other terminal statuses; pending 0xFF00/0xFF01 add nothing |
| Worker.FindPendingLeavesState | scu.py:418-447 | a stream of pending responses leaves `requests.completed` and `requests.failed` exactly as they were |
| Worker.MoveStepTerminal | scu.py:486-498 | a terminal C-MOVE response stamps `Status` as hex, adds the `Status` column, writes the row, then records the request |
| Worker.MoveStepCounts | scu.py:481-498 | one C-MOVE response with a status adds a line to completed or failed exactly when terminal, by its code |
| Worker.MoveCounts | scu.py:478-498 | over a stream with statuses, completed grows by the terminal 0x0000 count and failed by the other terminal count; pending 0xFF00 adds nothing |
| Worker.RetryCharacterised | scu.py:352-362 | retrying succeeds exactly when the association is up or one of the next 99 attempts succeeds; success leaves it up; failure is SystemExit(1) |
| Worker.HundredthAttemptDiscarded | scu.py:354-362 | when only the 100th re-association succeeds, the loop has run out and exits with 1 anyway |
| Worker.RetryRun | scu.py:354-362 | the exact outcome of a run of failing attempts |
| Worker.BatchGrows | scu.py:384-393 | a worker's request loop only appends to files, however it ends |
| Worker.RequestGrows | scu.py:396-401 | processing one request only appends to files |
| Worker.Scu.constructor | scu.py:303-307 | a new worker has the given settings and query model, and no association |
| Worker.Scu.EstablishAssociation | scu.py:330-334 | one attempt is used, and its outcome is the association's state |
| Worker.Scu.RetryAssociation | scu.py:352-362 | the bounded loop computes exactly `RetryFrom` |
| Worker.Scu.WaitUntilScheduledTime | scu.py:336-349 | the pause decided is exactly `WaitDecision` |
| Worker.Scu.RecordRequest | scu.py:456-460 | the request is appended with its own keys to the file its status picks |
| Worker.Scu.SendFind | scu.py:404-460 | result, files and association are exactly `FindRequest`: KeyError/AttributeError propagate, SystemExit when the retries run out, then the response fold |
| Worker.Scu.FindResponse | scu.py:418-460 | one iteration of the C-FIND loop is `FindStep`; an error leaves the files as they were |
| Worker.Scu.SendMove | scu.py:464-500 | result, files and association are exactly `MoveRequest`: errors in the response loop are swallowed and end the loop |
| Worker.Scu.MoveResponse | scu.py:481-498 | one iteration of the C-MOVE loop is `MoveStep`; a failing write leaves the files as they were |
| Worker.Scu.ProcessRequest | scu.py:396-401 | dispatch on the lower-cased type is exactly `RequestStep`; other types do nothing |
| Worker.Scu.ProcessRequestsBatch | scu.py:384-393 | the batch loop is exactly `RunBatch`: one association attempt, then each request while the flag is set, stopping at the first error; an association dropped during a request stays down for the next one |
| Worker.DropThenExit | scu.py:384-411 | after the association drops in the middle of a batch, the next request sent retries it first, and when none of the next 99 attempts succeeds the worker exits with status 1 |
| Worker.NewScu | scu.py:303-307 | building a worker fails exactly when the query model does, with its error; otherwise a fresh worker with no association |
| Extraction.Dispatch | scu.py:265-278 | an empty worklist does nothing; a thread count below one raises ValueError; with several threads the extraction always returns normally |
| Extraction.OneThreadRunsWorklist | scu.py:273-276 | with one thread the whole worklist goes to a single worker in the calling thread, and its error is the extraction's |
| Extraction.WorkerGrows | scu.py:240-244 | a worker only appends to the files it is given |
| Extraction.PoolGrows | scu.py:272-274 | the pool of workers only appends to files |
| Extraction.ExtractionAppendsOnly | scu.py:246-280 | once the worklist is resolved, the extraction only appends to the state files and the database |
| Extraction.ProcessRequestBatch | scu.py:246-280 | result and files are exactly `Extract`: resolve, split, then run the pool or the single worker |
| Extraction.RunWorker | scu.py:240-244 | one worker's run is exactly `WorkerRun` |
| Common.Lookup | common.py:10-15 | subscripting succeeds exactly on a mapping holding the key; a missing key raises KeyError |
| Common.OutputOf | common.py:20-26 | a side without `output` contributes nothing; otherwise it contributes its mapping, or raises TypeError |
| Common.MergeConfigs | common.py:7-32 | succeeds exactly when `Mergeable`; reports the first missing key among `common`, `pacs`, `local`, `schedule` and the operation; a `common` or operation section, or an `output`, that is not a mapping raises TypeError; copies pacs/local/schedule; the request is the operation section with `type` defaulting to the operation; output is common's overlaid by the operation's; `anonymization` is present exactly for c-move with that key, and is its value |
| Common.Merged | common.py:9-30 | the merged section has exactly the five sections (plus `anonymization` for c-move), the request defaulting `type` to the operation, and the output overlaying common with the operation's |
| Common.InterruptFailedPath | common.py:54-61 | c-move looks in the output directory; otherwise next to the configured database file |
| Common.FindHandlerAgrees | common.py:56-61 | for c-find, handler and worker agree when the database file is given under the output directory |
| Common.FindHandlerLooksElsewhere | common.py:56-61 | for c-find with a bare database file name and an output directory not spelled `.`, `./`, ..., the handler checks `requests.failed` in the working directory, a path other than the one the worker writes |
| Common.FindHandlerWorkingDirectory | common.py:56-61 | for c-find with a bare database file name and an output directory spelled `.`, `./`, ..., the worker's failed file is the handler's relative path joined to that directory, so both name the same file |

## Left out

- Network and DICOM library:
  - the pynetdicom application entity and associations;
  - the C-FIND/C-MOVE wire exchange;
  - `create_ae` and its presentation contexts.
  Association attempts, responses and whether the association drops during a request are inputs. `create_ae`'s c-echo branch names an unimported `VerificationSOPClass` (a NameError for request type c-echo); it is not modelled.
- `ElementPath` and `create_dataset`: an element's keyword is taken as the text before `=`, and its value as the text after it. Nested element paths and value typing are not modelled.
- `ast.literal_eval` of a stored element list: a list is kept as a list cell. A string cell where a list is expected is reported as ValueError by `Resume.Convert` and as TypeError by `Planner.Elements`.
- `float(throttle_time)` and `time.sleep`: only the presence of `throttle_time` is checked.
- `int()` accepts signs, surrounding whitespace and underscores; `Text.ParseDecimal` accepts plain decimal digits only.
- CSV dialect, quoting, `restkey`/`restval` and short lines beyond dropping missing columns.
- `set` iteration order: `Resume.Difference` keeps first-occurrence order, one of the orders Python may produce.
- The `inquirer` prompts: the chosen labels are parameters. A prompt returning `None` (Ctrl-C in the prompt) is not modelled.
- Threads, the progress bar and the SIGINT handler:
  - pool workers run one after another, in slice order;
  - the continue flag is an input per request;
  - each worker gets its own attempt and environment sequences.
- Clock and time zones:
  - the time is an input moment of the day in microseconds, one per request;
  - pytz lookup and daylight-saving shifts are not modelled.
- The large-response-count warning, `print` output and the association release.
- Unicode case mapping: `upper()`/`lower()` are modelled on ASCII letters only.
- The configuration is a typed `Settings` value inside the worker. The KeyErrors of missing `output`, `pacs` or `local` keys there are not modelled. `Common.MergeConfigs` models them for the merge itself.
- `Common.OutputOf`: `dict.update` also accepts a sequence of pairs; any non-mapping `output` is reported as TypeError.
- `request.threads` is taken to be an integer.
- YAML loading, starting and stopping the SCP server, `sys.exit` in the interrupt handler, and main.py.
- `Dates.Parse`: digits are ASCII; the `\d` of Python's pattern also matches other Unicode decimal digits.
- `Planner.BatchContent`: states element values only for header columns without `=` and a non-empty template list. A column containing `=` can rename an element as it replaces it. An empty template list is covered by `Planner.EmptyTemplateKeepsFirstColumn` (one element per request), not value by value.
- Files are identified by their path strings, with no resolution against the working directory: `x`, `./x` and `x` under the working directory's absolute path are different files in the model. The requires `DatabasePath(s) != CompletedPath(..)` and `!= FailedPath(..)` of `Worker.FindStepCounts`, `Worker.FindCounts`, `Worker.FindPendingLeavesState`, `Worker.MoveStepCounts` and `Worker.MoveCounts` stand for the database file being a different file from the state files.
- `Common.FindHandlerLooksElsewhere`: the output directories spelled `.`, `./`, ... are excluded and covered by `Common.FindHandlerWorkingDirectory`. An output directory given as the working directory's absolute path also names the handler's file, and the model cannot see that because the working directory is not an input.
