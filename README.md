# AI GitHub Analyzer — a verified model of its decision rules

The analyser takes a GitHub repository URL. It walks the repository through
the GitHub contents API and summarises every text file with a language model
(Gemini, falling back to OpenAI). Each file summary is staged as a JSON file
under `temp_summaries/`. A final Markdown report is then written from those
staged summaries, in batches of five, and the staging files are deleted.

This project models the deterministic rules underneath that glue, in Dafny:

- **Retry ladder** of a chunk summary (`summarize_file_chunk_async`). The
  primary model's answers are a scripted list of outcomes (`Ok`,
  `RateLimited`, `OtherError`). The ladder returns four things: the text,
  the number of primary calls, whether the fallback was used, and the waits
  it would sleep. `SummarizeChunk` is the loop, proved equal to the
  recursive specification `Ladder`.
- **Staging cache** of `summarize_file`. A `Storage` object holds two maps
  that the methods update: the staging directory and the report files.
- **Project report** of `summarize_project`. This covers:
  - the sanitised name;
  - the overview snippets;
  - the batches of five;
  - the assembled Markdown;
  - the clean-up, which happens only after a successful write.
- **Repository walk** of `fetch_dir` and `fetch_files`. The walk runs over
  an in-memory tree of listing and download outcomes. It returns a Python
  dict, modelled as an insertion-ordered sequence of entries with unique
  keys (module `Dicts`).
- **Request pipeline** of `main.py`:
  - `GITHUB_REGEX`;
  - the text-file filter;
  - the decisions of `analyze_repo`;
  - the event sequence of `summarize_files_stream`, including client
    disconnection.

Concurrency (`asyncio.gather`) is read as "run in order, keep order".
External services become inputs:

- outcome sequences for the models;
- a `Listing` tree for GitHub;
- functions from path to outcome for `summarize_file` and `summarize_project`
  as seen from `main.py`;
- parameters for the two clock readings, write failures and undeletable
  files.

## Model

| member | source | states |
|---|---|---|
| Text.RStrip | utils/summarizer.py:229 | `rstrip()` removes exactly the trailing run of whitespace: the result is a prefix, does not end in whitespace, and everything cut off is whitespace |
| Text.LStrip | utils/summarizer.py:104 | `lstrip()` removes only leading whitespace and leaves no whitespace at the front |
| Text.LStripSuffix | utils/summarizer.py:104 | what `lstrip()` keeps is a suffix of its input |
| Text.StripEmptyIff | main.py:75 | `not s.strip()` holds exactly when every character of `s` is whitespace |
| Text.StripShape | utils/summarizer.py:104 | a stripped model answer never starts or ends with whitespace and is no longer than the answer |
| Text.Strip | main.py:75 | `str.strip()` as `lstrip` after `rstrip`; Text.StripEmptyIff and Text.StripShape state what it leaves |
| Text.Take | utils/summarizer.py:249 | `s[:n]` is the prefix of length `min(n, len(s))` |
| Text.JoinLength | utils/summarizer.py:182 | the joined chunk summaries are as long as the parts together plus one separator between each two neighbours |
| Text.JoinSnoc | utils/summarizer.py:182 | joining one more part appends one separator and then that part, so the join is the parts in order with a separator between neighbours |
| Text.JoinEnds | utils/summarizer.py:317 | the joined batch replies start with the first reply and end with the last |
| Text.Join | utils/summarizer.py:182 | `sep.join(parts)`; Text.JoinLength, Text.JoinSnoc and Text.JoinEnds state its length, its order and its ends |
| Text.ReplaceChar | utils/summarizer.py:138 | `replace` of one character changes exactly its occurrences and keeps the length |
| Text.ReplaceAllSkip | utils/summarizer.py:247 | `replace(".json", "")` leaves alone a prefix that contains no '.' |
| Text.ReplaceAll | utils/summarizer.py:247 | `s.replace(pat, rep)` left to right, without overlaps; Text.ReplaceAllSkip, Staging.ShownName and Staging.ShownNameOfJsonFile state what it does to staged names |
| Text.Lower | utils/github_fetcher.py:63 | `lower()` maps each character to its lower-case form and keeps the length |
| Text.LowerNeverEndsWithUpper | utils/github_fetcher.py:63-66 | a lower-cased name never ends with a suffix that holds an upper-case letter |
| Dicts.Get | utils/github_fetcher.py:101 | the lookup that states what `files[path] = …` stores: it finds a value exactly when `k` is a key, and the value is one stored under `k` |
| Dicts.PutKeys | utils/github_fetcher.py:101 | `d[k] = v` appends a new key at the end and keeps a present key in its place |
| Dicts.PutGet | utils/github_fetcher.py:101 | after `d[k] = v`, `k` maps to `v` and every other key keeps its value |
| Dicts.PutUnique | utils/github_fetcher.py:101 | assignment never duplicates a key |
| Dicts.Put | utils/github_fetcher.py:101 | `d[k] = v`; Dicts.PutKeys, Dicts.PutGet and Dicts.PutUnique state its keys, its values and that keys stay unique |
| Dicts.UpdateSpec | utils/github_fetcher.py:104-106 | after `files.update(res)` the keys are those of both dicts, a key of `res` takes its value from `res`, the others keep theirs, and no key is duplicated |
| Dicts.Update | utils/github_fetcher.py:106 | `d.update(e)` as the entries of `e` assigned in order; Dicts.UpdateSpec states the result |
| Dicts.Filter | main.py:73-76 | a one-entry dict keeps its entry exactly when the condition accepts it; with Dicts.FilterAppend this fixes the result as the accepted entries in insertion order |
| Dicts.FilterSpec | main.py:73-76 | a filtering comprehension keeps exactly the entries that pass the condition, never adds a key and keeps keys unique |
| Dicts.FilterAppend | main.py:73-76 | the comprehension visits entries in order: filtering a concatenation filters each half and keeps them in their order |
| Retry.FallbackNeverFails | utils/summarizer.py:77-89 | the fallback always returns text: the provider's stripped answer, or a string starting with "[OpenAI Fallback Error] " when there is no client or the call raises |
| Retry.FallbackText | utils/summarizer.py:77-89 | the fallback call as text: the stripped answer, or the "[OpenAI Fallback Error] " marker without a client or on an exception; stated by Retry.FallbackNeverFails |
| Retry.Ladder | utils/summarizer.py:91-125 | the retry ladder as a recursive definition; Retry.SummarizeChunk is proved equal to it, and Retry.LadderAnswer, Retry.LadderFallback and Retry.LadderWaits state its behaviour |
| Retry.SummarizeChunk | utils/summarizer.py:91-125 | the retry loop returns exactly the run that the ladder specification gives for the same outcomes, retry limit, initial delay and fallback |
| Retry.LadderFallback | utils/summarizer.py:101-125 | the fallback is used exactly when every remaining attempt fails; it then supplies the text, after max_retries primary calls, or none when max_retries <= 0 |
| Retry.LadderAnswer | utils/summarizer.py:101-104 | without fallback, the last primary call is the first to answer, all calls before it failed, and its stripped text is the result |
| Retry.LadderWaits | utils/summarizer.py:98-123 | one wait after each failed attempt except the last; the j-th uses the delay doubled j times, plus 2·attempt for a rate limit |
| Retry.SuccessPath | utils/summarizer.py:98-104 | if attempt k is the first success, the result is its stripped text after k+1 calls, with no fallback and k waits |
| Retry.ExhaustionPath | utils/summarizer.py:101-125 | if all attempts fail (any mix of errors), the fallback is called once and its text is returned; max_retries <= 0 means no primary call |
| Retry.Backoff | utils/summarizer.py:98-123 | the j-th wait is initial_delay·2^j, plus 2j when attempt j was rate limited; there is no wait after the last attempt |
| Retry.DefaultRateLimitedWaits | utils/summarizer.py:94-115 | with the defaults, three rate limits wait 5 then 12 seconds and end in the fallback after 3 calls |
| Retry.BatchIsOneAttemptLadder | utils/summarizer.py:202-216 | a project batch call is one attempt with no wait; a rate limit goes to the fallback, another error becomes "Error summarizing project batch: …" instead |
| Retry.BatchReply | utils/summarizer.py:202-216 | one primary call: the stripped answer, the fallback on a rate limit, and the batch error text otherwise; stated by Retry.BatchIsOneAttemptLadder |
| Staging.SafeFileName | utils/summarizer.py:138 | the safe name has the path's length, maps '/' and '\\' to '_', keeps every other character and contains no separator |
| Staging.Basename | utils/summarizer.py:247 | `os.path.basename` returns everything after the last '/': a suffix with no '/', preceded by '/' unless it is the whole path |
| Staging.DisplayName | utils/summarizer.py:247 | the name shown for a staged file; what it means is stated by Staging.ShownName, Staging.DisplayNameRoundTrip and Staging.ShownNameOfJsonFile |
| Staging.LocationShape | utils/summarizer.py:138-139 | the staging location is `temp_summaries/` + safe name + `.json`, and its base name is the safe name with ".json" |
| Staging.LocationCollision | utils/summarizer.py:138-139 | two different paths ("a/b" and "a_b") share one staging location |
| Staging.LocationInjective | utils/summarizer.py:138-139 | on paths without '_' and '\\', different paths have different staging locations |
| Staging.Location | utils/summarizer.py:138-139 | the staging file of a path; Staging.LocationShape, Staging.LocationCollision and Staging.LocationInjective state its form and when two paths share it |
| Staging.ShownName | utils/summarizer.py:247 | for a path without '\\' and without ".json", the name shown for its staged summary is the path with every '_' read as '/' |
| Staging.DisplayNameRoundTrip | utils/summarizer.py:247 | for paths without '_', '\\' and ".json", the shown name gives the path back |
| Staging.ShownNameOfJsonFile | utils/summarizer.py:247 | for a path q + ".json" where q has no '_', no '\\' and no ".json", the shown name is q |
| Staging.SummarizeChunks | utils/summarizer.py:158-181 | every chunk runs the default retry ladder, and the results stay in chunk order |
| Staging.CacheHit | utils/summarizer.py:141-153 | a readable staged record at the path's location with the same sha; Staging.Storage.SummarizeFile states that a hit returns the location and leaves the store unchanged, and that anything else regenerates |
| Staging.Storage.SummarizeFile | utils/summarizer.py:127-199 | an uninitialised model gives the "[ERROR] …" string and changes nothing. A sha-matching staged record returns its location with no model call and no change. Otherwise every chunk runs the ladder and the record {sha, chunk texts joined by "\n\n---\n\n"} overwrites the location, or a failed write returns None and changes nothing. Reports are never touched |
| Report.KeepNameChars | utils/summarizer.py:229 | the filter keeps only letters, digits, '-' and '_', keeps a name made only of them whole, and keeps one character exactly when it is allowed |
| Report.KeepNameCharsAppend | utils/summarizer.py:229 | the filter works character by character: filtering a concatenation gives the filtered halves, so every allowed character is kept, in order |
| Report.SafeProjectName | utils/summarizer.py:229-231 | the safe name is non-empty and made of letters, digits, '-' and '_'; it is the filtered name, or "AI_Project_Summary" when that is empty |
| Report.ReportFileNameShape | utils/summarizer.py:233 | the report name is the safe name + "_summary_" + timestamp + ".md", and has no '/' when the timestamp has none |
| Report.ReportFileName | utils/summarizer.py:233 | the report's file name; Report.ReportFileNameShape states its form |
| Report.BatchAt | utils/summarizer.py:276-277 | each batch slice holds between 1 and 5 paths |
| Report.PartitionBatches | utils/summarizer.py:276-277 | the loop makes ceil(n/5) batches; batch k is `paths[5k:5k+5]`, and the batches concatenated give the paths back in order |
| Report.Snippets | utils/summarizer.py:243-252 | at most one overview snippet per listed file |
| Report.SnippetsOne | utils/summarizer.py:243-252 | a single file gives its snippet when it is readable, and is skipped otherwise |
| Report.SnippetsAppend | utils/summarizer.py:243-252 | snippets are made file by file: those of a concatenation are those of each half, in order |
| Report.SnippetShape | utils/summarizer.py:247-250 | a snippet is "**File: " + the shown name + "**\n", then the first min(1000, n) characters of the summary, then "..." |
| Report.FirstFiles | utils/summarizer.py:243 | `summary_paths[:3]` is the prefix of exactly min(3, n) paths |
| Report.ReadOverview | utils/summarizer.py:242-266 | the overview reads the snippets of the readable files among the first three (at most 3), and reports n − snippets remaining files |
| Report.ReadBatch | utils/summarizer.py:280-293 | a batch digest is one section per staged file, in order, joined by "\n\n"; an unreadable file is marked, not dropped |
| Report.Section | utils/summarizer.py:284-292 | one staged file in a batch digest: its shown name and summary, or the "(Error reading)" marker; Report.ReadBatch is proved to use it for each file in order |
| Report.DigestBatches | utils/summarizer.py:275-296 | one digest per batch, and digest k covers exactly batch k |
| Report.RemovedBound | utils/summarizer.py:326-334 | the clean-up counts at most as many deletions as there are staged paths, even with repeats |
| Report.Removed | utils/summarizer.py:326-334 | the staged files the clean-up loop deletes; Report.Cleanup states that exactly these are removed and counted, and Report.RemovedBound bounds the count |
| Report.ReportContentShape | utils/summarizer.py:235-317 | the report opens with the project title, has the overview right after the overview heading and before the detailed analysis, and ends with the last batch reply |
| Report.ReportContent | utils/summarizer.py:235-317 | the report text: title, time stamp, overview, then the batch replies joined by "\n\n---\n\n"; Report.ReportContentShape states its shape and Report.SummarizeProject that this text is written |
| Report.Cleanup | utils/summarizer.py:325-334 | exactly the listed, present, deletable staged files are removed, the count is how many were, and the reports are untouched |
| Report.SummarizeProject | utils/summarizer.py:218-341 | an uninitialised model gives the "[ERROR] …" string and changes nothing. Otherwise it asks about the overview snippets and one digest per batch. A failed report write returns "[ERROR] Failed to write final summary file: …" and deletes nothing. A successful one stores the report (header, overview, batch replies joined in order) under the report name, then deletes the staged files, with the count bounded by n |
| Fetcher.DeniedIgnoresCase | utils/github_fetcher.py:63-67 | a name is denied exactly when its lower-cased form is |
| Fetcher.DSStoreNeverMatches | utils/github_fetcher.py:63-67 | the ".DS_Store" entry never matches a lower-cased name: a name is denied exactly when it ends with one of the other entries |
| Fetcher.Denied | utils/github_fetcher.py:63-67 | the deny-list test on the lower-cased name; Fetcher.DeniedIgnoresCase and Fetcher.DSStoreNeverMatches state it, and Fetcher.DownloadsAllowed that a denied item is never downloaded |
| Fetcher.QueueFiles | utils/github_fetcher.py:60-86 | the classification loop queues, in listing order, exactly the file items that are not denied and have a download URL |
| Fetcher.Queued | utils/github_fetcher.py:60-80 | `file_fetch_info` after the classification loop; Fetcher.QueueFiles is proved to build it and Fetcher.QueuedAllowed states what it holds |
| Fetcher.StoreFiles | utils/github_fetcher.py:89-101 | the i-th download result is stored under the i-th queued path, and only when its body is non-empty; every queued URL is downloaded |
| Fetcher.FileMap | utils/github_fetcher.py:98-101 | `files` after the file results are stored; Fetcher.StoreFiles is proved to build it and Fetcher.DirFiles states its entries |
| Fetcher.MergeSubdirs | utils/github_fetcher.py:82-106 | subdirectories are walked and merged into the files in listing order |
| Fetcher.MergeDirs | utils/github_fetcher.py:104-106 | `files` after the subdirectory results are merged; Fetcher.MergeSubdirs is proved to build it and Fetcher.MergeSpec and Fetcher.LaterSubdirWins state its contents |
| Fetcher.FetchDir | utils/github_fetcher.py:24-108 | the recursive walk returns exactly the specified dict and download list. A failed listing and a non-file, non-list answer give {}. A single file gives one entry, or {} without a URL or body. A directory gives its files, then its subdirectories merged |
| Fetcher.FetchFiles | utils/github_fetcher.py:111-136 | a runner exception is passed on as the failure, and without one the call succeeds |
| Fetcher.FetchFilesSpec | utils/github_fetcher.py:111-136 | without a runner exception, the result has unique paths, holds exactly the paths the tree supplies, and no content is empty (so the None filter removes nothing) |
| Fetcher.DirFiles | utils/github_fetcher.py:60-101 | a listing's own files form a dict whose keys are exactly the paths of its admissible, delivered files, each with that file's sha and body |
| Fetcher.MergeSpec | utils/github_fetcher.py:103-106 | merging subdirectories keeps the keys already present and adds every key a subdirectory supplies; each value comes from the files or from a subdirectory |
| Fetcher.FetchedSpec | utils/github_fetcher.py:24-108 | the walk has unique keys; a path is a key exactly when some file with a URL and a non-empty body has that path, where the file is a directory entry that passes the deny list or the single file the API answered with (which the deny list never sees); each value is such a file's sha and body |
| Fetcher.Fetched | utils/github_fetcher.py:24-108 | what `fetch_dir` returns, as a recursive definition; Fetcher.FetchDir is proved equal to it, and Fetcher.FetchedSpec and Fetcher.LaterSubdirWins state its contents |
| Fetcher.DownloadsAllowed | utils/github_fetcher.py:60-89 | every URL downloaded belongs to a file with a download URL that is a directory entry passing the deny list, or the single file the API answered with |
| Fetcher.QueuedAllowed | utils/github_fetcher.py:60-80 | every queued entry comes from an admissible file item |
| Fetcher.SubDownloadsAllowed | utils/github_fetcher.py:82-93 | subdirectory downloads come only from what the subtrees offer: entries passing the deny list, or a single-file answer |
| Fetcher.SuppliedNonEmpty | utils/github_fetcher.py:99 | only non-empty downloaded bodies are ever stored |
| Fetcher.LaterSubdirWins | utils/github_fetcher.py:103-106 | a later subdirectory overwrites any earlier value (a file or an earlier subdirectory) stored under the same path |
| Fetcher.FilesKeptWithoutSubdirs | utils/github_fetcher.py:97-106 | a path that no subdirectory supplies keeps the value stored from the listing's own files |
| Pipeline.SegmentRun | main.py:19 | the greedy `[\w\-]+` takes the longest prefix of word characters and '-' |
| Pipeline.ParseGithubUrl | main.py:19 | `re.match(GITHUB_REGEX, url)` with its two groups; Pipeline.ParseSound and Pipeline.ParseComplete state both directions |
| Pipeline.ParseSound | main.py:19 | an accepted URL is "https://github.com/" + owner + "/" + name + a tail in {"", "/", ".git", ".git/"}, optionally followed by "\n"; both groups are non-empty `[\w\-]` runs, and the name never contains '.' |
| Pipeline.ParseComplete | main.py:19 | every URL of that shape is accepted, with exactly those groups |
| Pipeline.ReportNamedAfterRepo | main.py:106 | the report of an accepted repository is named after the repository, since the sanitiser keeps every character of the captured name |
| Pipeline.FilesToProcess | main.py:73-76 | the processed files are exactly the fetched entries with a listed ending and non-blank content, and a one-entry dict keeps its entry exactly when it qualifies |
| Pipeline.FilesToProcessAppend | main.py:73-76 | the processed files keep the fetched order: those of a concatenation are those of each half, in order |
| Pipeline.TodoOrder | main.py:73-76 | every fetched file takes its place among the paths to summarise after the qualifying files fetched before it and before those fetched after it, and only when it qualifies itself |
| Pipeline.ProcessedIff | main.py:73-76 | a file is processed exactly when its path ends, case-sensitively, with a listed ending and its content has a non-whitespace character |
| Pipeline.IsTextFile | main.py:75 | the case-sensitive `endswith` test over TEXT_EXTENSIONS; Pipeline.ProcessedIff states it |
| Pipeline.Processable | main.py:73-76 | the comprehension's condition; Pipeline.FilesToProcess and Pipeline.ProcessedIff state it |
| Pipeline.ValidLocations | main.py:99 | only truthy locations returned for processed paths are passed on; a single path contributes its location exactly when that location is truthy |
| Pipeline.ValidLocationsAppend | main.py:99 | locations are collected path by path: those of a concatenation are those of each half, so every truthy location is kept, in processing order |
| Pipeline.AnalyzeRepo | main.py:44-116 | the answer is 400 exactly for an invalid URL; errors are 400, 404 or 500. A success names owner/repo, counts every fetched file, and counts the valid locations, which are between 1 and the number processed |
| Pipeline.NothingToProcess | main.py:69-79 | with no file to process, the answer does not depend on the summariser; for a valid URL and a fetch that did not raise, it is a 404 |
| Pipeline.AllSummariesFailed | main.py:99-102 | when no processed file yields a truthy location, the answer is the 500 "All file summaries failed." |
| Pipeline.NoValidLocations | main.py:99 | no location at all means an empty list |
| Pipeline.Reported | main.py:177-194 | a file's report is its summary exactly when a location was returned and read back; otherwise it is an error event |
| Pipeline.StreamFiles | main.py:164-194 | the loop stops at the first failed connection check. Otherwise it yields the status and report events of every file and stages every returned location |
| Pipeline.StreamFetched | main.py:136-213 | the events after the fetch status follow the specification of the stream |
| Pipeline.SummarizeFilesStream | main.py:122-213 | the generator yields exactly the specified event sequence |
| Pipeline.Stream | main.py:122-213 | the generator's whole event sequence; Pipeline.SummarizeFilesStream is proved to yield it, and Pipeline.InvalidUrlStream, Pipeline.StreamStopsEarly and Pipeline.StreamCompletes state it |
| Pipeline.AfterFetch | main.py:146-213 | the events after the fetch status; Pipeline.StreamFetched is proved to yield them and Pipeline.StreamProcessing states them for a fetch with files |
| Pipeline.Processing | main.py:164-213 | the events from the first file on; Pipeline.DisconnectStopsProcessing and Pipeline.ProcessingEnding state them |
| Pipeline.LoopEventsShape | main.py:166-194 | the loop yields two events per file: the numbered status, then its report, which is never an ending event |
| Pipeline.LoopEvents | main.py:166-194 | the events of the file loop; Pipeline.LoopEventsShape states their shape and Pipeline.StreamFiles is proved to yield them |
| Pipeline.StagedPathsSpec | main.py:177-182 | the staged list holds only returned locations, at most one per file, and is empty exactly when no file returned one |
| Pipeline.StagedPaths | main.py:177-182 | `file_summary_paths` after the loop; Pipeline.StagedPathsSpec and Pipeline.StagedPathsAppend state what it holds |
| Pipeline.StagedPathsAppend | main.py:177-182 | one file contributes its location exactly when `summarize_file` returned one, and the list of a concatenation is that of each half, so every returned location is kept in processing order |
| Pipeline.InvalidUrlStream | main.py:128-131 | an invalid URL yields exactly one error event |
| Pipeline.StreamProcessing | main.py:136-161 | a stream that reaches the files starts with the fetching and analysing status events |
| Pipeline.StreamStopsEarly | main.py:128-158 | a stream that stops before the files has one or two events, ends in an error and has no "Completed" |
| Pipeline.DisconnectStopsProcessing | main.py:166-169 | after a disconnection, there are exactly two events per file handled before it, and no project or completion event |
| Pipeline.ProcessingEnding | main.py:196-213 | the stream ends with "Generating", the report name or error, then "Completed" exactly when the client stayed and some file was staged; with nothing staged the last event is the "No files were successfully summarized." error |
| Pipeline.StreamCompletes | main.py:122-213 | "Completed" appears exactly when the URL is valid, there are files to process, the client stayed for all of them and one was staged; a disconnection leaves no project summary |
| Pipeline.ProcessingStreamCompletes | main.py:160-213 | the same rule for a stream that reaches the files |

## Left out

- Calls to the language models and to the GitHub API are not performed. Their outcomes are inputs: scripted outcome sequences, the `Listing` tree, per-path `FileRun` values and the `project` outcome.
- Prompt texts are not modelled. The model records what each prompt is built from: the snippets, the remaining-file count and the batch digests.
- `chunk_content` (`textwrap.wrap`) is not modelled. A file arrives already split into chunk outcomes, and no concatenation round-trip is claimed.
- `GEMINI_SEMAPHORE`, `asyncio.gather`, `asyncio.to_thread` and `asyncio.run` are left out. Calls run sequentially in the order `gather` preserves, and the permit cap is not modelled.
- `asyncio.sleep` is left out. The waits are recorded, not slept, and the 0.1 s pause before the project summary is dropped.
- File contents and JSON encoding are left out. A staged file is either a record with an optional `sha` and `summary`, or unreadable. Partial writes, a JSON `null` summary and non-object JSON other than "unreadable" are not modelled.
- FastAPI routes, SSE framing (`data: …\n\n`), the startup hook, `home` and uvicorn are left out. Events are a datatype.
- Numbers inside status texts are fields of the event, not formatted strings.
- `datetime.now()` is left out. The report's file-name stamp and its "Generated on" text are parameters.
- Unicode is left out. `isalnum`, `\w`, `isspace` and `lower` are modelled on ASCII only.
- Retry.SummarizeChunk: requires at least `maxRetries` scripted outcomes. The source has no such limit, but later outcomes are never consulted.
- Report.SummarizeProject: requires one batch outcome per batch, for the same reason.
- Report.SummarizeProject: the outer `except` around the overview (utils/summarizer.py:270-272) is not modelled. In the model nothing inside it can raise: reads are caught inside the loop, and the batch call never raises.
- Pipeline.AnalyzeRepo: an exception raised by `summarize_project` is an input. The modelled `summarize_project` returns error strings instead of raising.
- Fetcher.FetchDir: malformed listing items are not modelled. These are items that are not JSON objects, file items without `name` or `path`, or a single-file answer without `path` (utils/github_fetcher.py:49), and the source would raise on them. Entries of any other type are `OtherItem` and are ignored.
- Fetcher.FetchDir: the fetched `sha` (`FileData.sha`) is kept as an optional string. `fetch_file` logging, the request headers and the token are not modelled.
- Staging.Storage.SummarizeFile: does not model the exception `os.makedirs` can raise before the write's `try` (utils/summarizer.py:185). The model's write either succeeds or returns None. The callers catch such an exception; the `Crashed` run of `main.py`'s side (Pipeline.FileRun) stands for it.
- Staging.Storage.SummarizeFile: takes the sha as a string, as the source annotates it. A file listed without a sha would meet a staged record without one as a cache hit in the source (`None == None`); the model cannot reach that case, because the sha it receives is always a string.
- Fetcher.FetchFiles: the comprehension that drops `None` content is an identity in the model. Only non-empty bodies are ever stored, which `Fetcher.FetchFilesSpec` states.
- `test_gemini.py` is a smoke script and is not part of this model.
