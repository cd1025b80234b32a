# DevInsight core, modelled in Dafny

DevInsight measures a git repository. It reports code churn per file: commits, authors, lines added and deleted. It reports code complexity per file, and it lists "hotspots", files that are both often changed and complex. The backend is a FastAPI application. The frontend is a React dashboard that fetches the three lists page by page and shows them as tables.

The model covers these parts:

- **Backend**
  - `file_utils.py`: which files count as analysable source code.
  - `git_analyzer.py`: per-file churn over the whole history, keyed by lower-case POSIX path.
  - `churn_metrics.py`: joining churn with complexity, risk classification, the risk sort, `top_n` and pagination.
  - The endpoints of `main.py`, including `/analyze`, which sets the analysed repository.
- **Frontend**
  - The filter and pagination bar.
  - The three tables: churn, complexity and hotspots.
  - The `Metrics` dashboard page: its state, loads and rendering.

Modules, one per file:

| file | module | source |
|---|---|---|
| base.dfy | `Base` | `Option` and `Result` |
| text.dfy | `Text` | Python's `str.lower`, `str.strip`, `str.split`; decimal text of numbers |
| pylist.dfy | `PyList` | Python list slices, list comprehensions, page slices |
| file_utils.dfy | `FileUtils` | backend/utils/file_utils.py |
| models.dfy | `Models` | the record shapes of the JSON replies |
| git_analyzer.dfy | `GitAnalyzer` | backend/services/git_analyzer.py |
| churn_metrics.dfy | `ChurnMetrics` | backend/services/churn_metrics.py |
| api.dfy | `Api` | backend/main.py |
| file_filter_bar.dfy | `FileFilterBar` | frontend/src/components/FileFilterBar.tsx |
| churn_table.dfy | `ChurnTable` | frontend/src/components/ChurnTable.tsx |
| complexity_table.dfy | `ComplexityTable` | frontend/src/components/ComplexityTable.tsx |
| hotspots_table.dfy | `HotspotsTable` | frontend/src/components/HotspotsTable.tsx |
| metrics.dfy | `Metrics` | frontend/src/pages/Metrics.tsx |
| boundary.dfy | `Boundary` | what the tables show for the replies the endpoints send |

**How each part is modelled**

- **Loops become methods.** `get_git_stats` and `get_hotspots` work by loops that fill dictionaries and lists. Each is a method with its loops, proved equal to a specification function. The properties the code promises are proved about that function.
- **`last_repo_path` is an object field.** It is the field of a `Backend` object, which `AnalyzeRepo` updates.
- **The dashboard is a class.** Its `useState` variables are the fields of a `Dashboard` class. Each asynchronous load is split at its `await`: `StartLoad` runs before the request goes out, and `Finish…` runs when the response comes back.
- **The components are pure functions.**
- **Inputs instead of I/O.** These become parameters:
  - the git history and the working tree (a `Checkout`);
  - `os.path.normpath`, `os.path.abspath` and `os.path.isdir`;
  - the result of the complexity walk;
  - the zip extraction;
  - `MAX_ANALYZABLE_FILES`;
  - the server's responses to the dashboard.

## Model

| member | source | states |
|---|---|---|
| Text.LowerChar | backend/services/git_analyzer.py:19 | an upper-case ASCII letter becomes the letter 32 code points later, its lower-case form; any other character is unchanged |
| Text.Lower | backend/services/git_analyzer.py:19-20 | `str.lower()` keeps the length and lowers each ASCII letter and nothing else |
| Text.LowerIsLower | backend/utils/file_utils.py:22 | a lowered text has no upper-case letter, and lowering twice is lowering once |
| Text.Strip | backend/main.py:71 | `strip()` gives a contiguous piece of the text; everything cut off before and after it is whitespace, and the piece neither starts nor ends with whitespace |
| Text.StripUntrimmed | backend/main.py:71 | `strip()` leaves a text without surrounding whitespace unchanged |
| Text.JoinSplit | backend/main.py:71 | `split(",")` loses nothing: joining the pieces with "," gives back the text |
| Text.SplitPiecesHaveNoSeparator | backend/main.py:71 | no piece of `split(",")` contains a comma |
| Text.SplitWithoutSeparator | backend/main.py:71 | a text without a comma is one piece |
| Text.SplitConcat | backend/main.py:71 | a comma between two texts splits each side on its own |
| Text.SplitLower | backend/main.py:71 | lowering then splitting gives the lowered pieces |
| Text.JoinLower | backend/services/git_analyzer.py:19 | joining lowered pieces is lowering the join |
| Text.NatToStringValue | backend/services/git_analyzer.py:38 | the decimal text of a count reads back as that count |
| Text.IntToStringValue | frontend/src/pages/Metrics.tsx:28-29 | `toString()` of an integer reads back as that integer |
| Text.PlusNatToStringValue | frontend/src/components/ChurnTable.tsx:60 | a `+` in front of a positive number's text still reads as the number |
| Text.IntToStringInjective | backend/services/git_analyzer.py:38 | different numbers have different texts |
| PyList.Slice | backend/services/git_analyzer.py:41-43 | a Python slice is never longer than the list |
| PyList.SliceElements | backend/services/git_analyzer.py:41-43 | a slice holds the elements from the clamped start, in order, with the length Python gives |
| PyList.SliceNonNegative | backend/services/churn_metrics.py:60-64 | with non-negative bounds, exactly the existing elements at start..stop-1 |
| PyList.SliceSubMultiset | backend/services/churn_metrics.py:60-64 | a slice only takes elements of the list |
| PyList.SliceAdjacent | backend/services/churn_metrics.py:60-64 | adjacent slices concatenate to the spanning slice |
| PyList.SliceNegativeStop | backend/services/churn_metrics.py:60 | `xs[:top_n]` with a negative `top_n` drops that many from the end |
| PyList.PageBounds | backend/services/git_analyzer.py:41-43 | `[(page-1)*limit : (page-1)*limit+limit]` holds at most `limit` elements, each from its place |
| PyList.PagePastEnd | backend/services/git_analyzer.py:41-43 | a page starting at or past the end is empty |
| PyList.FirstPagesCover | backend/services/churn_metrics.py:61-64 | pages 1..k read in turn are exactly the first k*limit elements |
| PyList.FilterMeans | backend/services/churn_metrics.py:19-20 | a list comprehension with a condition keeps every element that satisfies it as often as it occurs, and no other element |
| PyList.FilterConcat | backend/services/churn_metrics.py:19-20 | the comprehension keeps the order: filtering a concatenation is filtering each side in turn |
| FileUtils.LastIndexOf | backend/utils/file_utils.py:24 | the last position of a character, or -1 |
| FileUtils.SuffixShape | backend/utils/file_utils.py:24 | `Path.suffix` is empty, or a dot followed by at least one non-dot character |
| FileUtils.ComponentsConcat | backend/utils/file_utils.py:22 | path components of a concatenation are the concatenated components |
| FileUtils.PartsOfJoin | backend/services/git_analyzer.py:18 | the parts of `working_dir / file` are the parts of each side |
| FileUtils.SuffixOfJoin | backend/services/git_analyzer.py:18-20 | joining a directory in front keeps the file's suffix |
| FileUtils.PartsLower | backend/services/git_analyzer.py:19 | the parts of a lowered path are the lowered parts |
| FileUtils.AnyExcludedMeans | backend/utils/file_utils.py:22-23 | a path is rejected for its directories exactly when some part, lower-cased, is in EXCLUDED_DIRS |
| FileUtils.AnyExcludedConcat | backend/utils/file_utils.py:22 | the excluded-part test of joined parts is the disjunction of the two sides |
| FileUtils.Head | backend/utils/file_utils.py:28 | `read(1024)` gives the first 1024 bytes, or the whole content when it is shorter |
| FileUtils.ValidCodeFileMeans | backend/utils/file_utils.py:18-32 | valid exactly when it is a file, has no excluded part, has an allowed lower-case suffix, is readable and its first 1024 bytes are ASCII |
| FileUtils.HeadAscii | backend/utils/file_utils.py:28 | the ASCII test looks at exactly the first 1024 bytes |
| FileUtils.ExcludedDirectoryAbove | backend/utils/file_utils.py:22-23 | a file below an excluded directory is never valid, whatever its own name |
| GitAnalyzer.CaseVariantsShareKey | backend/services/git_analyzer.py:19 | paths that differ only in case are counted under one key |
| GitAnalyzer.LowerPathKey | backend/services/git_analyzer.py:19 | the key of a lowered path is the key of the path |
| GitAnalyzer.TallyOfMeaning | backend/services/git_analyzer.py:30-33 | a key has entries exactly when a counted change touched it; its commit set is the distinct hashes, its author set the distinct e-mails, its counters the summed insertions and deletions |
| GitAnalyzer.TallyOrderDistinct | backend/services/git_analyzer.py:35 | `list(file_commits.keys())` lists each key once |
| GitAnalyzer.TallyOrderGrows | backend/services/git_analyzer.py:35 | keys are listed in first-seen order; later changes only append |
| GitAnalyzer.TallyOrderCounts | backend/services/git_analyzer.py:35-37 | the key list has one entry per distinct counted path |
| GitAnalyzer.RowsAt | backend/services/git_analyzer.py:45-54 | one result dictionary per paginated key, in order |
| GitAnalyzer.TallyCommit | backend/services/git_analyzer.py:17-33 | the inner loop records exactly the counted changes of one commit |
| GitAnalyzer.TallyHistory | backend/services/git_analyzer.py:14-33 | the outer loop records the counted changes of every commit, in history order |
| GitAnalyzer.GetGitStats | backend/services/git_analyzer.py:7-56 | the method computes the specification function: ValueError past the maximum, else the page of rows |
| GitAnalyzer.GitStatsRows | backend/services/git_analyzer.py:30-54 | at most `limit` rows with distinct files; `commits` = distinct hashes, `authors` = distinct e-mails, `additions`/`deletions` = sums, `net_changes` = their difference |
| GitAnalyzer.PageOfDistinct | backend/services/git_analyzer.py:41-43 | a page of a repetition-free list is repetition-free and drawn from it |
| GitAnalyzer.RowsMeaning | backend/services/git_analyzer.py:45-54 | each row describes its key's tally entry |
| GitAnalyzer.GitStatsTooMany | backend/services/git_analyzer.py:37-38 | ValueError with the "Too many files" message exactly when distinct files exceed the maximum, for every page and limit |
| GitAnalyzer.NothingCountedNoTouches | backend/services/git_analyzer.py:23-28 | when every file is skipped, nothing is recorded |
| GitAnalyzer.ExcludedWorkingDirectory | backend/services/git_analyzer.py:18-28 | a repository under an excluded directory yields an empty list |
| ChurnMetrics.ForwardSlashes | backend/services/churn_metrics.py:15 | `replace("\\", "/")` changes only backslashes, to slashes |
| ChurnMetrics.NormalizeShape | backend/services/churn_metrics.py:14-15 | a normalised path has no backslash and no upper-case letter |
| ChurnMetrics.ExtensionFilter | backend/services/churn_metrics.py:18-20 | an empty set filters nothing; a non-empty one keeps exactly the entries whose lower-case suffix it holds |
| ChurnMetrics.ComplexityMapLastWins | backend/services/churn_metrics.py:23-26 | a path has an entry exactly when some item normalises to it, holding the last such item's complexity |
| ChurnMetrics.ClassifyMeans | backend/services/churn_metrics.py:39-48 | High/red iff commits ≥ 10 or complexity ≥ 15; Medium/orange iff not High and commits ≥ 5 or complexity ≥ 8; Low/green otherwise |
| ChurnMetrics.ClassifyMonotone | backend/services/churn_metrics.py:39-48 | more commits or complexity never lowers the class |
| ChurnMetrics.MatchesMeans | backend/services/churn_metrics.py:29-56 | every joined hotspot comes from a churn item that passes the three conditions |
| ChurnMetrics.MatchesComplete | backend/services/churn_metrics.py:29-56 | every churn item that passes the three conditions is joined |
| ChurnMetrics.InsertPermutes | backend/services/churn_metrics.py:59 | one insertion step of the sort only adds the element |
| ChurnMetrics.InsertSorted | backend/services/churn_metrics.py:59 | one insertion step keeps the order |
| ChurnMetrics.SortByRiskSorted | backend/services/churn_metrics.py:59 | the sort orders by non-increasing commits*complexity and is a permutation |
| ChurnMetrics.InsertWithScore | backend/services/churn_metrics.py:59 | an insertion step keeps the order of equal-score elements |
| ChurnMetrics.SortByRiskStable | backend/services/churn_metrics.py:59 | the sort is stable: equal scores keep their input order |
| ChurnMetrics.SortByRiskOfSorted | backend/main.py:175 | sorting an already ordered list changes nothing |
| ChurnMetrics.SliceSorted | backend/services/churn_metrics.py:60-64 | a slice of an ordered list is ordered |
| ChurnMetrics.GetHotspots | backend/services/churn_metrics.py:4-64 | the method computes the specification function |
| ChurnMetrics.HotspotsJoined | backend/services/churn_metrics.py:29-56 | every output item keeps its churn file string and commits, takes the looked-up complexity, passes both thresholds and carries Classify's label and colour |
| ChurnMetrics.HotspotsOrderedAndBounded | backend/services/churn_metrics.py:59-64 | the output is ordered by risk, holds at most `limit`, and at most `top_n` when that is not negative |
| ChurnMetrics.NoLowAtDefaultThreshold | backend/services/churn_metrics.py:34-47 | with a churn threshold of 5 or more no hotspot is Low |
| ChurnMetrics.HotspotPagesCover | backend/services/churn_metrics.py:60-64 | reading pages 1..k gives the first k*limit of the sorted top list |
| Api.ParseExtensionsMeans | backend/main.py:69-71 | an absent or empty `ext` gives no filter; a non-empty one gives a non-empty filter; a single token gives exactly one entry, "." followed by the stripped, lower-cased token |
| Api.ParseExtensionsConcat | backend/main.py:71 | the filter of two non-empty token lists joined by a comma is the union of their filters |
| Api.ParseExtensionsVariants | backend/main.py:71 | tokens that differ only in letter case or surrounding whitespace give one entry |
| Api.ParsedExtensionsAreLower | backend/main.py:71 | every parsed extension is a dot and lower-case text |
| Api.RespondMeans | backend/main.py:75-90 | an empty list is 204; rows are returned as they are; ValueError is 413 and any other exception 500, each with its message |
| Api.ChurnEndpoint | backend/main.py:54-90 | out-of-range paging is 422; no repository is 400 "No repo analyzed yet."; at most `limit` rows; 413 exactly when there are too many files |
| Api.ComplexityEndpoint | backend/main.py:93-135 | 422, then 400 with no repository; the rows are the requested page of the complexity walk |
| Api.CandidatesBounded | backend/main.py:162-168 | `get_hotspots` is called with its default page 1 and limit 10, so there are at most 10 candidates, already in order |
| Api.HotspotsReplyOfSorted | backend/main.py:171-189 | the reply is the page of the first `top_n` candidates, each of them a candidate, ordered by risk, with 1..limit entries |
| Api.LaterHotspotPagesEmpty | backend/main.py:162-187 | with at most 10 candidates, any page after the first with limit ≥ 10 is 204 |
| Api.HotspotsEndpoint | backend/main.py:137-189 | 422, then 400 with no repository; 500 exactly when churn or complexity raises; churn and complexity are each at most 100 files; the rows are the requested page of the first `top_n` candidates `get_hotspots` joined from them, each row one of those candidates, at most `limit` and at most 10, ordered |
| Api.AnalyzeMeans | backend/main.py:25-52 | a truthy path beats an upload; an invalid directory is 400 and leaves the repository unchanged; a valid one becomes the repository; neither input is 400 "No repo path or file provided." |
| Api.Backend.constructor | backend/main.py:19 | no repository has been analysed at start |
| Api.Backend.AnalyzeRepo | backend/main.py:25-52 | the handler's reply (success text, 400 with its message, or 500 from the zip extraction) and new `last_repo_path` are those of `Analyze` |
| FileFilterBar.PreviousPage | frontend/src/components/FileFilterBar.tsx:59 | `Math.max(1, page-1)`: never below 1, one less from page 2 on |
| FileFilterBar.NextPage | frontend/src/components/FileFilterBar.tsx:69 | Next asks for a later page |
| FileFilterBar.PreviousDisabledMeans | frontend/src/components/FileFilterBar.tsx:58-64 | Previous does nothing exactly when page ≤ 1, and otherwise asks for page-1 |
| FileFilterBar.NextAlwaysEnabled | frontend/src/components/FileFilterBar.tsx:68-73 | Next is never disabled and asks for page+1 |
| FileFilterBar.FilterVerbatim | frontend/src/components/FileFilterBar.tsx:32 | the filter text is passed on unchanged |
| FileFilterBar.LimitIsAnOption | frontend/src/components/FileFilterBar.tsx:43-53 | `Number(value)` of the chosen option is that option, one of 10, 25, 50, 100 |
| FileFilterBar.ClicksKeepPageValid | frontend/src/components/FileFilterBar.tsx:58-73 | from page ≥ 1, any sequence of Previous/Next keeps the page ≥ 1 |
| ChurnTable.Rows | frontend/src/components/ChurnTable.tsx:38 | one row per record, in input order |
| ChurnTable.NetToneMeans | frontend/src/components/ChurnTable.tsx:57-58 | green exactly for a positive net; zero and negative are red |
| ChurnTable.NetTextMeans | frontend/src/components/ChurnTable.tsx:60 | the net text starts with `+` exactly when additions exceed deletions and reads back as additions - deletions |
| ChurnTable.CountCells | frontend/src/components/ChurnTable.tsx:51-54 | additions show as `+a` and deletions as `-d` |
| ComplexityTable.LabelBands | frontend/src/components/ComplexityTable.tsx:21-25 | High iff c ≥ 15, Medium iff 8 ≤ c < 15, Low iff c < 8 |
| ComplexityTable.ColorAgreesWithLabel | frontend/src/components/ComplexityTable.tsx:15-25 | red with High, yellow with Medium, green with Low |
| ComplexityTable.BandsMonotone | frontend/src/components/ComplexityTable.tsx:15-25 | a larger complexity never gets a lower band |
| ComplexityTable.NumberCellMeans | frontend/src/components/ComplexityTable.tsx:63-66 | the lines and functions cells are N/A exactly when the value is not a number, else the number |
| ComplexityTable.RatioCellMeans | frontend/src/components/ComplexityTable.tsx:69-71 | the ratio is N/A exactly when lines is not a number or is 0; otherwise p with p*lines = complexity*100 |
| ComplexityTable.Rows | frontend/src/components/ComplexityTable.tsx:50 | one row per record, in input order |
| HotspotsTable.RiskColorMeans | frontend/src/components/HotspotsTable.tsx:16-27 | red, yellow and green exactly for the three exact labels; gray exactly for any other |
| HotspotsTable.Rows | frontend/src/components/HotspotsTable.tsx:29-80 | one row per hotspot in order; the label is `risk_level` verbatim; the score is commits*complexity |
| Metrics.QueryMeans | frontend/src/pages/Metrics.tsx:27-73 | page and limit first, `ext` exactly when the filter is non-empty and verbatim, and only hotspots adds its three parameters |
| Metrics.SettleMeans | frontend/src/pages/Metrics.tsx:33-50 | 204 gives [] with no error; a non-ok response is an error carrying `detail`, or 'Failed to fetch data' when `detail` is falsy; every failure gives []; data comes only from an ok JSON array |
| Metrics.StartedMeans | frontend/src/pages/Metrics.tsx:24-68 | a load clears its own flag and sets `loading` and clears `error`; other kinds and data are untouched |
| Metrics.FinishedChurnMeans | frontend/src/pages/Metrics.tsx:43-57 | a completion stores `fetchData`'s result, sets the flag, clears `loading`, and sets `error` only on failure; other kinds are untouched |
| Metrics.ApplyKeepsValid | frontend/src/pages/Metrics.tsx:154-168 | events keep the page ≥ 1 and the limit one of the options |
| Metrics.LimitChangeKeepsPage | frontend/src/pages/Metrics.tsx:157-160 | choosing a page size changes only the limit; the page stays |
| Metrics.RenderPrecedence | frontend/src/pages/Metrics.tsx:90-144 | spinner iff loading; else the error iff non-empty; else nothing until the active kind loads; else "no data" for an empty list; else that kind's table |
| Metrics.InitialState | frontend/src/pages/Metrics.tsx:9-21 | the first render is the spinner, nothing is loaded, and the state is valid |
| Metrics.LastCompletionWins | frontend/src/pages/Metrics.tsx:53-58 | with two overlapping loads of one kind, the one finishing last decides the data |
| Metrics.SharedLoadingFlag | frontend/src/pages/Metrics.tsx:13-48 | one shared `loading` flag: another kind's completion hides the spinner while the active load is pending |
| Metrics.Dashboard.constructor | frontend/src/pages/Metrics.tsx:9-21 | the initial state |
| Metrics.Dashboard.StartLoad | frontend/src/pages/Metrics.tsx:23-73 | the new state is `Started`, and the request is the endpoint with the query above |
| Metrics.Dashboard.CompleteFetch | frontend/src/pages/Metrics.tsx:34-50 | returns `Settle`'s data and applies its `loading`/`error` updates |
| Metrics.Dashboard.FinishChurn | frontend/src/pages/Metrics.tsx:55-57 | the new state is `FinishedChurn` of the settled response |
| Metrics.Dashboard.FinishComplexity | frontend/src/pages/Metrics.tsx:62-64 | the new state is `FinishedComplexity` of the settled response |
| Metrics.Dashboard.FinishHotspots | frontend/src/pages/Metrics.tsx:69-75 | the new state is `FinishedHotspots` of the settled response |
| Metrics.Dashboard.Mount | frontend/src/pages/Metrics.tsx:78-82 | the first effect run loads the active tab's kind |
| Metrics.Dashboard.Set | frontend/src/pages/Metrics.tsx:154-168 | the event's setter changes exactly its own variable |
| Metrics.Dashboard.Handle | frontend/src/pages/Metrics.tsx:78-82 | a change of tab, page, limit or filter reloads only the active kind; an event that changes none of them loads nothing |
| Boundary.ServerLabelsHaveBadges | backend/services/churn_metrics.py:39-48 | every backend label gets a non-gray badge matching the server colour (orange shows as yellow) |
| Boundary.HotspotsClassified | backend/services/churn_metrics.py:39-55 | every hotspot carries the classifier's label for its own numbers |
| Boundary.ClassifiedShownWell | frontend/src/components/HotspotsTable.tsx:16-31 | ordered, classified hotspots show non-increasing scores and no gray badge |
| Boundary.ReplyShownWell | backend/main.py:175-183 | a reply page of ordered, classified candidates shows well |
| Boundary.HotspotsTableOfReply | backend/main.py:137-189 | the hotspots table of any `/hotspots` reply has non-increasing scores and no gray badge |
| Boundary.ChurnTableOfReply | frontend/src/components/ChurnTable.tsx:57-60 | for any `/churn-metrics` reply, each shown net reads back as the server's `net_changes`, with `+` exactly when positive |

## Left out

- backend/services/complexity_analyzer.py is not part of this model. It wraps `lizard`, a foreign library. The complexity walk of a path for an extension set is an input (`analyse`), and `Api.GetComplexity` models only its pagination slice. Inside that walk, the `ValueError` for too many files is raised inside its own `try` and swallowed by the `except Exception` next to it. So the 413 branch of `/complexity-metrics` is reached only if the walk itself raises one.
- config/constants.py is not part of this model. `MAX_ANALYZABLE_FILES` is a parameter (`maxFiles`).
- Git access (`Repo`, `iter_commits`, `commit.stats.files`), the working tree, `Path.is_file()` and reading a file's first bytes are inputs, given as a `Checkout` value. A path that is not a git repository gives an `OtherError` (500).
- `os.path.normpath`, `os.path.abspath` and `os.path.isdir` are function parameters, with no properties assumed.
- `/analyze`: writing the upload to a temporary directory and unzipping it are one input (`ZipOutcome`). A bad archive raises and gives 500. The temporary directory is deleted when the handler returns, so the `last_repo_path` stored on the zip branch names a directory that no longer exists. The model stores the path as the code does, and does not model the deletion.
- `Text.Lower` and `Text.Strip` cover ASCII letters and ASCII whitespace only. Python's Unicode case mapping and Unicode whitespace are not modelled.
- Complexity, the hotspot threshold and the risk score are `real`. The code only compares, multiplies and divides them, so floating-point rounding is not modelled.
- FastAPI's request validation is one `Unprocessable` (422) reply. Its error body is not modelled. Only the `ge`/`le` bounds on `page` and `limit` are checked.
- The JSON encoding of replies, pydantic's `response_model` conversion and the `"/"` root endpoint are left out.
- ComplexityTable: `toLocaleString()` and `toFixed(2)` formatting are not modelled. A shown cell carries the number itself.
- The CSS class strings of the tables, badges and buttons are modelled as the colour they select.
- Metrics: React's rendering and effect scheduling, the browser `fetch`, and the timing of responses are not modelled. The order of `StartLoad` and `Finish…` calls is the caller's choice. An ok response whose JSON is an object instead of an array is shown as an empty list would be, and settles as `[]`.
- Metrics: the tab bar markup, the tab icons and the page headings are not modelled.
- Metrics.Dashboard.Handle: React skips a re-render and the effect when a setter stores an equal value. The model reproduces this by reloading only when a dependency changes. It does not model the batching of several setters into one render.
- frontend/src/pages/Analyze.tsx, Home.tsx, App.tsx and Sidebar.tsx are not part of this model. They hold form I/O, navigation and static markup.
- Two behaviours a reader might expect are absent from the code, and so from the model:
  - no response is ever discarded as stale (no generation counter);
  - changing the page size does not reset the page to 1.
