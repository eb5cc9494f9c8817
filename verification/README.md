# MRConfluenceLinker core, in Dafny

This project models the core of MRConfluenceLinker. The tool fetches GitLab
merge requests, computes coarse change statistics for one of them, and
publishes the result as a Confluence page. It has three parts:

- **`GitLabPR`** (`gitlab_pr.dfy`) is the project-access facade
  `GitLabPRManager.get_merge_requests`. It looks the project up directly.
  After a `GitlabGetError` only, it retries once with every `/` replaced by
  `%2F`. It then lists the merge requests in one state and maps each one to a
  normalised record. Authentication errors, get errors and anything else are
  each rewrapped into a differently worded exception. The file
  `src/MRConfluenceLinker-mcp-server/resources/client.py` is a byte-for-byte
  copy of `gitlab_pr.py`, so this one module models both.
- **`ChangeStats`** (`change_stats.dfy`) is the aggregation loop of
  `analyze_code_changes`. That loop:
  - classifies each path by the text after its last `.`, or as `unknown`;
  - counts the files of each type;
  - counts `+` and `-` characters in every diff;
  - appends one entry per file.

  The counts are of characters anywhere in the diff text, not of added or
  removed lines. The model follows the code here.
- **`PRAnalyzer`** (`pr_analyzer.dfy`) covers the three tools,
  `fetch_mr_details`, `analyze_code_changes` and `store_in_confluence`, and
  the Confluence markup they render:
  - the summary page built by repeated `+=`;
  - the basic-information block;
  - the `|path|type|additions|deletions|` table joined by newlines;
  - the page titles `MR Summary - …` and `MR Analysis - …`.

`Text` (`text.dfy`) models the Python built-ins these rely on: `str.count`,
`str.split` and `str.join` with one-character arguments, `str(n)`, and string
concatenation. `Wrappers` holds `Option` and `Result`.

The GitLab and Confluence clients are oracles, not code. Each remote call is a
function-valued field of a datatype (`GitLabApi`, `Confluence`) that either
returns a value or raises an error. A raised exception becomes a `Failure`
value. `store_in_confluence` also returns the list of `create_page` calls it
made, so the model can state that no page is created on an error path.

Python truthiness is modelled explicitly. `fetch_mr_details` tests `if mr_id:`,
so `mr_id == 0` takes the list-all branch. `analyze_code_changes` and
`store_in_confluence` then treat that list as one merge request's record and
fail. The model represents this as `NotARecord`.

The file-type rule is one-directional. A path without a `.` is always
`unknown`, but `unknown` does not imply the path has no `.`: `notes.unknown`
is also classified `unknown`. A dot in a directory name makes the type run
across the `/`: for `lib.d/Makefile` the type is `d/Makefile`.

When `get_merge_requests` rewraps a get error, the message names the project
identifier but not the requested state. The model follows the code on this.

## Model

| member | source | states |
|---|---|---|
| Text.CountChar | pr_analyzer.py:132-133 | `diff.count(c)` is the multiplicity of `c` in the multiset of the diff's characters |
| Text.CountCharConcat | pr_analyzer.py:132-133 | counting over two texts one after the other adds the two counts |
| Text.Split | pr_analyzer.py:129 | `split(sep)` yields one more piece than there are separators, and no piece contains the separator |
| Text.JoinSplit | pr_analyzer.py:129 | joining the pieces of a split with the same separator restores the text |
| Text.Join | pr_analyzer.py:237 | `sep.join(parts)`, as in `chr(10).join`; its properties are stated by `JoinSplit`, `SplitJoin` and `TableLines` |
| Text.SplitJoin | pr_analyzer.py:237 | splitting a join of one or more separator-free pieces returns exactly those pieces in order |
| Text.LastPiece | pr_analyzer.py:129 | when the text holds the separator, the last piece `[-1]` is separator-free, shorter than the text, and is preceded by the last separator at the text's end |
| Text.Concat | pr_analyzer.py:163-173 | the pieces one after another, as the `content +=` loop accumulates them; stated by `ConcatPlacement` and `RenderSummary` |
| Text.ConcatPlacement | pr_analyzer.py:163-173 | in a concatenation, the i-th piece occurs right after the pieces before it |
| Text.NatToString | pr_analyzer.py:237 | `str(n)` is a non-empty string of decimal digits with no leading zero except for 0 itself (with `ParseNatToString`, the one such rendering of `n`) |
| Text.ParseNatToString | pr_analyzer.py:237 | reading the decimal digits of `str(n)` back gives `n` |
| GitLabPR.EncodeSlashes | gitlab_pr.py:54 | `replace('/', '%2F')` leaves no `/`, grows the text by two per slash, and leaves slash-free identifiers unchanged |
| GitLabPR.DecodeEncodeSlashes | gitlab_pr.py:54 | for an identifier without `%`, the replacement is invertible: reading every `%2F` back as `/` recovers the identifier |
| GitLabPR.EncodeConcat | gitlab_pr.py:54 | the replacement distributes over concatenation |
| GitLabPR.EncodingIsNotInjective | gitlab_pr.py:54 | `a/b` and `a%2Fb` are looked up under the same fallback identifier, so the fallback is ambiguous when `%` is present |
| GitLabPR.ResolveProject | gitlab_pr.py:49-54 | the first lookup uses the identifier as given; a second lookup happens exactly when the first raised a get error, uses the encoded identifier, and happens at most once; the project is what the last lookup returned |
| GitLabPR.RetryOfSlashFreeIdentifier | src/MRConfluenceLinker-mcp-server/resources/client.py:49-54 | for an identifier without `/` the fallback repeats the same lookup and cannot change its outcome |
| GitLabPR.RewrapError | gitlab_pr.py:83-91 | an authentication error becomes the fixed token message; a get error becomes a message naming the project identifier at a fixed offset and containing the original message; anything else becomes the unexpected-error message with the original text |
| GitLabPR.ToRecord | gitlab_pr.py:63-77 | the record keeps the merge request's `iid` as its id and copies title, description, state, timestamps, author name and username, branches and URL (`Normalises`); the same mapping builds the single record at pr_analyzer.py:86-99 |
| GitLabPR.GetMergeRequests | gitlab_pr.py:35-81 | the result is the specification `MergeRequestsOf`: on success there is one record per listed merge request, in order, each keeping `iid` as its id and copying title, description, state, timestamps, author name and username, branches and URL |
| GitLabPR.MergeRequestsErrors | src/MRConfluenceLinker-mcp-server/resources/client.py:83-91 | a failed project resolution yields no records at all, only the rewrapped error; a get error names the project, an authentication error gives the token message |
| GitLabPR.RecordIdsDistinct | gitlab_pr.py:61-78 | records keep the listing's order, so distinct `iid`s in the listing give distinct record ids |
| ChangeStats.FileType | pr_analyzer.py:129 | a path without `.` is `unknown`; otherwise the type is the dot-free text after the last `.` of the path |
| ChangeStats.FileTypeOfSuffix | pr_analyzer.py:129 | `stem.ext` with a dot-free `ext` has type `ext`, whatever the stem holds |
| ChangeStats.FileTypeUnknownSuffix | pr_analyzer.py:129 | a path ending in `.unknown` is also classified `unknown`, so `unknown` does not mean "no dot" |
| ChangeStats.EntryOf | pr_analyzer.py:135-140 | a file entry has the change's path, the path's type, and the numbers of `+` and `-` characters in the change's diff |
| ChangeStats.Insert | pr_analyzer.py:131 | `h[k] = h.get(k, 0) + 1` adds `k` to the keys, sets its count to one more than before (one when it was absent) and leaves every other count as it was |
| ChangeStats.AnalysisStep | pr_analyzer.py:127-140 | one more change adds one to its type's count, adds its own `+` and `-` counts to the totals, and appends its entry |
| ChangeStats.Analyze | pr_analyzer.py:119-143 | the aggregation loop returns `AnalysisOf(changes)`: the number of changes, the histogram of their types, the character counts over all diffs, and one entry per change |
| ChangeStats.AnalysisFiles | pr_analyzer.py:135-140 | there is one entry per change, in order, with the change's path, its type and the `+`/`-` counts of its own diff; `total_files_changed` equals the number of entries |
| ChangeStats.AnalysisTotals | pr_analyzer.py:132-139 | `total_additions` and `total_deletions` equal the sums of the per-file counts |
| ChangeStats.MapSumInsert | pr_analyzer.py:131 | `h[k] = h.get(k, 0) + 1` raises the sum of the histogram's values by exactly one |
| ChangeStats.HistogramCounts | pr_analyzer.py:131 | the histogram has a key exactly for each type that occurs, mapped to its number of occurrences |
| ChangeStats.HistogramTotal | pr_analyzer.py:131 | the histogram's values add up to the number of insertions |
| ChangeStats.AnalysisFileTypes | pr_analyzer.py:120-131 | the type counts add up to `total_files_changed`, their keys are exactly the types that occur, and each count is that type's number of changes |
| ChangeStats.NoChangesNoStatistics | pr_analyzer.py:119-125 | no changes give the all-zero report with no types and no files |
| ChangeStats.SingleChange | pr_analyzer.py:127-140 | a single change gives one file of its type, its own counts, and its entry |
| ChangeStats.MarkedDiffCounts | pr_analyzer.py:132-133 | a diff with two `+`-marked lines and one `-`-marked line, whose texts hold neither sign, counts 2 additions and 1 deletion |
| ChangeStats.DiffCountsExample | pr_analyzer.py:132-133 | `"+line1\n+line2\n-oldline\n"` counts 2 additions and 1 deletion |
| ChangeStats.SingleFileScenario | pr_analyzer.py:119-143 | one change to `stem.ext` with such a diff reports 1 file, `{ext: 1}`, 2 additions, 1 deletion and the single entry (the `src/app.py` scenario) |
| PRAnalyzer.OpenedChanges | pr_analyzer.py:100 | for an opened merge request the changes are exactly what the diff endpoint returns (its error included); for any other state they are empty without a call |
| PRAnalyzer.FetchAll | pr_analyzer.py:103-105 | the list-all branch is `get_merge_requests` with the default state `opened`: it succeeds exactly when that does, with the same records, and otherwise raises that call's rewrapped message |
| PRAnalyzer.FetchMRDetails | pr_analyzer.py:77-109 | with a present, non-zero id: when the direct project lookup, the fetch by id and (for an opened merge request) the diff call all succeed, the result is the normalised record of that merge request with those changes, none for any other state; otherwise the call fails with the error of the first failing call, re-raised unchanged (no `%2F` fallback); conversely a single record is returned only for a present, non-zero id and is built from those calls. With an absent or zero id it lists all opened merge requests, failing as the facade fails |
| PRAnalyzer.ClosedMRIgnoresDiff | pr_analyzer.py:100 | for a merge request that is not opened, the changes are empty and the diff endpoint is never consulted: any other diff oracle gives the same result |
| PRAnalyzer.AnalyzeCodeChanges | pr_analyzer.py:112-147 | fetch errors propagate unchanged; a zero id, which fetches the listing, fails; otherwise the result is the aggregation of the fetched changes |
| PRAnalyzer.ClosedMRAnalysisIsEmpty | pr_analyzer.py:100 | the analysis of a merge request that is not opened is the all-zero report |
| PRAnalyzer.SummaryBlock | pr_analyzer.py:164-173 | the block of one merge request on the summary page; its placement is stated by `RenderSummary` and `SummaryBlockPlacement` |
| PRAnalyzer.RenderSummary | pr_analyzer.py:162-173 | the `+=` loop produces the summary heading followed by the block of each merge request, in order |
| PRAnalyzer.SummaryBlockPlacement | pr_analyzer.py:163-173 | each merge request's block appears on the summary page right after the heading and the blocks before it |
| PRAnalyzer.BasicInfo | pr_analyzer.py:196-203 | the basic-information section, shared with pr_analyzer.py:216-223; where it sits on both pages is stated by `BasicInfoPlacement` |
| PRAnalyzer.DetailsBody | pr_analyzer.py:193-209 | the page body without an analysis; its layout is stated by `BasicInfoPlacement` |
| PRAnalyzer.AnalysisBody | pr_analyzer.py:213-238 | the page body of a full report; its layout is stated by `BasicInfoPlacement` and `AnalysisBodyEndsWithTable` |
| PRAnalyzer.CodeAnalysisSection | pr_analyzer.py:225-233 | the totals and file-types sections of a full report, placed between the basic information and the table by `AnalysisBody` |
| PRAnalyzer.ReportFront | pr_analyzer.py:213-233 | the heading, basic information, totals and file-types sections of a full report, in source order; where the basic information sits is stated by `BasicInfoPlacement` |
| PRAnalyzer.TableSection | pr_analyzer.py:235-238 | the detailed-changes heading, the table header and the table, closed by a newline; its position is stated by `AnalysisBodyEndsWithTable` |
| PRAnalyzer.BasicInfoPlacement | pr_analyzer.py:193-223 | both single-MR pages carry the merge request's basic information right after their own heading |
| PRAnalyzer.AnalysisBodyEndsWithTable | pr_analyzer.py:235-238 | the full report ends with the table of its file entries followed by a newline |
| PRAnalyzer.Row | pr_analyzer.py:237 | one table row; its cells and their round trip are stated by `RowIsJoinOfCells` and `RowRoundTrip` |
| PRAnalyzer.Table | pr_analyzer.py:237 | the newline-joined rows; one line per entry is stated by `TableLines`, the empty case by `EmptyTable` |
| PRAnalyzer.RowIsJoinOfCells | pr_analyzer.py:237 | a table row is its cells joined by `|`, with empty cells at both ends |
| PRAnalyzer.RowRoundTrip | pr_analyzer.py:237 | when path and type hold no `|`, a row splits back into the path, the type and the two counts, and the counts read back exactly |
| PRAnalyzer.RowWithout | pr_analyzer.py:237 | a character other than `|` or a digit appears in a row only if it appears in the path or the type |
| PRAnalyzer.TableLines | pr_analyzer.py:237 | when no path or type holds a newline, the table has exactly one line per file entry, in order, each being that entry's row |
| PRAnalyzer.EmptyTable | pr_analyzer.py:237 | with no file entries the table is empty |
| PRAnalyzer.SummaryTitle | pr_analyzer.py:175 | `MR Summary - {project_id}`; that the list-all page gets it is stated by `PlannedPage` |
| PRAnalyzer.AnalysisTitle | pr_analyzer.py:241 | `MR Analysis - {title}`; that a single-MR page gets it with its fetched title is stated by `PlannedPage` |
| PRAnalyzer.PlannedPage | pr_analyzer.py:158-241 | with no id the page is titled `MR Summary - {project_id}` and its body is the summary heading followed by the block of every opened merge request; with an id the page is titled `MR Analysis - {title}` of the fetched record, and its body is `DetailsBody` of that record without an analysis and `AnalysisBody` with one; a zero id never yields a page; conversely a page is planned whenever the fetch succeeds (for an absent or non-zero id), and a failing fetch's error is raised unchanged |
| PRAnalyzer.StoreInConfluence | pr_analyzer.py:150-252 | without a Confluence client the call raises and creates nothing; any fetch failure creates nothing; otherwise exactly one page is requested, in the configured space, with the planned title and body and the parent id of "PR Analysis Reports"; the URL is `base + webui` of the created page |

## Left out

- MCP server plumbing is not modelled: tool registration, the stdio transport, `run` and the `__main__` block.
- Environment and `.env` loading, logging and tracebacks are not modelled; they do not affect results.
- `async`/`await` is not modelled; every tool runs to completion as one sequential call.
- `GitLabPRManager.__init__` is not modelled: the constructor's `auth()` check raises before any tool runs.
- `PRAnalyzer.__init__` is not modelled: the choice of whether a Confluence client exists is the `confluence` option of `Analyzer`.
- python-gitlab and atlassian-python-api internals are not modelled; they are the oracles `GitLabApi` and `Confluence`.
- Pagination of `mergerequests.list` is not modelled: the oracle `mergeRequestsList` is unconstrained, so the records are whatever `list(state=state)` returns, a single page included.
- The server is not guaranteed to honour the `state` filter, so listed records are not proved to carry the requested state.
- A `KeyError` on a missing `name` or `username` in the author dictionary is not modelled: `User` always has both.
- Failures of `get_page_id` are not modelled: it returns a parent id or none.
- PRAnalyzer.DetailsBody: the Python `repr` of the `changes` list between the `{code}` markers is not rendered, because it is the interpreter's formatting of a list of dictionaries.
- PRAnalyzer.AnalysisBody: the `repr` of the `file_types` dictionary is not rendered, for the same reason.
- The leading indentation that the triple-quoted f-strings carry into the markup is not modelled: PRAnalyzer.SummaryBlock, PRAnalyzer.BasicInfo, PRAnalyzer.DetailsBody and PRAnalyzer.AnalysisBody keep every line, the opening newline and the blank lines included, in order, but without the spaces that start each line.
- The report's `file_types` is a `map`, so the first-occurrence key order of the Python dictionary, which the returned report shows, is not modelled; the counts per type are.
- The `.get(..., default)` fallbacks on a caller-supplied `analysis` dictionary are not modelled: the analysis is a complete `Analysis` value, so a missing key cannot arise.
- The "Unexpected response format" branch (pr_analyzer.py:187-188) is not modelled as a branch, because it cannot be reached: with no id the fetch always yields the list (`FetchMRDetails` proves this), and `StoreInConfluence` goes straight to `FetchAll`.
- `DecodeSlashes` is not the server's full URL decoding: it reads only `%2F`, which is all the fallback introduces.
