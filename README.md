# China Trial Spider — a Dafny model

This project models the deterministic core of China-Trial-Spider, a crawler
for court-trial videos published on the national trial-broadcast portal.
For a province, the crawler works in these steps:

1. It checks that the session cookie still shows a logged-in user.
2. It lists the province's courts. `parse_province_court` skips type-2
   entries, expands sub-courts and falls back to the parent court. Each
   record's level is `type - 1`.
3. For every court it fetches listing pages 1 to 100 and maps each result
   to a case record.
4. Each page's batch of cases goes through a SQLite dedup table keyed by
   `caseId`.
5. For every new case it resolves the play URL and the HLS manifest. It
   turns the manifest's segment lines into numbered tasks and downloads the
   segments concurrently.
6. It sorts the finished `(count, payload)` pairs by count and writes the
   payloads into `<sanitised title>.mp4`.

The `crawl/specify_trial.py` variant reads task URLs from a workbook column
instead and writes `云南话_<task>.mp4`. The province utility pairs area
names with post codes and writes them as `name: code` lines.

Each component has its own module. Text, Seqs and Wrappers are shared helpers.

- **Text**: Python's substring test `in`, `split` and `join`, and the last
  piece of a split.
- **Urls**: the two `http:` prefixing rules.
- **Manifest**: `parse_ts_file`.
- **Segments**: `download_ts_file`.
- **Reassembly**: the sort and the write loop of `save_video`.
- **FileNames**: output names.
- **Courts**: `parse_province_court`.
- **Listing**: `parse_case_id`.
- **Store**: both `SqliteDB` classes. Both schedulers pass a whole page of
  cases to `sqlite_dedup` (`China_Trial/crawl/trial.py:308`,
  `crawl/trial.py:185`). Only the batch form in `database/sqlite.py:65-90`
  accepts a list. The single-case form in `China_Trial/db/sqlite.py:65-75`
  would raise `TypeError` on `case["caseId"]` for a list. So both crawlers
  are modelled with the batch `SqliteDedup`, and the single-case form is
  `IsDuplicate`.
- **Provinces**: `utils/obtain_provincial_information.py`.
- **Spider**: `SpecifyTrialSpider` and its task ids.
- **Crawler**: the cookie gate, `_scheduler` and the per-case download.

Code that updates state step by step is modelled as methods with loops:

- the manifest loop;
- the chunk loop;
- the write loop;
- the court and page loops;
- the dedup loop;
- the task-file loop.

Each of these methods is proved against a specification function. The
properties are proved as lemmas about those functions. The dedup table and
the spider's task queue are fields of classes.

Network responses are parameters of the model:

- the manifest text;
- the chunks streamed for a locator, as `fetch`;
- the court list;
- the listing pages, as a function of the page query;
- the user-name nodes of the cookie check.

The worker pool is represented by its post-join buffer. That buffer is any
rearrangement of the downloads.

The model follows the code as written. Note these behaviours:

- Dedup inserts a case into the table when it is checked, not after its
  video was saved (`database/sqlite.py:79`).
- Every court is paged 1 to 100 whatever a page returns. An empty page is
  handed on as an empty batch.
- The reassembler has no check for a missing segment index.
- A failing segment download is re-raised by `tf.result()` and ends the
  whole run. It does not skip the case.
- A malformed listing timestamp ends the run as well.
- Court-level failures are not caught.

## Model

| member | source | states |
|---|---|---|
| Text.Split | China_Trial/crawl/trial.py:246 | `split('\n')` gives at least one piece, and no piece contains the separator |
| Text.JoinSplit | China_Trial/crawl/trial.py:246 | joining the pieces with the separator gives the text back |
| Text.SplitJoin | China_Trial/crawl/trial.py:246 | splitting a join of separator-free pieces gives the pieces back |
| Text.LastPiece | crawl/specify_trial.py:57 | the last piece has no separator, is a suffix of the text, and is preceded by the separator when shorter than the text |
| Text.LastPieceIsLastOfSplit | crawl/specify_trial.py:57 | the last piece is `split(sep)[-1]` |
| Urls.NormalizePlayUrl | China_Trial/crawl/trial.py:219-221 | the result contains `http:`, and is the play URL or `http:` + play URL |
| Urls.NormalizeLocator | China_Trial/crawl/trial.py:233-234 | the result contains `http`, and is the locator or `http:` + locator |
| Urls.PlayUrlPrefixedIff | crawl/trial.py:150-151 | the play URL changes iff `http:` does not occur in it, and then only by the `http:` prefix |
| Urls.LocatorPrefixedIff | China_Trial/crawl/trial.py:249-250 | a segment or manifest locator changes iff `http` does not occur in it, and then only by the prefix |
| Urls.NormalizeIdempotent | crawl/specify_trial.py:72-73 | both normalisations are idempotent |
| Urls.PlayUrlPassesLocatorTest | crawl/specify_trial.py:72-82 | a normalised play URL is left alone by the locator rule |
| Urls.SchemeTestsDisagreeOnHttps | crawl/specify_trial.py:72-82 | the two rules disagree on `https://v/p`: the play-URL rule prefixes it and the locator rule keeps it |
| Urls.M3u8UrlLosesScheme | crawl/trial.py:162-165 | the URL `parse_m3u8_file` returns for `//v/a.m3u8` has no `http`, while the normalisation gives `http://v/a.m3u8` |
| Manifest.SegmentLines | China_Trial/crawl/trial.py:246-248 | at most as many lines are kept as given, and each kept line is a non-empty input line without `#` |
| Manifest.SegmentLinesAppend | China_Trial/crawl/trial.py:246-248 | lines are filtered one by one, so kept lines stay in document order |
| Manifest.SegmentLinesComplete | China_Trial/crawl/trial.py:246-248 | every non-empty line without `#` is kept |
| Manifest.ManifestTasksNumbered | China_Trial/crawl/trial.py:243-253 | the task counts are 1..N in order, N is the number of kept lines, and every locator contains `http` |
| Manifest.ParseTsFile | China_Trial/crawl/trial.py:237-255 | the queue built by the loop is the numbered, normalised kept lines; its size is the progress total |
| Segments.FirstEmpty | China_Trial/crawl/trial.py:84-87 | the position of the first empty chunk: every chunk before it is non-empty, and the chunk there is empty |
| Segments.PayloadStopsAtEmptyChunk | China_Trial/crawl/trial.py:82-89 | the payload is the chunks joined up to and excluding the first empty chunk, and what follows it is ignored |
| Segments.DownloadTsFile | crawl/specify_trial.py:118-127 | the loop's result carries the task's count and the payload of the streamed chunks |
| Reassembly.InsertByCount | China_Trial/crawl/trial.py:297 | inserting into a buffer sorted by count keeps it sorted and adds exactly one entry |
| Reassembly.SortByCount | China_Trial/crawl/trial.py:297 | the sorted buffer is ordered by count and is a permutation of the buffer |
| Reassembly.SaveVideo | China_Trial/crawl/trial.py:262-264 | the written bytes are the payloads concatenated in buffer order |
| Reassembly.SortedPermutationUnique | China_Trial/crawl/trial.py:297 | a count-sorted permutation of a buffer with strictly ascending counts is that buffer |
| Reassembly.ReassemblyIgnoresArrivalOrder | crawl/specify_trial.py:115 | for any arrival order of results with distinct counts, sorting gives them in ascending count order |
| Reassembly.AllPayloadsOfResults | China_Trial/crawl/trial.py:286-290 | writing the downloads in task order gives the manifest's payloads in manifest order |
| Reassembly.VideoFollowsManifestOrder | China_Trial/crawl/trial.py:278-298 | whatever order the workers finish in, the video is the segment payloads in the order the manifest lists them |
| Reassembly.ThreeSegmentsOutOfOrder | crawl/specify_trial.py:115-136 | segments finishing in the order 3, 1, 2 are written as segment 1, 2, 3 |
| Reassembly.ArrivalOfThree | crawl/specify_trial.py:115 | results arriving with counts 3, 1, 2 are sorted back to 1, 2, 3 |
| FileNames.Sanitize | China_Trial/crawl/trial.py:260 | the result is no longer than the title and holds only safe characters of the title |
| FileNames.SanitizeAppend | China_Trial/crawl/trial.py:260 | removal works character by character, so kept characters stay in order |
| FileNames.SanitizeKeepsSafe | China_Trial/crawl/trial.py:260 | every safe character of the title is kept |
| FileNames.SanitizeSafeTitle | China_Trial/crawl/trial.py:260 | a title without unsafe characters is unchanged |
| FileNames.SanitizeIdempotent | China_Trial/crawl/trial.py:260 | sanitising twice equals sanitising once |
| FileNames.VideoFileNameSafe | China_Trial/crawl/trial.py:260 | the file name is the sanitised title followed by `.mp4`, with no unsafe character before the suffix |
| FileNames.SpecifyFileNameRoundTrip | crawl/specify_trial.py:132 | `云南话_` + task + `.mp4` gives the task back, so distinct tasks get distinct files |
| Spider.TaskIdIsSuffix | crawl/specify_trial.py:57 | the id has no `/`, is a suffix of the URL, and is preceded by `/` when shorter than the URL |
| Spider.TaskIdIsLastPiece | crawl/specify_trial.py:57 | the id is `split('/')[-1]` |
| Spider.TaskIdWithoutSlash | crawl/specify_trial.py:57 | a URL without `/` is its own id |
| Courts.FlattenAppend | crawl/trial.py:69-91 | entries contribute independently and in listing order |
| Courts.FlattenSound | China_Trial/crawl/trial.py:139-161 | every record comes from an entry not of type 2, either from one of its sub-courts or from the entry itself when it has none, with level `type - 1` |
| Courts.FlattenComplete | crawl/trial.py:69-91 | an entry not of type 2 contributes each of its sub-courts, or itself when it has none |
| Courts.FlattenSkipsTypeTwo | crawl/trial.py:71-72 | a type-2 entry contributes nothing wherever it stands |
| Courts.ParseProvinceCourt | China_Trial/crawl/trial.py:132-164 | the loops build the flattened list; an empty court list is an error, from `courts[0]` in the log line |
| Listing.Decimal | crawl/trial.py:123 | `str(n)` has one digit exactly when `n < 10` |
| Listing.DecimalOfMillis | crawl/trial.py:123 | from 1000 on, `str(beginTime)` is the text of `beginTime // 1000` followed by three more characters |
| Listing.DecimalBelowThousand | crawl/trial.py:123 | below 1000, `str(beginTime)` has at most three characters |
| Listing.DropLastThreeIsSeconds | crawl/trial.py:123 | `str(beginTime)[:-3]` is the decimal text of the whole seconds, and empty below 1000 |
| Listing.ToCaseRecord | crawl/trial.py:123 | the `float` conversion succeeds exactly when `beginTime >= 1000`; below that `float("")` raises; the range of `fromtimestamp` is not modelled |
| Listing.ToCaseRecordFields | crawl/trial.py:123-131 | `courtName` maps to `caseName` and `title` to `caseTitle`, `caseId` and `caseNo` are copied, and the time is the seconds text |
| Listing.PageRecordsPositional | China_Trial/crawl/trial.py:191-201 | a page converts iff all its results do, and then record `i` comes from result `i` |
| Listing.BuildCases | crawl/trial.py:121-131 | the inner loop yields the page's records in order, or the error |
| Listing.ParseCaseId | China_Trial/crawl/trial.py:166-203 | pages 1..100 are each handed on as one batch, empty or not; a page that raises ends the generator; the output is `CourtPages` of the court |
| Listing.PagesUpTo | China_Trial/crawl/trial.py:166-203 | over pages 1 to `n` at most `n` batches are yielded, exactly `n` when no page raised |
| Listing.PagesUpToStopped | China_Trial/crawl/trial.py:166-203 | after a page has raised, later pages yield nothing more |
| Store.Dedup | database/sqlite.py:74-80 | the kept cases are no more than the input, come from it, and have ids that were not stored |
| Store.DedupAppend | database/sqlite.py:74-80 | deduplicating a batch is deduplicating its first part, then the rest against everything seen so far |
| Store.DedupExamined | database/sqlite.py:74-80 | the case at each position is returned exactly when its id is neither stored nor carried by an earlier case of the batch |
| Store.DedupDistinct | database/sqlite.py:76-80 | returned ids are pairwise distinct: a repeated id is returned only at its first occurrence |
| Store.DedupCovers | database/sqlite.py:76-80 | afterwards every input id is stored, and the ids added are exactly those of the returned cases |
| Store.DedupAllStored | database/sqlite.py:76-77 | a batch of stored ids returns nothing |
| Store.InsertAllKeys | database/sqlite.py:74-80 | inserting a batch adds exactly the batch's ids to the stored ids |
| Store.InsertAllKeeps | database/sqlite.py:74-80 | inserting a batch leaves every row whose id is not in the batch unchanged |
| Store.InsertAllKeyed | database/sqlite.py:15 | rows inserted one by one stay stored under their own `caseId`, the primary key |
| Store.DistinctIdsAppend | database/sqlite.py:15 | two batches with distinct ids and no common id have distinct ids together |
| Store.SqliteDB.constructor | database/sqlite.py:26-31 | the opened table holds the stored rows, keyed by their primary key |
| Store.SqliteDB.QueryQuantity | database/sqlite.py:36-47 | true exactly when a row with the id exists; the table is only read |
| Store.SqliteDB.InsertValue | China_Trial/db/sqlite.py:49-63 | a new id gets the row with `publish_time = time`, so the id is present afterwards; an existing id violates the primary key and the table is unchanged |
| Store.SqliteDB.SqliteDedup | database/sqlite.py:65-90 | returns the specified dedup of the batch and inserts exactly its rows; old rows are unchanged; `removed` is the input length minus the result length |
| Store.SqliteDB.IsDuplicate | China_Trial/db/sqlite.py:65-75 | true exactly when the id is stored; the table is not modified |
| Provinces.FilterAreas | utils/obtain_provincial_information.py:13-17 | `None` exactly for 香港, 台湾 and 澳门, and the area itself otherwise |
| Provinces.FilterProvincials | utils/obtain_provincial_information.py:35 | kept names are input names that are neither excluded nor empty, since `filter` tests truthiness |
| Provinces.FilterProvincialsAppend | utils/obtain_provincial_information.py:35 | names are filtered one by one and keep their order |
| Provinces.FilterProvincialsComplete | utils/obtain_provincial_information.py:35 | every name that is neither excluded nor empty is kept |
| Provinces.FilterProvincialsKeepsOrdinary | utils/obtain_provincial_information.py:35 | a list without excluded or empty names passes unchanged |
| Provinces.AreaCodes | utils/obtain_provincial_information.py:25-27 | one line per position up to the shorter list, each `name: code` |
| Provinces.FileTextLines | utils/obtain_provincial_information.py:24-27 | the written text splits at newlines into the lines and one final empty piece |
| Provinces.ProvincialCodeFileLines | utils/obtain_provincial_information.py:25-37 | the file holds `name: code` for the filtered names and the unfiltered codes, `min` of their lengths many |
| Provinces.PairingShiftsPastExcludedArea | utils/obtain_provincial_information.py:34-36 | the codes are not filtered, so the name after an excluded area is paired with that area's code |
| Spider.CellIds | crawl/specify_trial.py:55-57 | a cell adds at most one id |
| Spider.TaskIds | crawl/specify_trial.py:54-58 | at most one id per cell |
| Spider.TaskIdsHaveNoSlash | crawl/specify_trial.py:57 | no queued id contains `/` |
| Spider.TaskIdsAppend | crawl/specify_trial.py:54-58 | cells are handled one by one and ids are queued in column order |
| Spider.TaskIdsOfFilledColumn | crawl/specify_trial.py:54-58 | a column without skipped cells queues the id of each cell, in order |
| Spider.TaskIdsIgnoreSkipped | crawl/specify_trial.py:55-56 | empty, missing and `nan` cells queue nothing wherever they stand |
| Spider.SpecifyTrialSpider.constructor | crawl/specify_trial.py:21-22 | the task queue starts empty |
| Spider.SpecifyTrialSpider.LoadTaskFile | crawl/specify_trial.py:50-59 | the queue is extended by exactly the column's task ids |
| Spider.SpecifyTrialSpider.DownloadTask | crawl/specify_trial.py:86-136 | the file is `云南话_<task>.mp4` and holds the segment payloads in manifest order, for any worker completion order |
| Crawler.CheckCookieAvailability | crawl/trial.py:50-60 | `False` exactly when no user name is shown, otherwise `None` |
| Crawler.CookieGate | crawl/trial.py:179 | the crawl proceeds exactly when a user name is shown |
| Crawler.DedupBatches | crawl/trial.py:183-186 | one batch per page, each the dedup of the page against the ids stored before the run and those of every earlier page |
| Crawler.DedupBatchesAppend | crawl/trial.py:183-186 | the batches for two runs of pages are those of the first, then those of the second against everything the first fetched |
| Crawler.DedupBatchesCovers | crawl/trial.py:183-186 | the handed-on cases have distinct ids, none stored before, and with the stored ids they cover every fetched id |
| Crawler.DedupBatchesKeys | crawl/trial.py:183-186 | after the batches are inserted the table holds exactly the old ids and every fetched id |
| Crawler.HandedOnOnce | China_Trial/crawl/trial.py:306-309 | each new case is handed on exactly once and stored under its id; every fetched id is stored; no stored row changes |
| Crawler.CrawlPages | China_Trial/crawl/trial.py:303-306 | the pages of every court in turn up to the first that raised; when none raised, 100 pages per court |
| Crawler.CrawlPagesStopped | China_Trial/crawl/trial.py:303-306 | once a court's paging raised, later courts add no pages |
| Crawler.TrialCrawl.DedupPages | crawl/trial.py:183-186 | hands on `DedupBatches` of the court's pages against the table at entry, inserts exactly those cases, and afterwards every fetched id is stored |
| Crawler.TrialCrawl.CrawlCourt | China_Trial/crawl/trial.py:306-309 | for one court, hands on `DedupBatches` of `CourtPages` against the table at entry, reports whether no page raised, and inserts exactly the handed cases |
| Crawler.TrialCrawl.CrawlCourts | China_Trial/crawl/trial.py:304-309 | hands on `DedupBatches` of `CrawlPages` of the courts, finishes exactly when no page raised and otherwise ends with `BadTimestamp`; the table becomes the old one plus the handed cases |
| Crawler.TrialCrawl.Scheduler | China_Trial/crawl/trial.py:300-309 | with a valid cookie and courts, hands on `DedupBatches` of `CrawlPages` of all courts and finishes exactly when no page raised; the table becomes the old one plus the handed cases; no case is handed on twice or when stored before; old rows are unchanged; an expired cookie or an empty court list ends the run with no change; a finished run hands on 100 batches per court |
| Crawler.DownloadCase | China_Trial/crawl/trial.py:268-298 | the file is the sanitised title plus `.mp4` and holds the segment payloads in manifest order, for any worker completion order |

## Left out

- HTTP requests, sessions, headers and the random User-Agent. Every response
  is a parameter of the model.
- The regular-expression extraction of the manifest URL (`url: '...'`) and
  of the areas and codes (`areaName:`, `post:`). The first capture and the
  capture lists are inputs. When the `url: '...'` marker is missing,
  `re.findall(...)[0]` raises `IndexError` and ends the run
  (`China_Trial/crawl/trial.py:232`, `crawl/trial.py:162`,
  `crawl/specify_trial.py:80`); that error is not modelled.
- The thread pool and the shared `buffers` list. Only the post-join buffer
  is modelled, as any rearrangement of the downloads.
- An exception raised by a worker, re-raised by `tf.result()`, which ends
  the run. The model assumes every segment download completes.
- Progress bars, console tables, logging and the `time.sleep` pauses.
- Excel reading and `argparse`. The workbook column is a sequence of cells.
- Output directory creation and the file writes. The file is returned as
  its name and bytes.
- The database path and the SQLAlchemy engine. The table is a map from
  `caseId` to its row.
- Listing.ToCaseRecord: `time` holds the seconds text that reaches
  `fromtimestamp`, not the formatted local time. The formatting depends on
  the timezone.
- Listing.ToCaseRecord: the range error of `fromtimestamp` is not modelled.
  A `beginTime` whose seconds fall past year 9999 makes it raise
  `ValueError`; on Windows this already happens past year 3000. The run
  would then end as it does for `float("")`, but the model builds the
  record. The limit depends on the platform and the timezone.
  `PageRecords`, `ParseCaseId` and `Scheduler` share this gap.
- Listing.ListingResult: `beginTime` is a natural number. A negative
  `beginTime`, whose text starts with `-`, is not modelled.
- Courts.SubCourt: the court `type` is an integer. Both crawlers call
  `int(type)` for the level (`China_Trial/crawl/trial.py:150,159`,
  `crawl/trial.py:80,89`), and a string type is not modelled. With a string
  type `"2"`, the test `court["type"] == 2` is false, so such an entry would
  not be skipped.
- Spider.Cell: a numeric workbook cell, on which `task.split` would raise,
  is not modelled. Only text and missing cells are.
- Store.SqliteDB.InsertValue: the session state after a failed commit is
  not modelled. The source raises `IntegrityError`, and the model returns
  `false` with the table unchanged.
- Reassembly.SortByCount: stability among equal counts is not stated. The
  manifest numbering makes the counts distinct.
- `crawl/trial.py` `_download_engine` only resolves the play URL and the
  manifest URL for each case. Those are the Urls functions; nothing more
  happens there.
- `China_Trial/crawl/trial.py` `_table` and `_header` only print, and are
  not modelled.
- Crawler.TrialCrawl.Scheduler: the per-case downloads between batches are
  not part of it, since they never touch the table. `Crawler.DownloadCase`
  models one of them.

## Findings

| source | as written | input that shows it | evidently intended | confidence | as-written member | corrected member |
|---|---|---|---|---|---|---|
| crawl/trial.py:162-165 | the prefixed URL goes to an unused local `url`, so `parse_m3u8_file` returns the capture without a scheme | capture `//v/a.m3u8` is returned as `//v/a.m3u8` | return `http:` + capture when `http` is missing, as in `China_Trial/crawl/trial.py:233-235`, giving `http://v/a.m3u8` | high, not executed | Urls.M3u8UrlLosesScheme | Urls.NormalizeLocator |
