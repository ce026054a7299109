# freepik-scraper: a Dafny model of the session, progress and retention core

The system is a small Express server (`server.js`) plus a stand-alone script
(`scrape.js`). A user uploads a `.txt` or `.csv` list of Freepik search URLs.
The server creates a session with one progress record per URL. `POST /process`
then works through the URLs in batches of ten. For each URL, `processSingleUrl`:

- opens the page in a headless browser;
- reads the "N results" indicator and computes a target from it and the optional image limit;
- scrolls until the image count reaches the target, stalls five times, or a hundred attempts pass;
- collects the `http` image sources and cuts them to the limit;
- downloads them one at a time, skipping failures;
- zips them as `<label>_<timestamp>.zip`;
- writes status and percent into the URL's record as it goes.

Clients poll the records. A downloaded archive is marked in `downloadedZips`,
and a periodic sweep deletes marked archives older than five minutes.
`scrape.js` runs the same page logic once on a fixed URL and saves the images
under fixed names.

The model replaces the browser, the network, the clock, the URL parser, the
CSV parser and the zip writer with oracle parameters:

- a `Page`: whether navigation failed, the indicator text, the image count at each scroll iteration, and the `src` attributes;
- `now`;
- `pathname`, `queryOf` and `fetchOk`;
- the CSV result;
- the archive error.

Modules:

- `Common`: `Option`, `Result`, job errors, the page oracle.
- `Text`: ASCII digits, ECMAScript white space, decimal rendering, `parseInt`, `trim`, `split`.
- `Naming`: the sanitised query label, `path.extname`, image, entry, zip and scratch names.
- `UrlLists`: the `.txt` URL filter and the `http` source filter.
- `Targets`:
  - the result-count regex;
  - the image limit and target;
  - `slice`;
  - the percent bands.
- `Scroll`: the two scroll-convergence loops as methods with loop invariants.
- `Downloads`: the two download loops.
- `Artifacts`: a `Storage` class for the file system and `downloadedZips`, covering marking and sweeping.
- `Sessions`:
  - progress records;
  - the outcome of one run;
  - the `Session` class, whose `ProcessUrl`, batch loop and `Run` change records in place;
  - the `SessionManager` class over `activeSessions`, covering init-upload, progress, process and teardown.
- `Scraper`: `scrapeImages`.

## Model

| member | source | states |
|---|---|---|
| Text.SplitJoin | server.js:96-97 | splitting the uploaded text on newlines loses nothing: joining the pieces restores it |
| Naming.Sanitize | server.js:53-54 | the label has the query's length, only `[a-z0-9_]`, an underscore exactly where the query had a non-alphanumeric character, and at every ASCII letter or digit of the query that character lower-cased (digits unchanged) |
| Naming.SanitizeIdempotent | server.js:53-54 | sanitising a label again changes nothing |
| Naming.QueryLabel | server.js:49-60 | the label is "images" when the query is missing, empty or the URL does not parse, otherwise a same-length `[a-z0-9_]` string |
| Naming.QueryLabelSanitises | server.js:49-60 | a present, non-empty query is labelled by its sanitised form: same length, `_` exactly at its non-alphanumeric characters, ASCII letters lower-cased and digits kept |
| Naming.Extname | server.js:81 | `path.extname` returns "" or a dot followed by no further dot or slash |
| Naming.ExtnameCharacterised | server.js:81 | a non-empty extension is the last path component's suffix from its last dot, that dot not leading the component and the component not "..", and the extension is empty exactly when the component has no dot after its first character or is ".." |
| Naming.ImageExt | server.js:343 | a download's extension is the URL pathname's extension when it has one, and exactly ".jpg" when it has none; either way a valid extension |
| Naming.ImageNameInjective | server.js:344 | `image_<n><ext>` names with different numbers never coincide, so every name determines its number and extension |
| Naming.ExtnameOfImagePath | server.js:343-345 | `path.extname` of a saved image's path gives back the extension it was saved with |
| Naming.ZipEntriesDistinct | server.js:80-83 | no two files of one archive get the same entry name |
| Naming.ZipNameInjective | server.js:371 | the label and the timestamp can be read back from a zip name |
| Naming.ZipNameDistinctTimes | server.js:155 | archives named with different timestamps have different names |
| UrlLists.TxtUrls | server.js:94-103 | each collected URL starts with "http"; there are at most as many URLs as lines |
| UrlLists.TxtUrlsTrimmed | server.js:98-100 | every collected URL is trimmed: it neither begins nor ends with white space |
| UrlLists.TxtUrlsAppend | server.js:97-102 | the filter works line by line: filtering two blocks of lines is filtering each, in order |
| UrlLists.TxtUrlsComplete | server.js:98-101 | every line whose trimmed text starts with "http" contributes that text |
| UrlLists.TxtUrlsSound | server.js:98-101 | every collected URL is the trimmed text of some line |
| UrlLists.ParseTxtUrls | server.js:94-103 | the loop collects exactly the filter's result for the split content |
| UrlLists.HttpSrcs | server.js:309-319 | every extracted URL starts with "http"; there are at most as many URLs as elements |
| UrlLists.HttpSrcsAppend | server.js:312-317 | DOM order is kept: filtering two runs of elements is filtering each, in order |
| UrlLists.HttpSrcsComplete | server.js:313-316 | every element whose `src` starts with "http" is kept |
| UrlLists.HttpSrcsSound | server.js:313-316 | every kept URL is the `src` of some element |
| Targets.TotalResults | server.js:205-215 | a missing indicator gives 500; an indicator whose text has no match gives 500; otherwise the count is the number the search found |
| Targets.ResultsCountFromLeftmost | server.js:209-212 | the search from a position finds nothing exactly when no later position starts an "N result(s)" match, and otherwise returns the match at the leftmost such position |
| Targets.TotalResultsFirstMatch | server.js:205-215 | an indicator with no "N result(s)" match anywhere gives 500, and otherwise its count is the number of the leftmost match |
| Targets.TotalResultsOfRendered | server.js:209-212 | an indicator reading "<non-digits><n> result..." yields `n` |
| Targets.ThousandsSeparatorReadsLastGroup | server.js:211 | "1,234 results" yields 234, because the regex stops at the comma |
| Targets.ImageLimit | server.js:881-883 | a missing or empty limit field is stored as no limit |
| Targets.ImageLimitNonNumeric | server.js:881-883 | a field with no digit after its leading white space and optional sign (such as "abc") parses to NaN and is stored as no limit |
| Text.ParseIntNoDigits | server.js:882 | `parseInt` gives NaN when no digit follows the leading white space and the optional sign |
| Targets.ImageLimitOfNumber | server.js:881-883 | a typed number is stored as that number, a leading minus as a negative number, and "0" is stored as 0, which reads as unlimited |
| Targets.Target | server.js:218-220 | the target never exceeds the total or a truthy limit and is one of the two; a falsy limit (null, NaN, 0) leaves the total |
| Targets.LimitSlice | server.js:324-326 | the final list is a prefix of the extracted list: all of it for a falsy limit, `min(limit, n)` entries for a positive one, and `n + limit` entries (at least 0) for a negative one |
| Targets.NegativeLimitPercent | server.js:257-264 | a limit of "-3" gives the target -3, and thirty images then give the percent -380 |
| Targets.ZeroResultsPercent | server.js:257-264 | "0 results" gives the target 0, and a count of 0 then gives NaN |
| Targets.ScrollPercentLeavesBand | server.js:257-264 | the percent as written can leave the 20..60 band or be NaN (see Findings) |
| Targets.ScrollPercent | server.js:257-264 | the scroll percent lies in 20..60, agrees with the source's formula for every positive target, and is 60 once the count reaches the target |
| Targets.ScrollPercentMonotone | server.js:257-264 | while the page's count does not drop, the scroll percent does not drop |
| Targets.DownloadPercent | server.js:351 | the percent written after download `i` of `n` lies in 65..89 |
| Targets.DownloadPercentMonotone | server.js:351 | later downloads never get a smaller percent |
| Scroll.StallCharacterised | server.js:280-297 | the stall counter is at least `m` exactly when each of the last `m` counts repeated the one before, the first being compared with 0 |
| Scroll.StalledAfterFive | server.js:281-294 | a stall exit needs at least five iterations whose counts all repeat |
| Scroll.ServerScroll | server.js:233-301 | the loop runs 1..100 iterations, and no earlier iteration met an exit condition. It exits on the target exactly when the last count reached the target, which is tested before the stall. It exits on a stall exactly when the count was short and the stall counter reached five; otherwise it ran all 100. One percent is recorded per iteration, exactly as the source's formula gives it (`None` for NaN), and for a positive target each is the in-band `ScrollPercent` |
| Scroll.AutoScrollWithLoadMore | scrape.js:46-104 | at most `maxAttempts` attempts are counted. A stall exit leaves its iteration uncounted and returns a count equal to the previous one. A target exit counts its iteration and returns that iteration's count. Exhaustion returns the last count (0 when no iteration ran). No earlier iteration met an exit condition |
| Downloads.SavedIndices | server.js:341-365 | the saved downloads are successful indices below `k`, at most `k` of them |
| Downloads.SavedIndicesIncreasing | server.js:341-365 | the saved indices are strictly increasing: downloads are saved in loop order and none twice |
| Downloads.SavedIndicesComplete | server.js:347-364 | every successful download is saved: a failed download never stops the loop |
| Downloads.FirstBadUrl | server.js:343 | the loop aborts at the first URL that does not parse, and at none exactly when all parse |
| Downloads.SavedFiles | server.js:340-349 | `downloadedFiles` holds one path per successful download |
| Downloads.SavedFileAt | server.js:340-349 | the `j`-th path in `downloadedFiles` belongs to the `j`-th successful download, named after its index and its URL's extension |
| Downloads.DownloadReports | server.js:351-358 | progress is written only after a successful download that is a tenth one or the last one, with its position and the list length |
| Downloads.DownloadImages | server.js:339-365 | the loop's result is the saved files, or the error of the first unparsable URL. Its progress writes are those of the downloads attempted before it stopped |
| Downloads.DownloadFailsOnBadUrl | server.js:343 | the download phase fails exactly when some URL does not parse |
| Downloads.ImagePathInjective | server.js:343-345 | different indices give different image paths in one directory |
| Downloads.SavedFilesDistinct | server.js:343-349 | saved images get pairwise different paths, each with a valid extension, so none overwrites another |
| Downloads.ReportsInOrder | server.js:352-358 | progress reports come in download order |
| Downloads.ReportPercentsRise | server.js:351-357 | the download percents written stay in 65..89 and never go down |
| Downloads.LastDownloadReported | server.js:352 | a successful last download is always the last report |
| Downloads.ScrapeDownloads | scrape.js:193-206 | the scraper saves exactly the successful downloads, in order, download `i` as `image_<i+1>_2000x_q100.jpg` |
| Downloads.ScrapeSavesEverySuccess | scrape.js:200-205 | every successful download is among the saved files |
| Artifacts.Swept | server.js:128-146 | the sweep deletes only marked, existing archives older than five minutes whose unlink succeeds |
| Artifacts.Storage.constructor | server.js:12-23 | the server starts with whatever the three directories already held (each is created only when missing) and an empty retention map |
| Artifacts.Storage.MarkDownloaded | server.js:996-1002 | an existing archive's mark is set to `now`, overwriting any earlier mark; a missing one changes nothing |
| Artifacts.Storage.StoreUpload | server.js:873 | the upload middleware adds the file to `uploads/` and changes nothing else |
| Artifacts.Storage.UnlinkUpload | server.js:889 | unlinking an upload removes exactly that file from `uploads/` and changes nothing else |
| Artifacts.Storage.CleanupOldZips | server.js:128-146 | the sweep removes exactly the swept archives from the map and from disk, and leaves every other mark as it was |
| Artifacts.MarkRestartsWindow | server.js:1000-1002 | a re-download restarts the window: no sweep within five minutes of the latest mark deletes the archive |
| Artifacts.SweepTouchesOnlyMarked | server.js:132-146 | an archive that was never marked survives a sweep |
| Artifacts.MissingFileStaysMarked | server.js:136-145 | an entry whose archive is already gone stays in the map |
| Artifacts.StaleArchiveSwept | server.js:133-141 | a stale, existing, unlinkable archive is always deleted |
| Artifacts.SweepRetriesFailures | server.js:128-146 | a second sweep at the same time deletes exactly the stale, marked, existing archives whose unlink failed in the first sweep and succeeds in the second |
| Artifacts.SweepIdempotent | server.js:128-146 | a second sweep at the same time in which every unlink behaves as in the first deletes nothing more |
| Sessions.NewRecords | server.js:902-909 | one record per URL, aligned by index, with the URL, its label, pending status, percent 0 and no archive |
| Sessions.Settle | server.js:380-397 | a run's last write keeps the URL and label; success gives completed, 100 and the archive name; failure gives error, 0 and keeps the previous archive name |
| Sessions.SettleOverwritesProgress | server.js:380-397 | the intermediate progress writes of a run do not affect its final record |
| Sessions.FirstRunZipIffCompleted | server.js:380-397 | on a record never processed before, an archive name is present exactly when the run completed |
| Sessions.RerunErrorKeepsArchive | server.js:395-397 | a failed re-run leaves a record in the error state that still names the archive of the earlier successful run |
| Sessions.RunJobCases | server.js:152-407 | a navigation error aborts the run with no archive; otherwise an unparsable limited URL aborts it with that URL's error and no archive; a failing zip writer aborts it leaving `<label>_<now + index>.zip`; and the run completes exactly when the page opened, every limited URL parsed and the writer succeeded |
| Sessions.ArchiveOutcomeCases | server.js:339-374 | the download and archive phase aborts with the error of an unparsable URL and no archive, or aborts on a writer error leaving `<label>_<timestamp>.zip`, and completes exactly when every URL parsed and the writer succeeded |
| Sessions.RunJobDone | server.js:324-374 | a completed run had every limited URL parse and archived exactly the saved files of that list |
| Sessions.ArchiveHonoursLimit | server.js:324-326 | an archive never holds more images than the page offered, nor more than a positive limit |
| Sessions.ArchiveEntries | server.js:80-83 | entry `j` of a completed run's archive is `image_<j+1>` with the extension of the `j`-th saved image, and entries are distinct |
| Sessions.EntriesOfSavedFiles | server.js:80-83 | the zip entry of each saved file is named after its position and its URL's extension |
| Sessions.EntryOfSavedFile | server.js:80-83 | the zip entry of the `j`-th saved file is `image_<j+1>` with the extension its URL's path gave when it was saved |
| Sessions.RunJobWrittenZip | server.js:371 | the only archive a run can leave is `<label>_<now + index>.zip`, and a completed run reports that name |
| Sessions.WrittenZipsDisjoint | server.js:155 | two runs of one batch that start at the same time with different indices never leave the same archive file |
| Sessions.FlattenPlanPrefix | server.js:959-981 | the first `k` batches together cover `[0, min(10k, n))` in increasing order |
| Sessions.BatchPlanCoversAll | server.js:959-981 | the batches visit every index in `[0, n)` exactly once, in increasing order |
| Sessions.BatchPlanShape | server.js:959-961 | every batch is non-empty, holds at most ten indices and starts at a multiple of ten |
| Sessions.Session.constructor | server.js:898-911 | a new session holds its file path, URLs and limit, one pending record per URL, and is not completed |
| Sessions.Session.Write | server.js:159-161 | a progress write changes only the status, message and percent of one record |
| Sessions.Session.LoadPage | server.js:198-337 | the page phase returns the limited `http` source list and changes only record `i`'s progress fields |
| Sessions.Session.DownloadAndArchive | server.js:339-374 | the download and archive phase yields the run's outcome and leaves the archive it attempted in the output directory |
| Sessions.Session.ProcessUrl | server.js:152-407 | the run's outcome is `RunJob`, record `i` is settled from its old value and no other record changes. The attempted archive is added to the output directory and the scratch directory is gone afterwards |
| Sessions.Session.Step | server.js:970-976 | running index `k` extends the settled prefix, the written archives and the removed scratch directories by that run |
| Sessions.Session.RunBatch | server.js:969-976 | one batch settles its indices in order and leaves the rest unchanged |
| Sessions.Session.RunBatches | server.js:958-981 | the batches are the batch plan. Every record is settled from its value before the call, and the output directory gains exactly the archives of all runs. Every scratch directory is removed |
| Sessions.Session.Run | server.js:955-985 | after the batches the upload is deleted. `completed` becomes true exactly when the upload was still there; on a second call the unlink throws and `completed` stays as it was |
| Sessions.ReadUrls | server.js:90-124 | the URLs of a `.txt` file (by lower-cased extension), the CSV parser's result for a `.csv` file, or "Unsupported file type" |
| Sessions.SessionManager.constructor | server.js:26 | there are no sessions at start |
| Sessions.SessionManager.InitUpload | server.js:873-927 | without a file nothing changes. Otherwise an unsupported or unparsable file is rejected and stays stored, and an empty list deletes the file. A non-empty list creates a fresh session under the decimal time, replacing any session with that id |
| Sessions.SessionManager.Accept | server.js:879-911 | the answer is the parser's rejection, "no valid URLs" or a new session keyed by the decimal time; only the empty-list answer unlinks the upload; only a new session changes the map, under its own key and freshly allocated |
| Sessions.SessionManager.Register | server.js:897-911 | the new session is stored under its id, replacing any session there, with one pending record per URL; no other session changes |
| Sessions.SessionManager.Poll | server.js:930-940 | an existing session's records and completion flag, or "Session not found" |
| Sessions.SessionManager.Process | server.js:943-993 | an unknown id changes nothing. Otherwise processing starts, the session runs as `Session.Run` says, and no other session changes |
| Sessions.SessionManager.Teardown | server.js:990-992 | the session is removed from the map and nothing else changes |
| Scraper.ScrapedFiles | scrape.js:193-206 | one saved name per successful download |
| Scraper.ScrapeImages | scrape.js:106-216 | a navigation failure ends the run with its message and no scroll. Otherwise the scroll aims at the page's result count (500 by default) with at most 100 attempts. An empty `http` source list ends the run without downloads, and otherwise exactly the successful downloads are saved |
| Scraper.ScrapedFilesExact | scrape.js:193-206 | download `i`'s name is among the saved files exactly when it succeeded |
| Scraper.ScrapedFilesDistinct | scrape.js:195 | no two saved downloads share a file name |

## Left out

- HTTP mechanics are not modelled: Express routing, multer, `res.download`, the inline HTML and client script. Route handlers are modelled by their effect on sessions and storage.
- Puppeteer is an oracle (`Page`). The fixed waits, the "Load more" click and the scroll itself are not modelled.
- axios downloads are an oracle (`fetchOk`), and so are the CSV parser (`Upload.csvUrls`) and the archive writer (`Job.archiveError`). The WHATWG URL parser (`pathname`, `queryOf`) is an oracle too, because it is a foreign library. The CSV parser is `server.js:104-120`.
- `modifyImageUrl` (scrape.js:13-28) is not modelled: it only re-serialises a URL, which does not affect the files saved.
- Percents are computed in exact integer arithmetic. Floating point is not modelled. `Infinity` (positive count, target 0) is modelled as 60, the value `min` gives it, and `NaN` is `None`.
- Strings are sequences of Unicode scalar values, not of the UTF-16 code units JavaScript uses. A character outside the Basic Multilingual Plane in a query becomes `__` (one `_` per code unit) in the source's label but a single `_` in `Naming.Sanitize`; such characters in paths and indicator text are likewise counted once. `toLowerCase` is modelled on ASCII only; the sanitised label contains only ASCII, so this matters only for file extensions.
- Progress messages are data (`Message`). Emoji and exact wording are not modelled.
- Intermediate progress writes between the first (5%) and the last are collapsed: `Settle` overwrites status, message and percent, so only the final write is observable in the model. `Write`, `ServerScroll`'s recorded percents and `DownloadReports` state the intermediate ones.
- Sessions.Session.RunBatch: the source starts a batch's runs together with `Promise.all`. The model runs them in index order. Each run writes only its own record, its own scratch directory and its own archive name (`WrittenZipsDisjoint`), so the final state does not depend on the order. Interleavings of intermediate progress writes are not modelled.
- Sessions.Session.LoadPage: the scroll-phase write records the corrected `ScrollPercent` of the last iteration, not the value the source's formula gives (which can leave 20..60 or be NaN when the target is zero or negative, see Findings); `Scroll.ServerScroll` records the as-written values.
- Sessions.Session.DownloadAndArchive: when the zip writer fails, the partly written archive is counted as left in the output directory; its contents are not modelled.
- Timers are explicit operations: the minute-by-minute sweep is `CleanupOldZips(now, …)` and the one-hour session removal is `Teardown`. Real time values are parameters.
- Sessions.SessionManager.Process: the source sends its reply before processing. A second call on the same session re-runs every URL, then its `unlinkSync` throws an unhandled rejection. The model states that throw as "`completed` stays as it was". The one-hour teardown that is then never scheduled, and the process-level effect of the rejection, are not modelled.
- Session ids are `Date.now()` rendered in decimal and are not unique: two uploads in the same millisecond share an id, and the later replaces the earlier. The model states this replacement and claims no uniqueness.
- Archive names can collide across runs whose `now + index` coincide, such as two sessions processed at nearby times. Only distinctness within one batch start is proved (`WrittenZipsDisjoint`). A collision overwrites the earlier archive, which the set-of-names file system does not distinguish.
- File-system paths are not normalised, so `..` in an uploaded name or a download request is not modelled.
- Where the documented behaviour and the code differ, the model follows the code:
  - a re-download restarts the five-minute window;
  - a failed re-run keeps the previous `zipFile`;
  - a "0 results" indicator gives a target of 0;
  - a page with no `http` sources completes with an empty archive;
  - the sweep keeps entries whose file is missing or whose unlink fails.

## Findings

| source | as written | input that shows it | evidently intended | confidence | as-written member | corrected member |
|---|---|---|---|---|---|---|
| server.js:257-264 | the scroll percent is `min(floor(20 + current / target * 40), 60)` with no guard on the target | limit field "-3" (a direct POST, bypassing the form's `min="1"`) with 30 images counted gives -380%; a "0 results" indicator with no image counted gives NaN, which needs the images to vanish after the wait for `figure img` at server.js:202 succeeded, a constraint the `Page.counts` oracle does not record | a percent in the scroll band 20..60, reaching 60 once the target is met | not executed; medium | Targets.ScrollPercentLeavesBand | Targets.ScrollPercent |
