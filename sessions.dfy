/**
 * Sessions and their progress records: creating a session from an uploaded URL
 * list, processing one URL (`processSingleUrl`), the batch scheduler of
 * `POST /process/:sessionId`, polling, and the removal of a session.
 *
 * Each job is driven by oracles: the page the browser sees, the time the job
 * starts, the URL parser's `pathname`, the outcome of each image download, and
 * the error the zip writer reports, if any. The WHATWG URL parser behind
 * `extractQueryFromUrl` is the oracle `queryOf`: the value of the `query`
 * parameter, `None` when the URL does not parse or has none.
 */
module Sessions {
  import opened Common
  import opened Text
  import opened Naming
  import opened UrlLists
  import opened Targets
  import opened Scroll
  import opened Downloads
  import opened Artifacts

  datatype Status = Pending | Processing | Completed | Error

  /** The `progress` text of a record, by the step that wrote it. */
  datatype Message =
    | Waiting                                          // "Waiting to start..."
    | Launching                                        // "Launching browser..."
    | Opening                                          // "Opening page..."
    | LoadingPage                                      // "Loading page..."
    | FoundResults(total: nat, target: int, limited: bool)
    | LoadingImages(current: nat, target: int)
    | Extracting                                       // "Extracting image URLs..."
    | DownloadingImages(count: nat)
    | Downloaded(done: nat, count: nat)
    | CreatingZip                                      // "Creating ZIP file..."
    | Finished(images: nat)                            // "Completed! n images"
    | Failed(error: JobError)                          // "Error: ..."

  /** One entry of `session.urlsData`. */
  datatype ProgressRecord = ProgressRecord(
    url: string, query: string, status: Status, message: Message, percent: int, zipFile: Option<string>)

  /** The records a new session starts with: one pending record per URL, aligned by index. */
  function NewRecords(urls: seq<string>, queryOf: string -> Option<string>): (records: seq<ProgressRecord>)
    ensures |records| == |urls|
    ensures forall i :: 0 <= i < |urls| ==>
      records[i].url == urls[i] && records[i].query == QueryLabel(queryOf(urls[i]))
      && records[i].status == Pending && records[i].message == Waiting
      && records[i].percent == 0 && records[i].zipFile == None
  {
    seq(|urls|, i requires 0 <= i < |urls| => ProgressRecord(urls[i], QueryLabel(queryOf(urls[i])), Pending, Waiting, 0, None))
  }

  /** The oracles of one run of `processSingleUrl`; `now` is `Date.now()` when the run starts. */
  datatype Job = Job(
    page: Page, now: nat, pathname: string -> Option<string>, fetchOk: nat -> bool, archiveError: Option<string>)

  /**
   * How one run ends: an archive with its entry names, or an error. When the zip
   * writer fails, the archive file it had opened is left behind (`partialZip`).
   */
  datatype JobOutcome =
    | Done(zipName: string, entries: seq<string>)
    | Aborted(error: JobError, partialZip: Option<string>)

  /** The outcome of `processSingleUrl(url, index, session)` given its oracles. */
  function RunJob(url: string, queryOf: string -> Option<string>, limit: Option<int>, index: nat, job: Job): JobOutcome
  {
    if job.page.navError.Some? then Aborted(NavigationFailed(job.page.navError.value), None)
    else ArchiveOutcome(QueryLabel(queryOf(url)), job.now + index, LimitSlice(HttpSrcs(job.page.srcs), limit), job)
  }

  /** Downloading `urls` into the scratch directory and archiving what was saved. */
  function ArchiveOutcome(query: string, timestamp: nat, urls: seq<string>, job: Job): JobOutcome
  {
    match DownloadOutcome(ScratchDir(query, timestamp), urls, job.pathname, job.fetchOk)
    case Failure(e) => Aborted(e, None)
    case Success(files) =>
      if job.archiveError.Some? then Aborted(ArchiveFailed(job.archiveError.value), Some(ZipName(query, timestamp)))
      else Done(ZipName(query, timestamp), ZipEntries(files))
  }

  /** A run whose page opened is the download and archive of the page's limited image list. */
  lemma RunJobLoaded(url: string, queryOf: string -> Option<string>, limit: Option<int>, index: nat, job: Job)
    requires job.page.navError.None?
    ensures RunJob(url, queryOf, limit, index, job)
      == ArchiveOutcome(QueryLabel(queryOf(url)), job.now + index, LimitSlice(HttpSrcs(job.page.srcs), limit), job)
  {
  }

  /** The archive file a run leaves in the output directory, if any. */
  function WrittenZip(outcome: JobOutcome): set<string>
  {
    match outcome
    case Done(name, _) => {name}
    case Aborted(_, partial) => if partial.Some? then {partial.value} else {}
  }

  /**
   * The last write of a run: completion sets status, message, 100 and the archive
   * name; an error sets status, message and 0 and leaves `zipFile` as it was.
   */
  function Settle(rec: ProgressRecord, outcome: JobOutcome): (r: ProgressRecord)
    ensures r.url == rec.url && r.query == rec.query
    ensures outcome.Done? ==> r.status == Completed && r.percent == 100 && r.zipFile == Some(outcome.zipName)
    ensures outcome.Aborted? ==> r.status == Error && r.percent == 0 && r.zipFile == rec.zipFile
  {
    match outcome
    case Done(name, entries) => rec.(status := Completed, message := Finished(|entries|), percent := 100, zipFile := Some(name))
    case Aborted(e, _) => rec.(status := Error, message := Failed(e), percent := 0)
  }

  /** The progress fields a run writes before it ends do not matter to its last write. */
  lemma SettleOverwritesProgress(r1: ProgressRecord, r2: ProgressRecord, outcome: JobOutcome)
    requires r1.url == r2.url && r1.query == r2.query && r1.zipFile == r2.zipFile
    ensures Settle(r1, outcome) == Settle(r2, outcome)
  {
  }

  /** On a record that was never processed, an archive name is present exactly when the run completed. */
  lemma FirstRunZipIffCompleted(rec: ProgressRecord, outcome: JobOutcome)
    requires rec.zipFile == None
    ensures Settle(rec, outcome).zipFile.Some? <==> Settle(rec, outcome).status == Completed
  {
  }

  /** A failed re-run leaves the archive name of an earlier successful run on a record in the error state. */
  lemma RerunErrorKeepsArchive(rec: ProgressRecord, e: JobError, partial: Option<string>)
    requires rec.status == Completed && rec.zipFile.Some?
    ensures Settle(rec, Aborted(e, partial)).status == Error
    ensures Settle(rec, Aborted(e, partial)).zipFile == rec.zipFile
  {
  }

  /** A completed run archived the saved files of the limited list, every URL of which parsed. */
  lemma RunJobDone(url: string, queryOf: string -> Option<string>, limit: Option<int>, index: nat, job: Job)
    requires RunJob(url, queryOf, limit, index, job).Done?
    ensures var urls := LimitSlice(HttpSrcs(job.page.srcs), limit);
      AllParse(urls, job.pathname, |urls|)
      && RunJob(url, queryOf, limit, index, job).entries
         == ZipEntries(SavedFiles(ScratchDir(QueryLabel(queryOf(url)), job.now + index), urls, job.pathname, job.fetchOk, |urls|))
  {
    var urls := LimitSlice(HttpSrcs(job.page.srcs), limit);
    var dir := ScratchDir(QueryLabel(queryOf(url)), job.now + index);
    assert RunJob(url, queryOf, limit, index, job) == ArchiveOutcome(QueryLabel(queryOf(url)), job.now + index, urls, job);
    var download := DownloadOutcome(dir, urls, job.pathname, job.fetchOk);
    assert download.Success?;
    assert FirstBadUrl(urls, job.pathname, |urls|).None?;
  }

  /**
   * Every way a run can end: a navigation error aborts it with nothing written;
   * otherwise an unparsable image URL aborts it, again with nothing written; a
   * failing zip writer aborts it leaving the opened archive; and in every other
   * case it completes.
   */
  lemma RunJobCases(url: string, queryOf: string -> Option<string>, limit: Option<int>, index: nat, job: Job)
    ensures job.page.navError.Some? ==>
      RunJob(url, queryOf, limit, index, job) == Aborted(NavigationFailed(job.page.navError.value), None)
    ensures var urls := LimitSlice(HttpSrcs(job.page.srcs), limit);
      job.page.navError.None? && !AllParse(urls, job.pathname, |urls|) ==>
        var r := RunJob(url, queryOf, limit, index, job);
        r.Aborted? && r.error.InvalidImageUrl? && r.error.url in urls && job.pathname(r.error.url).None? && r.partialZip.None?
    ensures var urls := LimitSlice(HttpSrcs(job.page.srcs), limit);
      job.page.navError.None? && AllParse(urls, job.pathname, |urls|) && job.archiveError.Some? ==>
        RunJob(url, queryOf, limit, index, job)
          == Aborted(ArchiveFailed(job.archiveError.value), Some(ZipName(QueryLabel(queryOf(url)), job.now + index)))
    ensures var urls := LimitSlice(HttpSrcs(job.page.srcs), limit);
      RunJob(url, queryOf, limit, index, job).Done? <==>
        job.page.navError.None? && AllParse(urls, job.pathname, |urls|) && job.archiveError.None?
  {
    if job.page.navError.None? {
      ArchiveOutcomeCases(QueryLabel(queryOf(url)), job.now + index, LimitSlice(HttpSrcs(job.page.srcs), limit), job);
    }
  }

  /** The download and archive phase of a run, case by case. */
  lemma ArchiveOutcomeCases(query: string, timestamp: nat, urls: seq<string>, job: Job)
    ensures !AllParse(urls, job.pathname, |urls|) ==>
      var r := ArchiveOutcome(query, timestamp, urls, job);
      r.Aborted? && r.error.InvalidImageUrl? && r.error.url in urls && job.pathname(r.error.url).None? && r.partialZip.None?
    ensures AllParse(urls, job.pathname, |urls|) && job.archiveError.Some? ==>
      ArchiveOutcome(query, timestamp, urls, job) == Aborted(ArchiveFailed(job.archiveError.value), Some(ZipName(query, timestamp)))
    ensures ArchiveOutcome(query, timestamp, urls, job).Done? <==> AllParse(urls, job.pathname, |urls|) && job.archiveError.None?
  {
    var bad := FirstBadUrl(urls, job.pathname, |urls|);
    if bad.Some? {
      assert urls[bad.value] in urls;
    }
  }

  /** An archive never holds more images than the page offered, nor more than a positive limit. */
  lemma ArchiveHonoursLimit(url: string, queryOf: string -> Option<string>, limit: Option<int>, index: nat, job: Job)
    requires RunJob(url, queryOf, limit, index, job).Done?
    ensures |RunJob(url, queryOf, limit, index, job).entries| <= |HttpSrcs(job.page.srcs)|
    ensures Truthy(limit) && limit.value > 0 ==> |RunJob(url, queryOf, limit, index, job).entries| <= limit.value
  {
    RunJobDone(url, queryOf, limit, index, job);
  }

  /**
   * The archive's entries are numbered 1, 2, ... over the saved images, whatever
   * downloads failed in between, each keeping its image's extension; no two
   * entries share a name.
   */
  lemma ArchiveEntries(url: string, queryOf: string -> Option<string>, limit: Option<int>, index: nat, job: Job)
    requires RunJob(url, queryOf, limit, index, job).Done?
    ensures var urls := LimitSlice(HttpSrcs(job.page.srcs), limit);
      var entries := RunJob(url, queryOf, limit, index, job).entries;
      AllParse(urls, job.pathname, |urls|)
      && |entries| == |SavedIndices(|urls|, job.fetchOk)|
      && forall j :: 0 <= j < |entries| ==>
           entries[j] == ImageName(j + 1, ImageExt(job.pathname(urls[SavedIndices(|urls|, job.fetchOk)[j]]).value))
    ensures var entries := RunJob(url, queryOf, limit, index, job).entries;
      forall j, k :: 0 <= j < k < |entries| ==> entries[j] != entries[k]
  {
    RunJobDone(url, queryOf, limit, index, job);
    var urls := LimitSlice(HttpSrcs(job.page.srcs), limit);
    var dir := ScratchDir(QueryLabel(queryOf(url)), job.now + index);
    var files := SavedFiles(dir, urls, job.pathname, job.fetchOk, |urls|);
    EntriesOfSavedFiles(dir, urls, job.pathname, job.fetchOk);
    ZipEntriesDistinct(files);
  }

  /** Entry `j` of the archive of the saved files is named after its position and its image's extension. */
  lemma EntriesOfSavedFiles(dir: string, urls: seq<string>, pathname: string -> Option<string>, fetchOk: nat -> bool)
    requires AllParse(urls, pathname, |urls|)
    ensures var entries := ZipEntries(SavedFiles(dir, urls, pathname, fetchOk, |urls|));
      |entries| == |SavedIndices(|urls|, fetchOk)|
      && forall j :: 0 <= j < |entries| ==>
           entries[j] == ImageName(j + 1, ImageExt(pathname(urls[SavedIndices(|urls|, fetchOk)[j]]).value))
  {
    forall j | 0 <= j < |SavedIndices(|urls|, fetchOk)|
      ensures ZipEntries(SavedFiles(dir, urls, pathname, fetchOk, |urls|))[j]
        == ImageName(j + 1, ImageExt(pathname(urls[SavedIndices(|urls|, fetchOk)[j]]).value))
    {
      EntryOfSavedFile(dir, urls, pathname, fetchOk, j);
    }
  }

  /** Entry `j` keeps the extension saved image `j` was stored with. */
  lemma EntryOfSavedFile(dir: string, urls: seq<string>, pathname: string -> Option<string>, fetchOk: nat -> bool, j: nat)
    requires AllParse(urls, pathname, |urls|) && j < |SavedIndices(|urls|, fetchOk)|
    ensures ZipEntries(SavedFiles(dir, urls, pathname, fetchOk, |urls|))[j]
      == ImageName(j + 1, ImageExt(pathname(urls[SavedIndices(|urls|, fetchOk)[j]]).value))
  {
    var files := SavedFiles(dir, urls, pathname, fetchOk, |urls|);
    var i := SavedIndices(|urls|, fetchOk)[j];
    var ext := ImageExt(pathname(urls[i]).value);
    SavedFileAt(dir, urls, pathname, fetchOk, |urls|, j);
    ExtnameOfSavedPath(dir, i, ext, files[j]);
    ZipEntryAt(files, j);
  }

  lemma ExtnameOfSavedPath(dir: string, i: nat, ext: string, file: string)
    requires IsExtension(ext) && file == ImagePath(dir, i, ext)
    ensures Extname(file) == ext
  {
    ExtnameOfImagePath(dir, i, ext);
  }

  /** The only archive a run can leave behind is named after the query label and the run's timestamp. */
  lemma RunJobWrittenZip(url: string, queryOf: string -> Option<string>, limit: Option<int>, index: nat, job: Job)
    ensures WrittenZip(RunJob(url, queryOf, limit, index, job)) <= {ZipName(QueryLabel(queryOf(url)), job.now + index)}
    ensures RunJob(url, queryOf, limit, index, job).Done? ==>
      RunJob(url, queryOf, limit, index, job).zipName == ZipName(QueryLabel(queryOf(url)), job.now + index)
  {
  }

  /** Runs of one session that start at the same time never write the same archive file. */
  lemma WrittenZipsDisjoint(url1: string, url2: string, queryOf: string -> Option<string>, limit: Option<int>,
                            i: nat, j: nat, job1: Job, job2: Job)
    requires i != j && job1.now == job2.now
    ensures WrittenZip(RunJob(url1, queryOf, limit, i, job1)) !! WrittenZip(RunJob(url2, queryOf, limit, j, job2))
  {
    var q1, q2 := QueryLabel(queryOf(url1)), QueryLabel(queryOf(url2));
    RunJobWrittenZip(url1, queryOf, limit, i, job1);
    RunJobWrittenZip(url2, queryOf, limit, j, job2);
    ZipNameDistinctTimes(q1, job1.now + i, q2, job2.now + j);
  }

  const BatchSize: nat := 10

  function NumBatches(n: nat): nat { (n + 9) / 10 }

  /** Batch `b` of `n` URLs: the indices `[10b, min(10b + 10, n))`. */
  function Batch(n: nat, b: nat): seq<nat>
  {
    Range(10 * b, Min(10 * b + 10, n))
  }

  function PlanPrefix(n: nat, k: nat): (plan: seq<seq<nat>>)
    ensures |plan| == k && forall b :: 0 <= b < k ==> plan[b] == Batch(n, b)
  {
    seq(k, b requires 0 <= b < k => Batch(n, b))
  }

  /** The batches `POST /process` runs, in order. */
  function BatchPlan(n: nat): seq<seq<nat>>
  {
    PlanPrefix(n, NumBatches(n))
  }

  function Flatten(batches: seq<seq<nat>>): seq<nat>
  {
    if batches == [] then [] else Flatten(batches[..|batches| - 1]) + batches[|batches| - 1]
  }

  lemma {:induction false} FlattenPlanPrefix(n: nat, k: nat)
    requires k <= NumBatches(n)
    ensures Flatten(PlanPrefix(n, k)) == Range(0, Min(10 * k, n))
  {
    if k > 0 {
      FlattenPlanPrefix(n, k - 1);
      assert PlanPrefix(n, k)[..k - 1] == PlanPrefix(n, k - 1);
      assert Range(0, Min(10 * (k - 1), n)) + Range(10 * (k - 1), Min(10 * k, n)) == Range(0, Min(10 * k, n));
    }
  }

  lemma PlanPrefixSnoc(n: nat, k: nat)
    ensures PlanPrefix(n, k + 1) == PlanPrefix(n, k) + [Batch(n, k)]
  {
  }

  /** One turn of the batch loop extends the plan by the next batch. */
  lemma PlanStep(n: nat, k: nat)
    requires 10 * k < n
    ensures PlanPrefix(n, k) + [Range(10 * k, Min(10 * k + BatchSize, n))] == PlanPrefix(n, k + 1)
    ensures k + 1 <= NumBatches(n)
  {
    PlanPrefixSnoc(n, k);
  }

  /** The batch loop stops exactly after the last batch of the plan. */
  lemma PlanComplete(n: nat, k: nat)
    requires k <= NumBatches(n) && 10 * k >= n
    ensures k == NumBatches(n)
  {
  }

  /** Every index in `[0, n)` is processed exactly once, in increasing order. */
  lemma BatchPlanCoversAll(n: nat)
    ensures Flatten(BatchPlan(n)) == Range(0, n)
  {
    FlattenPlanPrefix(n, NumBatches(n));
  }

  /** Each batch is non-empty, holds at most ten indices, and starts at a multiple of ten. */
  lemma BatchPlanShape(n: nat)
    ensures forall b :: 0 <= b < |BatchPlan(n)| ==>
      1 <= |BatchPlan(n)[b]| <= BatchSize && BatchPlan(n)[b][0] == 10 * b && BatchPlan(n)[b][0] % BatchSize == 0
  {
  }

  /** The outcomes of the runs of the URLs of a session, one per URL, in order. */
  function Outcomes(urls: seq<string>, queryOf: string -> Option<string>, limit: Option<int>, jobs: nat -> Job)
    : seq<JobOutcome>
  {
    seq(|urls|, i requires 0 <= i < |urls| => RunJob(urls[i], queryOf, limit, i, jobs(i)))
  }

  /** `outs[i]` is the outcome of the run of URL `i`. */
  ghost predicate OutcomeOf(outs: seq<JobOutcome>, urls: seq<string>, queryOf: string -> Option<string>, limit: Option<int>,
                            jobs: nat -> Job, i: nat)
  {
    i < |outs| && i < |urls| && outs[i] == RunJob(urls[i], queryOf, limit, i, jobs(i))
  }

  /** The archive files a sequence of runs leaves behind. */
  function ZipsWritten(outs: seq<JobOutcome>, k: nat): set<string>
    requires k <= |outs|
  {
    if k == 0 then {} else ZipsWritten(outs, k - 1) + WrittenZip(outs[k - 1])
  }

  /** The scratch directories the first `k` runs create and remove. */
  function ScratchDirs(urls: seq<string>, queryOf: string -> Option<string>, jobs: nat -> Job, k: nat): set<string>
    requires k <= |urls|
  {
    if k == 0 then {}
    else ScratchDirs(urls, queryOf, jobs, k - 1) + {ScratchDir(QueryLabel(queryOf(urls[k - 1])), jobs(k - 1).now + (k - 1))}
  }

  lemma ScratchDirsNext(urls: seq<string>, queryOf: string -> Option<string>, jobs: nat -> Job, k: nat)
    requires k < |urls|
    ensures ScratchDirs(urls, queryOf, jobs, k + 1)
      == ScratchDirs(urls, queryOf, jobs, k) + {ScratchDir(QueryLabel(queryOf(urls[k])), jobs(k).now + k)}
  {
  }

  /**
   * The state after the runs of the first `k` URLs: records `data` settled by the
   * outcomes `outs` from `orig` up to `k` and as in `orig` after it, and the output and
   * scratch directories changed from `outputs0` and `scratch0` by those runs.
   */
  ghost predicate RanUpTo(urls: seq<string>, data: seq<ProgressRecord>, outputs: set<string>, scratch: set<string>,
                          orig: seq<ProgressRecord>, outs: seq<JobOutcome>, outputs0: set<string>, scratch0: set<string>,
                          queryOf: string -> Option<string>, jobs: nat -> Job, k: nat)
  {
    |orig| == |urls| == |outs| == |data| && k <= |urls|
    && (forall i :: 0 <= i < k ==> data[i] == Settle(orig[i], outs[i]))
    && (forall i :: k <= i < |urls| ==> data[i] == orig[i])
    && outputs == outputs0 + ZipsWritten(outs, k)
    && scratch == scratch0 - ScratchDirs(urls, queryOf, jobs, k)
  }

  /**
   * The state after the runs of all URLs of a session: every record settled from
   * `orig` by its own run's outcome, the output directory grown by exactly the
   * archives the runs leave, and every run's scratch directory removed.
   */
  ghost predicate AllRun(urls: seq<string>, limit: Option<int>, queryOf: string -> Option<string>, jobs: nat -> Job,
                         orig: seq<ProgressRecord>, data: seq<ProgressRecord>,
                         outputs0: set<string>, outputs: set<string>, scratch0: set<string>, scratch: set<string>)
  {
    |orig| == |urls| == |data|
    && (forall i :: 0 <= i < |urls| ==> data[i] == Settle(orig[i], Outcomes(urls, queryOf, limit, jobs)[i]))
    && outputs == outputs0 + ZipsWritten(Outcomes(urls, queryOf, limit, jobs), |urls|)
    && scratch == scratch0 - ScratchDirs(urls, queryOf, jobs, |urls|)
  }

  lemma OutcomesBetween(urls: seq<string>, queryOf: string -> Option<string>, limit: Option<int>, jobs: nat -> Job,
                        start: nat, end: nat)
    requires end <= |urls|
    ensures |Outcomes(urls, queryOf, limit, jobs)| == |urls|
    ensures forall i :: start <= i < end ==> OutcomeOf(Outcomes(urls, queryOf, limit, jobs), urls, queryOf, limit, jobs, i)
  {
  }

  lemma RanAll(urls: seq<string>, limit: Option<int>, queryOf: string -> Option<string>, jobs: nat -> Job,
               orig: seq<ProgressRecord>, data: seq<ProgressRecord>,
               outputs0: set<string>, outputs: set<string>, scratch0: set<string>, scratch: set<string>)
    requires RanUpTo(urls, data, outputs, scratch, orig, Outcomes(urls, queryOf, limit, jobs), outputs0, scratch0, queryOf, jobs, |urls|)
    ensures AllRun(urls, limit, queryOf, jobs, orig, data, outputs0, outputs, scratch0, scratch)
  {
  }

  class Session {
    /** Where the upload middleware stored the URL list. */
    const filePath: string
    const urls: seq<string>
    const imageLimit: Option<int>
    var urlsData: seq<ProgressRecord>
    var completed: bool

    /** The records stay aligned with the URLs. */
    predicate Valid()
      reads this
    {
      |urlsData| == |urls| && forall i :: 0 <= i < |urls| ==> urlsData[i].url == urls[i]
    }

    constructor (filePath: string, urls: seq<string>, imageLimit: Option<int>, queryOf: string -> Option<string>)
      ensures Fresh(filePath, urls, imageLimit, queryOf)
    {
      this.filePath := filePath;
      this.urls := urls;
      this.imageLimit := imageLimit;
      urlsData := NewRecords(urls, queryOf);
      completed := false;
    }

    /** Record `i` differs from `before[i]` at most in its progress fields, and no other record changed. */
    ghost predicate Progressed(before: seq<ProgressRecord>, i: nat)
      reads this
    {
      i < |before| == |urlsData| && urlsData == before[i := urlsData[i]]
      && urlsData[i].url == before[i].url && urlsData[i].query == before[i].query
      && urlsData[i].zipFile == before[i].zipFile
    }

    /** The session as `POST /init-upload` creates it. */
    ghost predicate Fresh(filePath: string, urls: seq<string>, imageLimit: Option<int>, queryOf: string -> Option<string>)
      reads this
    {
      this.filePath == filePath && this.urls == urls && this.imageLimit == imageLimit
      && urlsData == NewRecords(urls, queryOf) && !completed && Valid()
    }

    /** One progress write to record `i`. */
    method Write(i: nat, status: Status, message: Message, percent: int)
      requires i < |urlsData|
      modifies this
      ensures urlsData == old(urlsData)[i := old(urlsData)[i].(status := status, message := message, percent := percent)]
      ensures Progressed(old(urlsData), i)
      ensures completed == old(completed)
    {
      urlsData := urlsData[i := urlsData[i].(status := status, message := message, percent := percent)];
    }

    /**
     * The page steps of a run: open the page, read the result count, scroll, and
     * extract the image URLs; returns the list cut to the image limit.
     */
    method LoadPage(i: nat, page: Page) returns (finalUrls: seq<string>)
      requires i < |urlsData|
      modifies this
      ensures finalUrls == LimitSlice(HttpSrcs(page.srcs), imageLimit)
      ensures Progressed(old(urlsData), i)
      ensures completed == old(completed)
    {
      Write(i, Processing, Opening, 10);
      Write(i, Processing, LoadingPage, 15);
      var totalResults := TotalResults(page.resultsText);
      var target := Target(totalResults, imageLimit);
      Write(i, Processing, FoundResults(totalResults, target, Truthy(imageLimit)), 20);
      var iterations, exit, percents := ServerScroll(page.counts, target);
      Write(i, Processing, LoadingImages(page.counts(iterations - 1), target), ScrollPercent(page.counts(iterations - 1), target));
      Write(i, Processing, Extracting, 60);
      var imageUrls := HttpSrcs(page.srcs);
      finalUrls := LimitSlice(imageUrls, imageLimit);
      Write(i, Processing, DownloadingImages(|finalUrls|), 65);
    }

    /** The download and archive steps of a run; an attempted archive is left in the output directory. */
    method DownloadAndArchive(i: nat, query: string, timestamp: nat, finalUrls: seq<string>, job: Job, storage: Storage)
      returns (outcome: JobOutcome)
      requires i < |urlsData|
      modifies this, storage
      ensures outcome == ArchiveOutcome(query, timestamp, finalUrls, job)
      ensures Progressed(old(urlsData), i)
      ensures completed == old(completed)
      ensures storage.outputs == old(storage.outputs) + WrittenZip(outcome)
      ensures storage.scratch == old(storage.scratch) && storage.uploads == old(storage.uploads)
      ensures storage.downloaded == old(storage.downloaded)
    {
      var downloads, reports := DownloadImages(ScratchDir(query, timestamp), finalUrls, job.pathname, job.fetchOk);
      if reports != [] {
        var last := reports[|reports| - 1];
        Write(i, Processing, Downloaded(last.done, last.total), ReportPercent(last));
      }
      match downloads
      case Failure(e) =>
        outcome := Aborted(e, None);
      case Success(files) =>
        Write(i, Processing, CreatingZip, 90);
        var zipName := ZipName(query, timestamp);
        storage.outputs := storage.outputs + {zipName};
        if job.archiveError.Some? {
          outcome := Aborted(ArchiveFailed(job.archiveError.value), Some(zipName));
        } else {
          outcome := Done(zipName, ZipEntries(files));
        }
    }

    /**
     * `processSingleUrl(urls[i], i, session)`: the record goes through the steps at
     * 5, 10, 15, 20, the scroll band, 60, 65, the download band and 90, and ends as
     * `Settle` says; the scratch directory is gone afterwards on both paths.
     */
    method ProcessUrl(i: nat, queryOf: string -> Option<string>, job: Job, storage: Storage) returns (outcome: JobOutcome)
      requires Valid() && i < |urls|
      modifies this, storage
      ensures outcome == RunJob(urls[i], queryOf, imageLimit, i, job)
      ensures Valid()
      ensures urlsData == old(urlsData)[i := Settle(old(urlsData)[i], outcome)]
      ensures completed == old(completed)
      ensures storage.outputs == old(storage.outputs) + WrittenZip(outcome)
      ensures storage.scratch == old(storage.scratch) - {ScratchDir(QueryLabel(queryOf(urls[i])), job.now + i)}
      ensures storage.uploads == old(storage.uploads) && storage.downloaded == old(storage.downloaded)
    {
      var query := QueryLabel(queryOf(urls[i]));
      var timestamp := job.now + i;
      var dir := ScratchDir(query, timestamp);
      Write(i, Processing, Launching, 5);
      storage.scratch := storage.scratch + {dir};
      if job.page.navError.Some? {
        outcome := Aborted(NavigationFailed(job.page.navError.value), None);
      } else {
        ghost var u1 := urlsData;
        var finalUrls := LoadPage(i, job.page);
        ghost var u2 := urlsData;
        outcome := DownloadAndArchive(i, query, timestamp, finalUrls, job, storage);
        RunJobLoaded(urls[i], queryOf, imageLimit, i, job);
        assert Progressed(u1, i) by {
          assert urlsData == u2[i := urlsData[i]];
          assert u2 == u1[i := u2[i]];
        }
      }
      storage.scratch := storage.scratch - {dir};
      SettleOverwritesProgress(urlsData[i], old(urlsData)[i], outcome);
      urlsData := urlsData[i := Settle(urlsData[i], outcome)];
    }

    /** The run of URL `k`, in the batch loop. */
    method Step(k: nat, queryOf: string -> Option<string>, jobs: nat -> Job, storage: Storage,
                ghost orig: seq<ProgressRecord>, ghost outs: seq<JobOutcome>,
                ghost outputs0: set<string>, ghost scratch0: set<string>)
      requires |urls| == |outs| && OutcomeOf(outs, urls, queryOf, imageLimit, jobs, k)
      requires Valid() && RanUpTo(urls, urlsData, storage.outputs, storage.scratch, orig, outs, outputs0, scratch0, queryOf, jobs, k)
      modifies this, storage
      ensures Valid()
      ensures RanUpTo(urls, urlsData, storage.outputs, storage.scratch, orig, outs, outputs0, scratch0, queryOf, jobs, k + 1)
      ensures completed == old(completed)
      ensures storage.uploads == old(storage.uploads) && storage.downloaded == old(storage.downloaded)
    {
      var outcome := ProcessUrl(k, queryOf, jobs(k), storage);
      ScratchDirsNext(urls, queryOf, jobs, k);
      assert urlsData[k] == Settle(orig[k], outs[k]);
    }

    /**
     * One batch: the URLs `[start, end)`. The source starts them together and
     * waits for all; each run writes only its own record, so they are taken one
     * after the other here.
     */
    method RunBatch(start: nat, end: nat, queryOf: string -> Option<string>, jobs: nat -> Job, storage: Storage,
                    ghost orig: seq<ProgressRecord>, ghost outs: seq<JobOutcome>,
                    ghost outputs0: set<string>, ghost scratch0: set<string>)
      requires start <= end <= |urls| == |outs|
      requires forall i :: start <= i < end ==> OutcomeOf(outs, urls, queryOf, imageLimit, jobs, i)
      requires Valid() && RanUpTo(urls, urlsData, storage.outputs, storage.scratch, orig, outs, outputs0, scratch0, queryOf, jobs, start)
      modifies this, storage
      ensures Valid()
      ensures RanUpTo(urls, urlsData, storage.outputs, storage.scratch, orig, outs, outputs0, scratch0, queryOf, jobs, end)
      ensures completed == old(completed)
      ensures storage.uploads == old(storage.uploads) && storage.downloaded == old(storage.downloaded)
    {
      var urlIndex: nat := start;
      while urlIndex < end
        invariant urlIndex <= end && Valid()
        invariant RanUpTo(urls, urlsData, storage.outputs, storage.scratch, orig, outs, outputs0, scratch0, queryOf, jobs, urlIndex)
        invariant completed == old(completed)
        invariant storage.uploads == old(storage.uploads) && storage.downloaded == old(storage.downloaded)
      {
        Step(urlIndex, queryOf, jobs, storage, orig, outs, outputs0, scratch0);
        urlIndex := urlIndex + 1;
      }
    }

    /**
     * The batch loop of `POST /process/:sessionId`: batches of ten consecutive
     * indices, each finished before the next starts; every record is settled from
     * its state before the call, so a second call re-runs every URL.
     */
    method RunBatches(queryOf: string -> Option<string>, jobs: nat -> Job, storage: Storage) returns (batches: seq<seq<nat>>)
      requires Valid()
      modifies this, storage
      ensures Valid()
      ensures batches == BatchPlan(|urls|)
      ensures AllRun(urls, imageLimit, queryOf, jobs, old(urlsData), urlsData,
                     old(storage.outputs), storage.outputs, old(storage.scratch), storage.scratch)
      ensures completed == old(completed)
      ensures storage.uploads == old(storage.uploads) && storage.downloaded == old(storage.downloaded)
    {
      var n := |urls|;
      ghost var orig := urlsData;
      ghost var outs := Outcomes(urls, queryOf, imageLimit, jobs);
      OutcomesBetween(urls, queryOf, imageLimit, jobs, 0, |urls|);
      batches := [];
      var batchStart: nat := 0;
      ghost var done: nat := 0;
      ghost var count: nat := 0;
      while batchStart < n
        invariant batchStart == 10 * count && count <= NumBatches(n)
        invariant batches == PlanPrefix(n, count)
        invariant done == Min(batchStart, n) && Valid()
        invariant RanUpTo(urls, urlsData, storage.outputs, storage.scratch, orig, outs, old(storage.outputs), old(storage.scratch), queryOf, jobs, done)
        invariant completed == old(completed)
        invariant storage.uploads == old(storage.uploads) && storage.downloaded == old(storage.downloaded)
      {
        var batchEnd: nat := Min(batchStart + BatchSize, n);
        RunBatch(batchStart, batchEnd, queryOf, jobs, storage, orig, outs, old(storage.outputs), old(storage.scratch));
        PlanStep(n, count);
        batches := batches + [Range(batchStart, batchEnd)];
        batchStart := batchStart + BatchSize;
        done := batchEnd;
        count := count + 1;
      }
      PlanComplete(n, count);
      RanAll(urls, imageLimit, queryOf, jobs, orig, urlsData, old(storage.outputs), storage.outputs, old(storage.scratch), storage.scratch);
    }

    /** The body of `POST /process/:sessionId` for this session: the batches, then the unlink of the upload. */
    method Run(queryOf: string -> Option<string>, jobs: nat -> Job, storage: Storage) returns (batches: seq<seq<nat>>)
      requires Valid()
      modifies this, storage
      ensures Valid()
      ensures batches == BatchPlan(|urls|)
      ensures AllRun(urls, imageLimit, queryOf, jobs, old(urlsData), urlsData,
                     old(storage.outputs), storage.outputs, old(storage.scratch), storage.scratch)
      ensures completed == (old(completed) || filePath in old(storage.uploads))
      ensures storage.uploads == old(storage.uploads) - {filePath}
      ensures storage.downloaded == old(storage.downloaded)
    {
      batches := RunBatches(queryOf, jobs, storage);
      if filePath in storage.uploads {
        storage.UnlinkUpload(filePath);
        completed := true;
      }
    }
  }

  /** An upload as the route sees it; the CSV parser's result is an oracle. */
  datatype Upload = Upload(
    path: string, originalName: string, content: string, csvUrls: Result<seq<string>, string>, limitField: Option<string>)

  /** `toLowerCase` on the ASCII letters of an extension. */
  function LowerAscii(s: string): (r: string)
    ensures |r| == |s|
  {
    if s == [] then [] else [AsciiLower(s[0])] + LowerAscii(s[1..])
  }

  /** The branch `parseUrlsFromFile` takes, by the lower-cased extension of the original name. */
  datatype FileKind = TxtFile | CsvFile | OtherFile

  function KindOf(originalName: string): FileKind
  {
    var ext := LowerAscii(Extname(originalName));
    if ext == ".txt" then TxtFile else if ext == ".csv" then CsvFile else OtherFile
  }

  /** `parseUrlsFromFile(path, extname(originalname).toLowerCase())`: the URLs, or the rejection message. */
  function ListedUrls(up: Upload): Result<seq<string>, string>
  {
    match KindOf(up.originalName)
    case TxtFile => Success(TxtUrls(Split(up.content, '\n')))
    case CsvFile => up.csvUrls
    case OtherFile => Failure("Unsupported file type")
  }

  /** `parseUrlsFromFile`: the URL lines of a `.txt` file, the parsed column of a `.csv` file, or a rejection. */
  method ReadUrls(up: Upload) returns (listed: Result<seq<string>, string>)
    ensures listed == ListedUrls(up)
  {
    match KindOf(up.originalName)
    case TxtFile =>
      var urls := ParseTxtUrls(up.content);
      listed := Success(urls);
    case CsvFile =>
      listed := up.csvUrls;
    case OtherFile =>
      listed := Failure("Unsupported file type");
  }

  datatype InitResponse = NoFile | Rejected(message: string) | NoValidUrls | Created(sessionId: string, urls: seq<string>)

  /**
   * The answer to an uploaded file: rejected with the parser's message, "no
   * valid URLs" for an empty list, or a new session keyed by the decimal time.
   */
  function InitAnswer(up: Upload, now: nat): InitResponse
  {
    AnswerTo(ListedUrls(up), now)
  }

  /** The answer to the result of reading an uploaded list. */
  function AnswerTo(listed: Result<seq<string>, string>, now: nat): InitResponse
  {
    match listed
    case Failure(message) => Rejected(message)
    case Success(urls) => if urls == [] then NoValidUrls else Created(Decimal(now), urls)
  }

  /** `uploads/` after an answer: only a file that listed no URL is unlinked. */
  function UploadsAfter(response: InitResponse, path: string, uploads0: set<string>): set<string>
  {
    if response == NoValidUrls then uploads0 - {path} else uploads0 + {path}
  }

  datatype ProcessResponse = ProcessSessionNotFound | ProcessingStarted

  datatype PollResponse = PollSessionNotFound | Snapshot(records: seq<ProgressRecord>, completed: bool)

  class SessionManager {
    /** `activeSessions`. */
    var sessions: map<string, Session>

    predicate Valid()
      reads this, sessions.Values
    {
      forall id :: id in sessions ==> sessions[id].Valid()
    }

    constructor ()
      ensures sessions == map[] && Valid()
    {
      sessions := map[];
    }

    /**
     * `POST /init-upload`: without a file nothing happens; otherwise the upload
     * is accepted as `Accept` says.
     */
    method InitUpload(file: Option<Upload>, now: nat, queryOf: string -> Option<string>, storage: Storage)
      returns (response: InitResponse)
      requires Valid()
      modifies this, storage
      ensures Valid()
      ensures file.None? ==> response == NoFile && sessions == old(sessions) && storage.uploads == old(storage.uploads)
      ensures file.Some? ==> response == InitAnswer(file.value, now)
      ensures file.Some? ==> storage.uploads == UploadsAfter(response, file.value.path, old(storage.uploads))
      ensures file.Some? ==> Registered(response, old(sessions), file.value.path, ImageLimit(file.value.limitField), queryOf)
      ensures storage.outputs == old(storage.outputs) && storage.scratch == old(storage.scratch)
      ensures storage.downloaded == old(storage.downloaded)
    {
      if file.None? {
        return NoFile;
      }
      response := Accept(file.value, now, queryOf, storage);
    }

    /**
     * The session map after an answer: a created session is stored under its id,
     * replacing any session under the same key, and holds one pending record per
     * URL; any other answer leaves the map as it was.
     */
    ghost predicate Registered(response: InitResponse, sessions0: map<string, Session>, filePath: string,
                               imageLimit: Option<int>, queryOf: string -> Option<string>)
      reads this, sessions.Values
    {
      if response.Created? then
        response.sessionId in sessions && sessions == sessions0[response.sessionId := sessions[response.sessionId]]
        && sessions[response.sessionId].Fresh(filePath, response.urls, imageLimit, queryOf)
      else
        sessions == sessions0
    }

    /**
     * What an accepted upload leads to, as `InitAnswer` and `UploadsAfter` say: a
     * rejected file stays stored, a file listing no URL is deleted, and otherwise a
     * session keyed by the decimal time is created.
     */
    method Accept(up: Upload, now: nat, queryOf: string -> Option<string>, storage: Storage) returns (response: InitResponse)
      requires Valid()
      modifies this, storage
      ensures Valid()
      ensures response == InitAnswer(up, now)
      ensures storage.uploads == UploadsAfter(response, up.path, old(storage.uploads))
      ensures Registered(response, old(sessions), up.path, ImageLimit(up.limitField), queryOf)
      ensures response.Created? ==> fresh(sessions[response.sessionId])
      ensures storage.outputs == old(storage.outputs) && storage.scratch == old(storage.scratch)
      ensures storage.downloaded == old(storage.downloaded)
    {
      var listed := ReadUrls(up);
      var answer := AnswerTo(listed, now);
      // The middleware stored the file before the handler ran; only an empty list unlinks it.
      storage.StoreUpload(up.path);
      if answer == NoValidUrls {
        storage.UnlinkUpload(up.path);
      }
      if answer.Created? {
        response := Register(answer.sessionId, up.path, answer.urls, ImageLimit(up.limitField), queryOf);
      } else {
        response := answer;
      }
    }

    /** The last step of an accepted upload that lists URLs: a new session stored under `id` in `activeSessions`. */
    method Register(id: string, filePath: string, urls: seq<string>, imageLimit: Option<int>, queryOf: string -> Option<string>)
      returns (response: InitResponse)
      requires Valid()
      modifies this
      ensures Valid()
      ensures response == Created(id, urls) && id in sessions && fresh(sessions[id])
      ensures sessions == old(sessions)[id := sessions[id]]
      ensures sessions[id].Fresh(filePath, urls, imageLimit, queryOf)
    {
      var session := new Session(filePath, urls, imageLimit, queryOf);
      sessions := sessions[id := session];
      response := Created(id, urls);
    }

    /** `GET /progress/:sessionId`. */
    method Poll(id: string) returns (response: PollResponse)
      ensures id in sessions ==> response == Snapshot(sessions[id].urlsData, sessions[id].completed)
      ensures id !in sessions ==> response == PollSessionNotFound
    {
      if id in sessions {
        var session := sessions[id];
        response := Snapshot(session.urlsData, session.completed);
      } else {
        response := PollSessionNotFound;
      }
    }

    /**
     * `POST /process/:sessionId`: runs every batch of the session, then deletes the
     * upload and marks the session completed. When the upload is already gone (a
     * second call), the unlink throws and `completed` is left as it was.
     */
    method Process(id: string, queryOf: string -> Option<string>, jobs: nat -> Job, storage: Storage)
      returns (response: ProcessResponse, batches: seq<seq<nat>>)
      requires Valid()
      modifies (if id in sessions then {sessions[id]} else {}), storage
      ensures Valid()
      ensures id !in sessions ==>
        response == ProcessSessionNotFound && batches == []
        && storage.outputs == old(storage.outputs) && storage.scratch == old(storage.scratch)
        && storage.uploads == old(storage.uploads) && storage.downloaded == old(storage.downloaded)
      ensures id in sessions ==>
        var s := sessions[id];
        response == ProcessingStarted && batches == BatchPlan(|s.urls|)
        && AllRun(s.urls, s.imageLimit, queryOf, jobs, old(s.urlsData), s.urlsData,
                  old(storage.outputs), storage.outputs, old(storage.scratch), storage.scratch)
        && s.completed == (old(s.completed) || s.filePath in old(storage.uploads))
        && storage.uploads == old(storage.uploads) - {s.filePath}
        && storage.downloaded == old(storage.downloaded)
    {
      if id !in sessions {
        return ProcessSessionNotFound, [];
      }
      response := ProcessingStarted;
      batches := sessions[id].Run(queryOf, jobs, storage);
    }

    /** The delayed `activeSessions.delete(sessionId)`, as an explicit step. */
    method Teardown(id: string)
      requires Valid()
      modifies this
      ensures sessions == old(sessions) - {id}
      ensures Valid()
    {
      sessions := sessions - {id};
    }
  }
}
