/**
 * The sequential download loops. In `processSingleUrl` every URL is parsed
 * (`new URL(imageUrl)`, which aborts the whole job when it throws), its image is
 * fetched, and a failed fetch is logged and skipped; a progress report is
 * written after every tenth success and after the last one. The stand-alone
 * scraper saves download `i` under a fixed name and skips failures the same way.
 *
 * Oracles: `pathname(u)` is the `pathname` of `new URL(u)`, `None` when the
 * constructor throws; `fetchOk(i)` says whether download `i` succeeded.
 */
module Downloads {
  import opened Common
  import opened Text
  import opened Naming
  import opened Targets

  /** The indices below `k` whose download succeeded, in increasing order. */
  function SavedIndices(k: nat, fetchOk: nat -> bool): (idx: seq<nat>)
    ensures |idx| <= k
    ensures forall j :: 0 <= j < |idx| ==> idx[j] < k && fetchOk(idx[j])
  {
    if k == 0 then [] else SavedIndices(k - 1, fetchOk) + (if fetchOk(k - 1) then [k - 1] else [])
  }

  /** The saved indices are strictly increasing, so no download is saved twice. */
  lemma {:induction false} SavedIndicesIncreasing(k: nat, fetchOk: nat -> bool, j1: nat, j2: nat)
    requires j1 < j2 < |SavedIndices(k, fetchOk)|
    ensures SavedIndices(k, fetchOk)[j1] < SavedIndices(k, fetchOk)[j2]
  {
    var prev := SavedIndices(k - 1, fetchOk);
    assert SavedIndices(k, fetchOk) == prev + (if fetchOk(k - 1) then [k - 1] else []);
    if j2 < |prev| {
      SavedIndicesIncreasing(k - 1, fetchOk, j1, j2);
    }
  }

  /** Every successful download below `k` is among the saved ones: a failure never stops the loop. */
  lemma {:induction false} SavedIndicesComplete(k: nat, fetchOk: nat -> bool, i: nat)
    requires i < k && fetchOk(i)
    ensures i in SavedIndices(k, fetchOk)
  {
    if i < k - 1 {
      SavedIndicesComplete(k - 1, fetchOk, i);
    }
    assert SavedIndices(k, fetchOk) == SavedIndices(k - 1, fetchOk) + (if fetchOk(k - 1) then [k - 1] else []);
  }

  predicate AllParse(urls: seq<string>, pathname: string -> Option<string>, k: nat)
    requires k <= |urls|
  {
    forall i :: 0 <= i < k ==> pathname(urls[i]).Some?
  }

  /** The first index below `k` whose URL does not parse. */
  function FirstBadUrl(urls: seq<string>, pathname: string -> Option<string>, k: nat): (r: Option<nat>)
    requires k <= |urls|
    ensures r.None? <==> AllParse(urls, pathname, k)
    ensures r.Some? ==> r.value < k && pathname(urls[r.value]).None? && AllParse(urls, pathname, r.value)
  {
    if k == 0 then None
    else match FirstBadUrl(urls, pathname, k - 1)
      case Some(i) => Some(i)
      case None => if pathname(urls[k - 1]).None? then Some(k - 1) else None
  }

  lemma {:induction false} FirstBadUrlIs(urls: seq<string>, pathname: string -> Option<string>, i: nat, k: nat)
    requires i < k <= |urls|
    requires AllParse(urls, pathname, i) && pathname(urls[i]).None?
    ensures FirstBadUrl(urls, pathname, k) == Some(i)
  {
    if k > i + 1 {
      FirstBadUrlIs(urls, pathname, i, k - 1);
    }
  }

  /** Where the loop stops: at the first URL that does not parse, or after the last one. */
  function StopIndex(urls: seq<string>, pathname: string -> Option<string>): (stop: nat)
    ensures stop <= |urls|
  {
    match FirstBadUrl(urls, pathname, |urls|)
    case Some(i) => i
    case None => |urls|
  }

  /** `path.join(urlTempDir, "image_" + (i + 1) + ext)` with `ext` taken from the URL's pathname, ".jpg" by default. */
  function SavedPath(dir: string, urls: seq<string>, pathname: string -> Option<string>, i: nat): string
    requires i < |urls| && pathname(urls[i]).Some?
  {
    ImagePath(dir, i, ImageExt(pathname(urls[i]).value))
  }

  /** `downloadedFiles` after the first `k` URLs. */
  function SavedFiles(dir: string, urls: seq<string>, pathname: string -> Option<string>, fetchOk: nat -> bool, k: nat)
    : (files: seq<string>)
    requires k <= |urls| && AllParse(urls, pathname, k)
    ensures |files| == |SavedIndices(k, fetchOk)|
  {
    if k == 0 then []
    else
      var init := SavedFiles(dir, urls, pathname, fetchOk, k - 1);
      init + (if fetchOk(k - 1) then [SavedPath(dir, urls, pathname, k - 1)] else [])
  }

  /** The `j`-th saved path belongs to the `j`-th successful download. */
  lemma {:induction false} SavedFileAt(dir: string, urls: seq<string>, pathname: string -> Option<string>, fetchOk: nat -> bool,
                                       k: nat, j: nat)
    requires k <= |urls| && AllParse(urls, pathname, k) && j < |SavedIndices(k, fetchOk)|
    ensures SavedFiles(dir, urls, pathname, fetchOk, k)[j] == SavedPath(dir, urls, pathname, SavedIndices(k, fetchOk)[j])
  {
    var prev := SavedIndices(k - 1, fetchOk);
    assert SavedIndices(k, fetchOk) == prev + (if fetchOk(k - 1) then [k - 1] else []);
    if j < |prev| {
      SavedFileAt(dir, urls, pathname, fetchOk, k - 1, j);
    }
  }

  /** A progress write during the download phase: "Downloaded done/total images". */
  datatype Report = Report(done: nat, total: nat)

  predicate ReportsAfter(n: nat, i: nat) { (i + 1) % 10 == 0 || i == n - 1 }

  /** The progress writes made while downloading the first `k` of `n` images. */
  function DownloadReports(n: nat, fetchOk: nat -> bool, k: nat): (reports: seq<Report>)
    requires k <= n
    ensures forall j :: 0 <= j < |reports| ==>
      1 <= reports[j].done <= k && reports[j].total == n && fetchOk(reports[j].done - 1)
      && ReportsAfter(n, reports[j].done - 1)
  {
    if k == 0 then []
    else
      DownloadReports(n, fetchOk, k - 1)
      + (if fetchOk(k - 1) && ReportsAfter(n, k - 1) then [Report(k, n)] else [])
  }

  /** The percent written with a report: `Math.floor(65 + (i / n) * 25)` for download `i = done - 1`. */
  function ReportPercent(r: Report): int
    requires 1 <= r.done <= r.total
  {
    DownloadPercent(r.done - 1, r.total)
  }

  /** The download phase: the saved files, or the error of the first URL that does not parse. */
  function DownloadOutcome(dir: string, urls: seq<string>, pathname: string -> Option<string>, fetchOk: nat -> bool)
    : Result<seq<string>, JobError>
  {
    match FirstBadUrl(urls, pathname, |urls|)
    case Some(i) => Failure(InvalidImageUrl(urls[i]))
    case None => Success(SavedFiles(dir, urls, pathname, fetchOk, |urls|))
  }

  /** One turn of the download loop on a URL that parses: the saved files and the reports grow as the functions say. */
  lemma DownloadStep(dir: string, urls: seq<string>, pathname: string -> Option<string>, fetchOk: nat -> bool, i: nat,
                     files: seq<string>, reports: seq<Report>)
    requires i < |urls| && AllParse(urls, pathname, i) && pathname(urls[i]).Some?
    requires files == SavedFiles(dir, urls, pathname, fetchOk, i) && reports == DownloadReports(|urls|, fetchOk, i)
    ensures AllParse(urls, pathname, i + 1)
    ensures files + (if fetchOk(i) then [ImagePath(dir, i, ImageExt(pathname(urls[i]).value))] else [])
      == SavedFiles(dir, urls, pathname, fetchOk, i + 1)
    ensures reports + (if fetchOk(i) && ((i + 1) % 10 == 0 || i == |urls| - 1) then [Report(i + 1, |urls|)] else [])
      == DownloadReports(|urls|, fetchOk, i + 1)
  {
  }

  /** The download loop of `processSingleUrl`. */
  method DownloadImages(dir: string, urls: seq<string>, pathname: string -> Option<string>, fetchOk: nat -> bool)
    returns (outcome: Result<seq<string>, JobError>, reports: seq<Report>)
    ensures outcome == DownloadOutcome(dir, urls, pathname, fetchOk)
    ensures reports == DownloadReports(|urls|, fetchOk, StopIndex(urls, pathname))
  {
    var files: seq<string> := [];
    reports := [];
    for i := 0 to |urls|
      invariant AllParse(urls, pathname, i)
      invariant files == SavedFiles(dir, urls, pathname, fetchOk, i)
      invariant reports == DownloadReports(|urls|, fetchOk, i)
    {
      var parsed := pathname(urls[i]);
      if parsed.None? {
        FirstBadUrlIs(urls, pathname, i, |urls|);
        outcome := Failure(InvalidImageUrl(urls[i]));
        return;
      }
      var path := ImagePath(dir, i, ImageExt(parsed.value));
      DownloadStep(dir, urls, pathname, fetchOk, i, files, reports);
      if fetchOk(i) {
        files := files + [path];
        if (i + 1) % 10 == 0 || i == |urls| - 1 {
          reports := reports + [Report(i + 1, |urls|)];
        }
      }
    }
    outcome := Success(files);
  }

  /** The download phase fails exactly when some URL does not parse, and then names the first such URL. */
  lemma DownloadFailsOnBadUrl(dir: string, urls: seq<string>, pathname: string -> Option<string>, fetchOk: nat -> bool)
    ensures DownloadOutcome(dir, urls, pathname, fetchOk).Failure? <==> exists i :: 0 <= i < |urls| && pathname(urls[i]).None?
    ensures DownloadOutcome(dir, urls, pathname, fetchOk).Failure? ==>
      exists i :: (0 <= i < |urls| && pathname(urls[i]).None? && AllParse(urls, pathname, i)
                   && DownloadOutcome(dir, urls, pathname, fetchOk).error == InvalidImageUrl(urls[i]))
  {
    var r := FirstBadUrl(urls, pathname, |urls|);
    if r.Some? {
      assert pathname(urls[r.value]).None?;
    }
  }

  /** Two images saved into one directory under different indices get different paths. */
  lemma ImagePathInjective(dir: string, i1: nat, e1: string, i2: nat, e2: string)
    requires IsExtension(e1) && IsExtension(e2)
    requires ImagePath(dir, i1, e1) == ImagePath(dir, i2, e2)
    ensures i1 == i2 && e1 == e2
  {
    var n1, n2 := ImageName(i1 + 1, e1), ImageName(i2 + 1, e2);
    assert ImagePath(dir, i1, e1)[|dir| + 1..] == n1;
    assert ImagePath(dir, i2, e2)[|dir| + 1..] == n2;
    ImageNameInjective(i1 + 1, e1, i2 + 1, e2);
  }

  /** Saved images get pairwise different paths, each keeping the extension of its URL. */
  lemma SavedFilesDistinct(dir: string, urls: seq<string>, pathname: string -> Option<string>, fetchOk: nat -> bool)
    requires AllParse(urls, pathname, |urls|)
    ensures var files := SavedFiles(dir, urls, pathname, fetchOk, |urls|);
      forall j1, j2 :: 0 <= j1 < j2 < |files| ==> files[j1] != files[j2]
    ensures var files := SavedFiles(dir, urls, pathname, fetchOk, |urls|);
      forall j :: 0 <= j < |files| ==> IsExtension(Extname(files[j]))
  {
    var files := SavedFiles(dir, urls, pathname, fetchOk, |urls|);
    var idx := SavedIndices(|urls|, fetchOk);
    forall j1, j2 | 0 <= j1 < j2 < |files|
      ensures files[j1] != files[j2]
    {
      SavedFileAt(dir, urls, pathname, fetchOk, |urls|, j1);
      SavedFileAt(dir, urls, pathname, fetchOk, |urls|, j2);
      SavedIndicesIncreasing(|urls|, fetchOk, j1, j2);
      if files[j1] == files[j2] {
        ImagePathInjective(dir, idx[j1], ImageExt(pathname(urls[idx[j1]]).value), idx[j2], ImageExt(pathname(urls[idx[j2]]).value));
      }
    }
    forall j | 0 <= j < |files|
      ensures IsExtension(Extname(files[j]))
    {
      SavedFileAt(dir, urls, pathname, fetchOk, |urls|, j);
      ExtnameOfImagePath(dir, idx[j], ImageExt(pathname(urls[idx[j]]).value));
    }
  }

  predicate DoneIncreases(reports: seq<Report>)
  {
    forall j1, j2 :: 0 <= j1 < j2 < |reports| ==> reports[j1].done < reports[j2].done
  }

  /** Reports come in download order. */
  lemma {:induction false} ReportsInOrder(n: nat, fetchOk: nat -> bool, k: nat)
    requires k <= n
    ensures DoneIncreases(DownloadReports(n, fetchOk, k))
  {
    if k > 0 {
      ReportsInOrder(n, fetchOk, k - 1);
      var init := DownloadReports(n, fetchOk, k - 1);
      var reports := DownloadReports(n, fetchOk, k);
      forall j1, j2 | 0 <= j1 < j2 < |reports|
        ensures reports[j1].done < reports[j2].done
      {
        assert j1 < |init|;
        assert reports[j1] == init[j1];
        assert init[j1].done <= k - 1;
        if j2 < |init| {
          assert reports[j2] == init[j2];
        } else {
          assert reports[j2].done == k;
        }
      }
    }
  }

  /** The percents written while downloading stay in the 65..89 band and never go down. */
  lemma ReportPercentsRise(n: nat, fetchOk: nat -> bool, k: nat)
    requires k <= n
    ensures forall j1, j2 :: 0 <= j1 < j2 < |DownloadReports(n, fetchOk, k)| ==>
      ReportPercent(DownloadReports(n, fetchOk, k)[j1]) <= ReportPercent(DownloadReports(n, fetchOk, k)[j2])
    ensures forall j :: 0 <= j < |DownloadReports(n, fetchOk, k)| ==> 65 <= ReportPercent(DownloadReports(n, fetchOk, k)[j]) <= 89
  {
    ReportsInOrder(n, fetchOk, k);
    var reports := DownloadReports(n, fetchOk, k);
    forall j1, j2 | 0 <= j1 < j2 < |reports|
      ensures ReportPercent(reports[j1]) <= ReportPercent(reports[j2])
    {
      assert reports[j1].done < reports[j2].done <= n;
      DownloadPercentMonotone(reports[j1].done - 1, reports[j2].done - 1, n);
    }
  }

  /** The last download, when it succeeds, is always reported, at the top of its band. */
  lemma LastDownloadReported(n: nat, fetchOk: nat -> bool)
    requires n >= 1 && fetchOk(n - 1)
    ensures DownloadReports(n, fetchOk, n) != []
    ensures DownloadReports(n, fetchOk, n)[|DownloadReports(n, fetchOk, n)| - 1] == Report(n, n)
  {
  }

  /**
   * The download loop of `scrapeImages`: every index is attempted in order,
   * download `i` is saved as `image_{i+1}_2000x_q100.jpg`, and a failure is skipped.
   */
  method ScrapeDownloads(n: nat, fetchOk: nat -> bool) returns (saved: seq<string>)
    ensures |saved| == |SavedIndices(n, fetchOk)|
    ensures forall j :: 0 <= j < |saved| ==> saved[j] == ScrapeFileName(SavedIndices(n, fetchOk)[j])
  {
    saved := [];
    for i := 0 to n
      invariant |saved| == |SavedIndices(i, fetchOk)|
      invariant forall j :: 0 <= j < |saved| ==> saved[j] == ScrapeFileName(SavedIndices(i, fetchOk)[j])
    {
      var filename := ScrapeFileName(i);
      if fetchOk(i) {
        saved := saved + [filename];
      }
    }
  }

  /** Every successful download of the scraper is saved under its own name. */
  lemma ScrapeSavesEverySuccess(n: nat, fetchOk: nat -> bool, i: nat)
    requires i < n && fetchOk(i)
    ensures exists j :: 0 <= j < |SavedIndices(n, fetchOk)| && SavedIndices(n, fetchOk)[j] == i
  {
    SavedIndicesComplete(n, fetchOk, i);
  }
}
