/**
 * `scrapeImages`, the stand-alone scraper: it opens one fixed search page, reads
 * the result count, scrolls with that count as its target, collects the `http`
 * sources of the `figure img` elements and downloads each one under a fixed
 * name in `./output`, skipping failed downloads. A navigation failure ends the
 * run with its message; an empty source list ends it with nothing downloaded.
 */
module Scraper {
  import opened Common
  import opened Naming
  import opened UrlLists
  import opened Targets
  import opened Scroll
  import opened Downloads

  /** How a scraper run ends. */
  datatype ScrapeOutcome =
    | ScrapeFailed(message: string)
    | NoImages
    | Saved(files: seq<string>)

  /** The names the scraper saves when `n` downloads are attempted. */
  function ScrapedFiles(n: nat, fetchOk: nat -> bool): (files: seq<string>)
    ensures |files| == |SavedIndices(n, fetchOk)|
  {
    var idx := SavedIndices(n, fetchOk);
    seq(|idx|, j requires 0 <= j < |idx| => ScrapeFileName(idx[j]))
  }

  /**
   * One run against the page oracle. `target` is the result count the scroll
   * aimed at and `attempts` the attempts the scroll counted (both 0 after a
   * navigation failure).
   */
  method ScrapeImages(page: Page, fetchOk: nat -> bool) returns (outcome: ScrapeOutcome, target: nat, attempts: nat)
    ensures outcome.ScrapeFailed? <==> page.navError.Some?
    ensures outcome.ScrapeFailed? ==> outcome.message == page.navError.value && attempts == 0
    ensures page.navError.None? ==> target == TotalResults(page.resultsText) && attempts <= MaxAttempts
    ensures outcome.NoImages? <==> page.navError.None? && HttpSrcs(page.srcs) == []
    ensures outcome.Saved? ==> outcome.files == ScrapedFiles(|HttpSrcs(page.srcs)|, fetchOk)
  {
    target, attempts := 0, 0;
    if page.navError.Some? {
      outcome := ScrapeFailed(page.navError.value);
      return;
    }
    target := TotalResults(page.resultsText);
    var count, exit;
    count, attempts, exit := AutoScrollWithLoadMore(page.counts, target, DefaultMaxAttempts);
    var urls := HttpSrcs(page.srcs);
    if |urls| == 0 {
      outcome := NoImages;
      return;
    }
    var files := ScrapeDownloads(|urls|, fetchOk);
    outcome := Saved(files);
  }

  /** A run saves exactly the successful downloads, each under its own name. */
  lemma ScrapedFilesExact(n: nat, fetchOk: nat -> bool, i: nat)
    requires i < n
    ensures ScrapeFileName(i) in ScrapedFiles(n, fetchOk) <==> fetchOk(i)
  {
    var idx := SavedIndices(n, fetchOk);
    var files := ScrapedFiles(n, fetchOk);
    if fetchOk(i) {
      SavedIndicesComplete(n, fetchOk, i);
      var j :| 0 <= j < |idx| && idx[j] == i;
      assert files[j] == ScrapeFileName(i);
    } else if ScrapeFileName(i) in files {
      var j :| 0 <= j < |files| && files[j] == ScrapeFileName(i);
      ImageNameInjective(idx[j] + 1, "_2000x_q100.jpg", i + 1, "_2000x_q100.jpg");
      assert false;
    }
  }

  /** No two saved downloads share a file name, so none overwrites another. */
  lemma ScrapedFilesDistinct(n: nat, fetchOk: nat -> bool)
    ensures var files := ScrapedFiles(n, fetchOk);
      forall j1, j2 :: 0 <= j1 < j2 < |files| ==> files[j1] != files[j2]
  {
    var idx := SavedIndices(n, fetchOk);
    var files := ScrapedFiles(n, fetchOk);
    forall j1, j2 | 0 <= j1 < j2 < |files|
      ensures files[j1] != files[j2]
    {
      if files[j1] == files[j2] {
        SavedIndicesIncreasing(n, fetchOk, j1, j2);
        ImageNameInjective(idx[j1] + 1, "_2000x_q100.jpg", idx[j2] + 1, "_2000x_q100.jpg");
      }
    }
  }
}
