/** Shared value types: optional values, results, and the errors that end one URL's job. */
module Common {

  datatype Option<+T> = None | Some(value: T)

  datatype Result<+R, +E> = Success(value: R) | Failure(error: E)

  /** Why a job for one input URL ended in the `error` state. */
  datatype JobError =
    | NavigationFailed(message: string)   // browser launch, page load or the wait for `figure img` failed
    | InvalidImageUrl(url: string)        // `new URL(imageUrl)` threw inside the download loop
    | ArchiveFailed(message: string)      // the zip writer reported an error

  /**
   * What the browser observes on one search page: the navigation error (launch,
   * load or the wait for `figure img` failing), the text of the results indicator
   * (`None` when there is none), the image count seen at each scroll iteration, and
   * the `src` attribute of each `figure img` once scrolling is over (`None`: no attribute).
   */
  datatype Page = Page(navError: Option<string>, resultsText: Option<string>, counts: nat -> nat, srcs: seq<Option<string>>)

  function Min(a: int, b: int): int { if a <= b then a else b }

  function Max(a: int, b: int): int { if a <= b then b else a }

  /** The integers `lo, lo+1, ..., hi-1`. */
  function Range(lo: nat, hi: nat): (r: seq<nat>)
    ensures |r| == if lo <= hi then hi - lo else 0
    ensures forall k :: 0 <= k < |r| ==> r[k] == lo + k
  {
    if lo < hi then seq(hi - lo, k requires 0 <= k < hi - lo => lo + k) else []
  }
}
