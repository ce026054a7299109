/**
 * The two scroll-convergence loops: the one inside `processSingleUrl`, which
 * tests the target before the stall, and `autoScrollWithLoadMore` in the
 * stand-alone scraper, which tests the stall first, then counts the attempt,
 * then tests the target. The page is an oracle: `counts(k)` is the number of
 * `figure img` elements observed at iteration `k` (counting from 0).
 */
module Scroll {
  import opened Common
  import opened Targets

  const MaxAttempts: nat := 100
  const StallLimit: nat := 5
  /** The default of `autoScrollWithLoadMore`'s attempt bound. */
  const DefaultMaxAttempts: int := 100

  /** The count the loop compares iteration `k` with: 0 before the first iteration. */
  function Prev(counts: nat -> nat, k: nat): nat
  {
    if k == 0 then 0 else counts(k - 1)
  }

  /** `noNewImagesCount` after iteration `k`: it grows on a repeated count and drops to 0 otherwise. */
  function Stall(counts: nat -> nat, k: nat): nat
  {
    if counts(k) != Prev(counts, k) then 0
    else if k == 0 then 1
    else Stall(counts, k - 1) + 1
  }

  /** Iteration `k` ends either loop: the target is reached or five counts in a row repeated. */
  predicate Exits(counts: nat -> nat, target: int, k: nat)
  {
    counts(k) >= target || Stall(counts, k) >= StallLimit
  }

  /** Why a scroll loop stopped. */
  datatype ScrollExit = TargetReached | Stalled | AttemptsExhausted

  /** The stall counter is at least `m` exactly when the last `m` counts each repeated the one before. */
  lemma {:induction false} StallCharacterised(counts: nat -> nat, k: nat, m: nat)
    ensures Stall(counts, k) >= m <==>
      (m <= k + 1 && forall j {:trigger counts(j)} :: k + 1 - m <= j <= k ==> counts(j) == Prev(counts, j))
  {
    if m > 0 {
      if counts(k) == Prev(counts, k) && k > 0 {
        StallCharacterised(counts, k - 1, m - 1);
        if m <= k + 1 && forall j {:trigger counts(j)} :: k + 1 - m <= j <= k - 1 ==> counts(j) == Prev(counts, j) {
          assert forall j {:trigger counts(j)} :: k + 1 - m <= j <= k ==> counts(j) == Prev(counts, j);
        }
      }
    }
  }

  /** A stall exit needs five iterations at least, all showing the same count. */
  lemma StalledAfterFive(counts: nat -> nat, k: nat)
    requires Stall(counts, k) >= StallLimit
    ensures k >= StallLimit - 1
    ensures forall j :: k + 1 - StallLimit <= j <= k ==> counts(j) == Prev(counts, j)
  {
    StallCharacterised(counts, k, StallLimit);
  }

  /**
   * The loop of `processSingleUrl`: at most 100 iterations; after each observation
   * it writes the scroll percent as the source computes it (`None` for `NaN`),
   * stops if the count reached the target, and otherwise stops on the fifth
   * repeated count in a row. For a positive target every percent lies in the
   * 20..60 band of `ScrollPercent`.
   */
  method ServerScroll(counts: nat -> nat, target: int) returns (iterations: nat, exit: ScrollExit, percents: seq<Option<int>>)
    ensures 1 <= iterations <= MaxAttempts
    ensures forall k :: 0 <= k < iterations - 1 ==> !Exits(counts, target, k)
    ensures exit == TargetReached <==> counts(iterations - 1) >= target
    ensures exit == Stalled <==> counts(iterations - 1) < target && Stall(counts, iterations - 1) >= StallLimit
    ensures exit == AttemptsExhausted ==> iterations == MaxAttempts
    ensures |percents| == iterations
    ensures forall k :: 0 <= k < iterations ==> percents[k] == ScrollPercentAsWritten(counts(k), target)
    ensures target >= 1 ==> forall k :: 0 <= k < iterations ==> percents[k] == Some(ScrollPercent(counts(k), target))
  {
    var previous: nat := 0;
    var attempts: nat := 0;
    var noNew: nat := 0;
    percents := [];
    exit := AttemptsExhausted;
    while attempts < MaxAttempts
      invariant attempts <= MaxAttempts
      invariant previous == Prev(counts, attempts)
      invariant attempts > 0 ==> noNew == Stall(counts, attempts - 1)
      invariant attempts == 0 ==> noNew == 0
      invariant forall k :: 0 <= k < attempts ==> !Exits(counts, target, k)
      invariant |percents| == attempts
      invariant forall k :: 0 <= k < attempts ==> percents[k] == ScrollPercentAsWritten(counts(k), target)
    {
      var current := counts(attempts);
      percents := percents + [ScrollPercentAsWritten(current, target)];
      if current >= target {
        exit := TargetReached;
        iterations := attempts + 1;
        return;
      }
      if current == previous {
        noNew := noNew + 1;
        if noNew >= StallLimit {
          exit := Stalled;
          iterations := attempts + 1;
          return;
        }
      } else {
        noNew := 0;
      }
      previous := current;
      attempts := attempts + 1;
    }
    iterations := attempts;
    assert !Exits(counts, target, iterations - 1);
  }

  /**
   * `autoScrollWithLoadMore(page, targetImages, maxAttempts)`: returns the last
   * observed count (0 when no iteration ran), how many attempts were counted and
   * why the loop stopped. A stall exit leaves the attempt of its last iteration uncounted.
   */
  method AutoScrollWithLoadMore(counts: nat -> nat, targetImages: int, maxAttempts: int)
    returns (count: nat, attempts: nat, exit: ScrollExit)
    ensures attempts <= Max(maxAttempts, 0)
    ensures exit == Stalled ==>
      attempts < maxAttempts && Stall(counts, attempts) >= StallLimit
      && count == counts(attempts) == Prev(counts, attempts)
      && forall k :: 0 <= k < attempts ==> !Exits(counts, targetImages, k)
    ensures exit == TargetReached ==>
      attempts >= 1 && counts(attempts - 1) >= targetImages && Stall(counts, attempts - 1) < StallLimit
      && count == counts(attempts - 1)
      && forall k :: 0 <= k < attempts - 1 ==> !Exits(counts, targetImages, k)
    ensures exit == AttemptsExhausted ==>
      attempts == Max(maxAttempts, 0) && count == Prev(counts, attempts)
      && forall k :: 0 <= k < attempts ==> !Exits(counts, targetImages, k)
  {
    var previous: nat := 0;
    attempts := 0;
    var noNew: nat := 0;
    exit := AttemptsExhausted;
    while attempts < maxAttempts && noNew < StallLimit
      invariant attempts <= Max(maxAttempts, 0)
      invariant previous == Prev(counts, attempts)
      invariant attempts > 0 ==> noNew == Stall(counts, attempts - 1)
      invariant attempts == 0 ==> noNew == 0
      invariant noNew < StallLimit
      invariant forall k :: 0 <= k < attempts ==> !Exits(counts, targetImages, k)
    {
      var current := counts(attempts);
      if current == previous {
        noNew := noNew + 1;
        if noNew >= StallLimit {
          exit := Stalled;
          count := previous;
          return;
        }
      } else {
        noNew := 0;
      }
      assert noNew == Stall(counts, attempts);
      previous := current;
      attempts := attempts + 1;
      if current >= targetImages {
        exit := TargetReached;
        count := previous;
        return;
      }
    }
    count := previous;
  }
}
