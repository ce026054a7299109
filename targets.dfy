/**
 * The numbers `processSingleUrl` derives before and while it works on a page:
 * the result count read from the page, the per-URL image limit, the scroll
 * target, the second application of the limit, and the percent bands written
 * into the progress record.
 */
module Targets {
  import opened Common
  import opened Text

  const DefaultTotalResults: nat := 500

  /** The end of the run of digits that starts at `p`. */
  function DigitsEnd(t: string, p: nat): (q: nat)
    requires p <= |t|
    ensures p <= q <= |t|
    ensures forall k :: p <= k < q ==> IsDigit(t[k])
    ensures q == |t| || !IsDigit(t[q])
    decreases |t| - p
  {
    if p < |t| && IsDigit(t[p]) then DigitsEnd(t, p + 1) else p
  }

  /** The end of the run of white space that starts at `p`. */
  function SpacesEnd(t: string, p: nat): (q: nat)
    requires p <= |t|
    ensures p <= q <= |t|
    ensures forall k :: p <= k < q ==> IsJsSpace(t[k])
    ensures q == |t| || !IsJsSpace(t[q])
    decreases |t| - p
  {
    if p < |t| && IsJsSpace(t[p]) then SpacesEnd(t, p + 1) else p
  }

  /**
   * A match of `/(\d+)\s+results?/` that starts at position `p`: a maximal run of
   * digits, a non-empty maximal run of white space, then "result". Backtracking to
   * a shorter run can never succeed, so the maximal runs decide the match.
   */
  function MatchAt(t: string, p: nat): Option<nat>
    requires p <= |t|
  {
    var q := DigitsEnd(t, p);
    var w := SpacesEnd(t, q);
    if q > p && w > q && "result" <= t[w..] then Some(DigitsValue(t[p..q])) else None
  }

  /**
   * The leftmost match at or after position `p`, as `String.prototype.match` finds
   * it; a match begins with a digit, so other positions are passed over at once.
   */
  function ResultsCountFrom(t: string, p: nat): Option<nat>
    requires p <= |t|
    decreases |t| - p
  {
    if p == |t| then None
    else if !IsDigit(t[p]) then ResultsCountFrom(t, p + 1)
    else match MatchAt(t, p)
      case Some(n) => Some(n)
      case None => ResultsCountFrom(t, p + 1)
  }

  /**
   * The page's result count: the number in the first "N result(s)" of the
   * indicator's text, or 500 when the indicator is missing (`None`) or has no match.
   */
  function TotalResults(indicator: Option<string>): (total: nat)
    ensures indicator.None? ==> total == DefaultTotalResults
    ensures indicator.Some? && ResultsCountFrom(indicator.value, 0).None? ==> total == DefaultTotalResults
    ensures indicator.Some? && ResultsCountFrom(indicator.value, 0).Some? ==> total == ResultsCountFrom(indicator.value, 0).value
  {
    match indicator
    case None => DefaultTotalResults
    case Some(t) =>
      match ResultsCountFrom(t, 0)
      case Some(n) => n
      case None => DefaultTotalResults
  }

  /** No match starts at a position that does not hold a digit. */
  lemma NoMatchAtNonDigit(t: string, p: nat)
    requires p <= |t| && (p == |t| || !IsDigit(t[p]))
    ensures MatchAt(t, p).None?
  {
    assert DigitsEnd(t, p) == p;
  }

  /** The search from `p` finds nothing exactly when no position from `p` on starts a match. */
  lemma {:induction false} ResultsCountFromNone(t: string, p: nat)
    requires p <= |t|
    ensures ResultsCountFrom(t, p).None? <==> forall k :: p <= k <= |t| ==> MatchAt(t, k).None?
    decreases |t| - p
  {
    if p == |t| {
      NoMatchAtNonDigit(t, p);
    } else {
      if !IsDigit(t[p]) {
        NoMatchAtNonDigit(t, p);
      }
      assert ResultsCountFrom(t, p).None? <==> MatchAt(t, p).None? && ResultsCountFrom(t, p + 1).None?;
      ResultsCountFromNone(t, p + 1);
    }
  }

  /** A search from `p` that finds a number finds the match at the leftmost position that starts one. */
  lemma {:induction false} ResultsCountFromLeftmost(t: string, p: nat)
    requires p <= |t| && ResultsCountFrom(t, p).Some?
    ensures exists k :: p <= k < |t| && MatchAt(t, k) == ResultsCountFrom(t, p) && forall j :: p <= j < k ==> MatchAt(t, j).None?
    decreases |t| - p
  {
    if !IsDigit(t[p]) || MatchAt(t, p).None? {
      if !IsDigit(t[p]) {
        NoMatchAtNonDigit(t, p);
      }
      ResultsCountFromLeftmost(t, p + 1);
      var k :| p + 1 <= k < |t| && MatchAt(t, k) == ResultsCountFrom(t, p + 1) && forall j :: p + 1 <= j < k ==> MatchAt(t, j).None?;
      assert forall j :: p <= j < k ==> MatchAt(t, j).None?;
    }
  }

  /**
   * The indicator's count is 500 when no position of its text starts an
   * "N result(s)" match, and otherwise the number of the leftmost match.
   */
  lemma TotalResultsFirstMatch(t: string)
    ensures (forall k :: 0 <= k <= |t| ==> MatchAt(t, k).None?) ==> TotalResults(Some(t)) == DefaultTotalResults
    ensures (exists k :: 0 <= k <= |t| && MatchAt(t, k).Some?) ==>
      exists k :: 0 <= k < |t| && MatchAt(t, k) == Some(TotalResults(Some(t))) && forall j :: 0 <= j < k ==> MatchAt(t, j).None?
  {
    ResultsCountFromNone(t, 0);
    if ResultsCountFrom(t, 0).Some? {
      ResultsCountFromLeftmost(t, 0);
    }
  }

  /** A search that starts before a stretch of non-digits finds what a search after the stretch finds. */
  lemma {:induction false} SkipNonDigits(t: string, p: nat, start: nat)
    requires p <= start <= |t|
    requires forall k :: p <= k < start ==> !IsDigit(t[k])
    ensures ResultsCountFrom(t, p) == ResultsCountFrom(t, start)
    decreases start - p
  {
    if p < start {
      SkipNonDigits(t, p + 1, start);
    }
  }

  lemma {:induction false} DigitsEndIs(t: string, p: nat, q: nat)
    requires p <= q <= |t|
    requires forall k :: p <= k < q ==> IsDigit(t[k])
    requires q == |t| || !IsDigit(t[q])
    ensures DigitsEnd(t, p) == q
    decreases q - p
  {
    if p < q {
      DigitsEndIs(t, p + 1, q);
    }
  }

  lemma {:induction false} SpacesEndIs(t: string, p: nat, q: nat)
    requires p <= q <= |t|
    requires forall k :: p <= k < q ==> IsJsSpace(t[k])
    requires q == |t| || !IsJsSpace(t[q])
    ensures SpacesEnd(t, p) == q
    decreases q - p
  {
    if p < q {
      SpacesEndIs(t, p + 1, q);
    }
  }

  /** A match at `p` when the digits run over `[p, q)`, the white space over `[q, w)`, and "result" follows. */
  lemma MatchAtFound(t: string, p: nat, q: nat, w: nat)
    requires p < q < w <= |t|
    requires forall k :: p <= k < q ==> IsDigit(t[k])
    requires !IsDigit(t[q])
    requires forall k :: q <= k < w ==> IsJsSpace(t[k])
    requires w == |t| || !IsJsSpace(t[w])
    requires "result" <= t[w..]
    ensures AllDigits(t[p..q])
    ensures MatchAt(t, p) == Some(DigitsValue(t[p..q]))
  {
    DigitsEndIs(t, p, q);
    SpacesEndIs(t, q, w);
  }

  /** A number followed by " result" matches where the number starts. */
  lemma MatchAtDecimal(t: string, p: nat, d: string, rest: string)
    requires p <= |t| && |d| >= 1 && AllDigits(d)
    requires t[p..] == d + (" result" + rest)
    ensures MatchAt(t, p) == Some(DigitsValue(d))
  {
    var q := p + |d|;
    RenderedParts(t, p, d, rest);
    assert forall k :: q <= k < q + 1 ==> IsJsSpace(t[k]);
    MatchAtFound(t, p, q, q + 1);
    var digits := t[p..q];
    assert digits == d;
  }

  /** Where the digits, the space and the word sit in a text that continues with `d + " result" + rest` at `p`. */
  lemma RenderedParts(t: string, p: nat, d: string, rest: string)
    requires p <= |t| && AllDigits(d)
    requires t[p..] == d + (" result" + rest)
    ensures p + |d| + 1 < |t|
    ensures forall k :: p <= k < p + |d| ==> IsDigit(t[k])
    ensures t[p..p + |d|] == d
    ensures t[p + |d|] == ' ' && t[p + |d| + 1] == 'r'
    ensures !IsDigit(t[p + |d|]) && IsJsSpace(t[p + |d|]) && !IsJsSpace(t[p + |d| + 1])
    ensures t[p + |d| + 1..] == "result" + rest && "result" <= t[p + |d| + 1..]
  {
    var e := t[p..];
    assert forall k :: p <= k < p + |d| ==> t[k] == e[k - p] == d[k - p];
    assert e[..|d|] == d;
    assert e[|d|..] == " result" + rest;
    assert ("result" + rest)[..6] == "result";
  }

  /** An indicator reading "<text without digits><n> result..." yields `n`. */
  lemma TotalResultsOfRendered(prefix: string, n: nat, rest: string)
    requires forall k :: 0 <= k < |prefix| ==> !IsDigit(prefix[k])
    ensures TotalResults(Some(prefix + Decimal(n) + " result" + rest)) == n
  {
    var d := Decimal(n);
    var tail := d + (" result" + rest);
    var t := prefix + d + " result" + rest;
    assert t == prefix + tail;
    DropPrefix(prefix, tail);
    SkipNonDigits(t, 0, |prefix|);
    MatchAtDecimal(t, |prefix|, d, rest);
    DecimalRoundTrip(n);
  }

  lemma DropPrefix(a: string, b: string)
    ensures (a + b)[|a|..] == b
    ensures forall k :: 0 <= k < |a| ==> (a + b)[k] == a[k]
  {
  }

  /** A thousands separator is not a digit: "1,234 results" reads as 234. */
  lemma ThousandsSeparatorReadsLastGroup()
    ensures TotalResults(Some("1,234 results")) == 234
  {
    var t := "1,234 results";
    SeparatorBreaksFirstGroup(t);
    SeparatorLastGroupMatches(t);
    assert ResultsCountFrom(t, 2) == Some(234);
    assert ResultsCountFrom(t, 1) == ResultsCountFrom(t, 2);
    assert ResultsCountFrom(t, 0) == ResultsCountFrom(t, 1);
  }

  /** In "1,234 results" the leading "1" is followed by the comma, so no match starts there. */
  lemma SeparatorBreaksFirstGroup(t: string)
    requires t == "1,234 results"
    ensures MatchAt(t, 0).None?
  {
    DigitsEndIs(t, 0, 1);
    SpacesEndIs(t, 1, 1);
  }

  /** In "1,234 results" the group after the comma is a match reading 234. */
  lemma SeparatorLastGroupMatches(t: string)
    requires t == "1,234 results"
    ensures MatchAt(t, 2) == Some(234)
  {
    assert t[2..] == "234" + (" result" + "s");
    MatchAtDecimal(t, 2, "234", "s");
    assert DigitsValue("234") == 234 by {
      assert "234"[..2] == "23" && "23"[..1] == "2" && "2"[..0] == [];
    }
  }

  /**
   * `req.body.imageLimit ? parseInt(req.body.imageLimit) : null`; `None` stands
   * for both `null` (missing or empty field) and `NaN` (no digits).
   */
  function ImageLimit(field: Option<string>): (limit: Option<int>)
    ensures field.None? || field.value == [] ==> limit.None?
  {
    if field.None? || field.value == [] then None else ParseInt(field.value)
  }

  /**
   * A field with no digit after its leading white space and optional sign, such
   * as "abc", is stored as no limit: `parseInt` gives `NaN`, which is falsy.
   */
  lemma ImageLimitNonNumeric(field: string)
    requires var t := TrimStart(field);
      var u := if |t| > 0 && (t[0] == '-' || t[0] == '+') then t[1..] else t;
      u == [] || !IsDigit(u[0])
    ensures ImageLimit(Some(field)).None? && !Truthy(ImageLimit(Some(field)))
  {
    ParseIntNoDigits(field);
  }

  /** A limit typed as a number is stored as that number; "0" is stored as 0, which reads as unlimited. */
  lemma ImageLimitOfNumber(n: nat)
    ensures ImageLimit(Some(Decimal(n))) == Some(n)
    ensures ImageLimit(Some("-" + Decimal(n))) == Some(-(n as int))
    ensures Truthy(ImageLimit(Some(Decimal(n)))) <==> n != 0
  {
    ParseIntDecimal(n);
    ParseIntNegativeDecimal(n);
  }

  /** JavaScript truthiness of the stored limit: `null`, `NaN` and 0 all mean "unlimited". */
  predicate Truthy(limit: Option<int>) { limit.Some? && limit.value != 0 }

  /** `imageLimit ? Math.min(totalResults, imageLimit) : totalResults`. */
  function Target(totalResults: nat, limit: Option<int>): (target: int)
    ensures target <= totalResults
    ensures Truthy(limit) ==> target <= limit.value
    ensures target == totalResults || (Truthy(limit) && target == limit.value)
  {
    if Truthy(limit) then Min(totalResults, limit.value) else totalResults
  }

  /** `s.slice(0, end)`: a negative `end` counts back from the end of `s`. */
  function SliceTo<T>(s: seq<T>, end: int): (r: seq<T>)
    ensures r <= s
    ensures end >= 0 ==> |r| == Min(end, |s|)
    ensures end < 0 ==> |r| == Max(|s| + end, 0)
  {
    s[..if end < 0 then Max(|s| + end, 0) else Min(end, |s|)]
  }

  /** `imageLimit ? imageUrls.slice(0, imageLimit) : imageUrls`. */
  function LimitSlice(urls: seq<string>, limit: Option<int>): (r: seq<string>)
    ensures r <= urls
    ensures !Truthy(limit) ==> r == urls
    ensures Truthy(limit) && limit.value > 0 ==> |r| == Min(limit.value, |urls|)
    ensures Truthy(limit) && limit.value < 0 ==> |r| == Max(|urls| + limit.value, 0)
  {
    if Truthy(limit) then SliceTo(urls, limit.value) else urls
  }

  /**
   * The scroll-phase percent exactly as the source computes it,
   * `Math.min(Math.floor(20 + (current / target) * 40), 60)`, in exact arithmetic;
   * `None` is `NaN` (0 / 0). A zero target with a positive count gives `Infinity`,
   * which the `min` turns into 60.
   */
  function ScrollPercentAsWritten(current: nat, target: int): Option<int>
  {
    if target > 0 then Some(Min(20 + (40 * current) / target, 60))
    else if target == 0 then (if current == 0 then None else Some(60))
    else Some(Min(20 - (40 * current - target - 1) / (-target), 60))
  }

  /** A limit of "-3" gives the target -3, and thirty images then give -380 percent. */
  lemma NegativeLimitPercent()
    ensures Target(500, ImageLimit(Some("-3"))) == -3
    ensures ScrollPercentAsWritten(30, -3) == Some(-380)
  {
    MinusThreeLimit();
    assert (40 * 30 - (-3) - 1) / 3 == 400;
  }

  lemma MinusThreeLimit()
    ensures ImageLimit(Some("-3")) == Some(-3)
  {
    var d := Decimal(3);
    assert d == [DigitChar(3)];
    ParseIntNegativeDecimal(3);
    assert "-" + d == "-3";
  }

  /** A page reporting "0 results", before any image is counted, gives `NaN`. */
  lemma ZeroResultsPercent()
    ensures TotalResults(Some("0 results")) == 0 && Target(0, None) == 0
    ensures ScrollPercentAsWritten(0, 0) == None
  {
    assert Decimal(0) == "0";
    TotalResultsOfRendered("", 0, "s");
    assert "" + Decimal(0) + " result" + "s" == "0 results";
  }

  /** The percent written during scrolling can leave the 20..60 band, or be `NaN`. */
  lemma ScrollPercentLeavesBand()
    ensures Target(500, ImageLimit(Some("-3"))) == -3
    ensures ScrollPercentAsWritten(30, -3) == Some(-380)
    ensures TotalResults(Some("0 results")) == 0 && Target(0, None) == 0
    ensures ScrollPercentAsWritten(0, 0) == None
  {
    NegativeLimitPercent();
    ZeroResultsPercent();
  }

  /**
   * The scroll-phase percent the model uses: the source's formula whenever the
   * target is positive, and the top of the band when the target is zero or
   * negative (the count has then already reached the target).
   */
  function ScrollPercent(current: nat, target: int): (p: int)
    ensures 20 <= p <= 60
    ensures target >= 1 ==> ScrollPercentAsWritten(current, target) == Some(p)
    ensures current >= target ==> p == 60
  {
    if target <= 0 then 60
    else
      ScrollQuotientBounds(current, target);
      Min(20 + (40 * current) / target, 60)
  }

  /** The quotient in the scroll percent is never negative, and is at least 40 once the count reaches the target. */
  lemma ScrollQuotientBounds(current: nat, target: int)
    requires target >= 1
    ensures (40 * current) / target >= 0
    ensures current >= target ==> (40 * current) / target >= 40
  {
    if current >= target {
      DivAtLeast(40 * current, target, 40);
    }
  }

  lemma MulNonNegative(d: nat, y: int)
    ensures y >= 0 ==> d * y >= 0
  {
  }

  lemma DivMonotone(a: nat, b: nat, d: nat)
    requires a <= b && d > 0
    ensures a / d <= b / d
  {
    var qa, qb := a / d, b / d;
    assert d * qa + a % d == a;
    assert d * qb + b % d == b;
    assert d * (qa - qb - 1) == d * qa - d * qb - d;
    MulNonNegative(d, qa - qb - 1);
  }

  lemma DivAtLeast(x: nat, n: nat, m: nat)
    requires n > 0 && x >= n * m
    ensures x / n >= m
  {
    var q := x / n;
    assert n * q + x % n == x;
    assert n * (m - 1 - q) == n * m - n - n * q;
    MulNonNegative(n, m - 1 - q);
  }

  lemma DivBelow(x: nat, n: nat, m: nat)
    requires n > 0 && x < n * m
    ensures x / n < m
  {
    var q := x / n;
    assert n * q + x % n == x;
    assert n * (q - m) == n * q - n * m;
    MulNonNegative(n, q - m);
  }

  /** While the page's count does not drop, the scroll percent does not drop. */
  lemma ScrollPercentMonotone(a: nat, b: nat, target: int)
    requires a <= b
    ensures ScrollPercent(a, target) <= ScrollPercent(b, target)
  {
    if target > 0 {
      DivMonotone(40 * a, 40 * b, target);
    }
  }

  /** `65 + Math.floor((i / n) * 25)`, written after download `i` of `n`. */
  function DownloadPercent(i: nat, n: nat): (p: int)
    requires i < n
    ensures 65 <= p <= 89
  {
    DivBelow(25 * i, n, 25);
    65 + (25 * i) / n
  }

  /** Later downloads never report a smaller percent. */
  lemma DownloadPercentMonotone(i: nat, j: nat, n: nat)
    requires i <= j < n
    ensures DownloadPercent(i, n) <= DownloadPercent(j, n)
  {
    DivMonotone(25 * i, 25 * j, n);
  }
}
