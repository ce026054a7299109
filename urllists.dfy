/**
 * The two URL lists the core builds: the `.txt` branch of `parseUrlsFromFile`
 * (one URL per line) and the image sources read from the page (`figure img`
 * `src` attributes that start with "http").
 */
module UrlLists {
  import opened Common
  import opened Text

  /** What the `.txt` parser keeps of one line: the trimmed line, when it starts with "http". */
  function KeptLine(line: string): seq<string>
  {
    var trimmed := Trim(line);
    if "http" <= trimmed then [trimmed] else []
  }

  /** The URLs the `.txt` parser collects from the given lines, in line order. */
  function TxtUrls(lines: seq<string>): (urls: seq<string>)
    ensures |urls| <= |lines|
    ensures forall k :: 0 <= k < |urls| ==> "http" <= urls[k]
  {
    if lines == [] then [] else TxtUrls(lines[..|lines| - 1]) + KeptLine(lines[|lines| - 1])
  }

  lemma TxtUrlsNext(lines: seq<string>, i: nat)
    requires i < |lines|
    ensures TxtUrls(lines[..i + 1]) == TxtUrls(lines[..i]) + KeptLine(lines[i])
  {
    assert lines[..i + 1][..i] == lines[..i];
  }

  /** Collecting from two blocks of lines is collecting from each, in order. */
  lemma {:induction false} TxtUrlsAppend(a: seq<string>, b: seq<string>)
    ensures TxtUrls(a + b) == TxtUrls(a) + TxtUrls(b)
    decreases |b|
  {
    if b != [] {
      var b' := b[..|b| - 1];
      assert (a + b)[..|a + b| - 1] == a + b';
      TxtUrlsAppend(a, b');
    } else {
      assert a + b == a;
    }
  }

  /** Every line whose trimmed text starts with "http" contributes exactly that text. */
  lemma {:induction false} TxtUrlsComplete(lines: seq<string>, j: nat)
    requires j < |lines| && "http" <= Trim(lines[j])
    ensures Trim(lines[j]) in TxtUrls(lines)
  {
    assert lines == lines[..j] + [lines[j]] + lines[j + 1..];
    TxtUrlsAppend(lines[..j] + [lines[j]], lines[j + 1..]);
    TxtUrlsAppend(lines[..j], [lines[j]]);
    assert TxtUrls([lines[j]]) == [Trim(lines[j])] by {
      assert [lines[j]][..0] == [];
    }
  }

  /** Every collected URL is the trimmed text of some line. */
  lemma {:induction false} TxtUrlsSound(lines: seq<string>, k: nat)
    requires k < |TxtUrls(lines)|
    ensures exists j :: 0 <= j < |lines| && TxtUrls(lines)[k] == Trim(lines[j])
  {
    var init := lines[..|lines| - 1];
    if k < |TxtUrls(init)| {
      TxtUrlsSound(init, k);
      var j :| 0 <= j < |init| && TxtUrls(init)[k] == Trim(init[j]);
      assert lines[j] == init[j];
    } else {
      assert TxtUrls(lines)[k] == Trim(lines[|lines| - 1]);
    }
  }

  /** No collected URL begins or ends with white space. */
  lemma {:induction false} TxtUrlsTrimmed(lines: seq<string>, k: nat)
    requires k < |TxtUrls(lines)|
    ensures Trimmed(TxtUrls(lines)[k])
  {
    var init := lines[..|lines| - 1];
    var kept := KeptLine(lines[|lines| - 1]);
    assert TxtUrls(lines) == TxtUrls(init) + kept;
    if k < |TxtUrls(init)| {
      TxtUrlsTrimmed(init, k);
      assert TxtUrls(lines)[k] == TxtUrls(init)[k];
    } else {
      assert TxtUrls(lines)[k] == kept[0] == Trim(lines[|lines| - 1]);
    }
  }

  /** The `.txt` branch of `parseUrlsFromFile`: split on "\n", trim, keep lines starting with "http". */
  method ParseTxtUrls(content: string) returns (urls: seq<string>)
    ensures urls == TxtUrls(Split(content, '\n'))
  {
    var lines := Split(content, '\n');
    urls := [];
    for i := 0 to |lines|
      invariant urls == TxtUrls(lines[..i])
    {
      var trimmed := Trim(lines[i]);
      if "http" <= trimmed {
        urls := urls + [trimmed];
      }
      TxtUrlsNext(lines, i);
    }
    assert lines[..|lines|] == lines;
  }

  /** What the page script keeps of one `src` attribute (`None`: the attribute is missing). */
  function KeptSrc(src: Option<string>): seq<string>
  {
    if src.Some? && "http" <= src.value then [src.value] else []
  }

  /** The image URLs read from the page: the `src` values that start with "http", in DOM order. */
  function HttpSrcs(srcs: seq<Option<string>>): (urls: seq<string>)
    ensures |urls| <= |srcs|
    ensures forall k :: 0 <= k < |urls| ==> "http" <= urls[k]
  {
    if srcs == [] then [] else HttpSrcs(srcs[..|srcs| - 1]) + KeptSrc(srcs[|srcs| - 1])
  }

  /** Filtering two runs of elements is filtering each, in order: DOM order is kept. */
  lemma {:induction false} HttpSrcsAppend(a: seq<Option<string>>, b: seq<Option<string>>)
    ensures HttpSrcs(a + b) == HttpSrcs(a) + HttpSrcs(b)
    decreases |b|
  {
    if b != [] {
      var b' := b[..|b| - 1];
      assert (a + b)[..|a + b| - 1] == a + b';
      HttpSrcsAppend(a, b');
    } else {
      assert a + b == a;
    }
  }

  /** Every element whose `src` starts with "http" is kept. */
  lemma {:induction false} HttpSrcsComplete(srcs: seq<Option<string>>, j: nat)
    requires j < |srcs| && srcs[j].Some? && "http" <= srcs[j].value
    ensures srcs[j].value in HttpSrcs(srcs)
  {
    assert srcs == srcs[..j] + [srcs[j]] + srcs[j + 1..];
    HttpSrcsAppend(srcs[..j] + [srcs[j]], srcs[j + 1..]);
    HttpSrcsAppend(srcs[..j], [srcs[j]]);
    assert HttpSrcs([srcs[j]]) == [srcs[j].value] by {
      assert [srcs[j]][..0] == [];
    }
  }

  /** Every kept URL is the `src` of some element. */
  lemma {:induction false} HttpSrcsSound(srcs: seq<Option<string>>, k: nat)
    requires k < |HttpSrcs(srcs)|
    ensures exists j :: 0 <= j < |srcs| && srcs[j] == Some(HttpSrcs(srcs)[k])
  {
    var init := srcs[..|srcs| - 1];
    if k < |HttpSrcs(init)| {
      HttpSrcsSound(init, k);
      var j :| 0 <= j < |init| && init[j] == Some(HttpSrcs(init)[k]);
      assert srcs[j] == init[j];
    } else {
      assert HttpSrcs(srcs)[k] == srcs[|srcs| - 1].value;
    }
  }
}
