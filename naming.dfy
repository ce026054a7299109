/**
 * Names the server derives: the sanitised query label (`extractQueryFromUrl`),
 * `path.extname`, the per-image file names, the zip entry names, the zip file
 * name and the scratch directory name.
 */
module Naming {
  import opened Common
  import opened Text

  predicate IsAsciiAlnum(c: char) { IsAsciiLetter(c) || IsDigit(c) }

  /** The characters a sanitised label is made of: `[a-z0-9_]`. */
  predicate IsLabelChar(c: char) { 'a' <= c <= 'z' || IsDigit(c) || c == '_' }

  function AsciiLower(c: char): char
  {
    if 'A' <= c <= 'Z' then ((c as int) + 32) as char else c
  }

  /** One character of `replace(/[^a-z0-9]/gi, "_").toLowerCase()`. */
  function SanitizeChar(c: char): char
  {
    if IsAsciiAlnum(c) then AsciiLower(c) else '_'
  }

  /**
   * `query.replace(/[^a-z0-9]/gi, "_").toLowerCase()`: every character outside
   * `[A-Za-z0-9]` becomes `_`, letters are lower-cased, nothing moves.
   */
  function Sanitize(q: string): (r: string)
    ensures |r| == |q|
    ensures forall k :: 0 <= k < |r| ==> IsLabelChar(r[k])
    ensures forall k :: 0 <= k < |q| ==> (r[k] == '_' <==> !IsAsciiAlnum(q[k]))
    ensures forall k :: 0 <= k < |q| && IsAsciiAlnum(q[k]) ==> r[k] == AsciiLower(q[k])
    ensures forall k :: 0 <= k < |q| && IsDigit(q[k]) ==> r[k] == q[k]
  {
    seq(|q|, k requires 0 <= k < |q| => SanitizeChar(q[k]))
  }

  /** Sanitising a label again changes nothing. */
  lemma SanitizeIdempotent(q: string)
    ensures Sanitize(Sanitize(q)) == Sanitize(q)
  {
    var r := Sanitize(q);
    forall k | 0 <= k < |r|
      ensures SanitizeChar(r[k]) == r[k]
    {
      assert IsLabelChar(r[k]);
    }
  }

  const DefaultLabel := "images"

  /**
   * `extractQueryFromUrl` applied to the value of the `query` parameter; `None`
   * stands for a URL that does not parse or has no `query` parameter.
   */
  function QueryLabel(query: Option<string>): (name: string)
    ensures forall k :: 0 <= k < |name| ==> IsLabelChar(name[k])
    ensures query.None? || query.value == [] ==> name == DefaultLabel
    ensures query.Some? && query.value != [] ==> |name| == |query.value|
  {
    if query.Some? && query.value != [] then Sanitize(query.value) else DefaultLabel
  }

  /**
   * A present, non-empty query is labelled by its sanitised form: `_` exactly at
   * its non-alphanumeric characters, its ASCII letters lower-cased, its digits kept.
   */
  lemma QueryLabelSanitises(query: Option<string>)
    requires query.Some? && query.value != []
    ensures var name, q := QueryLabel(query), query.value;
      |name| == |q|
      && (forall k :: 0 <= k < |q| ==> (name[k] == '_' <==> !IsAsciiAlnum(q[k])))
      && (forall k :: 0 <= k < |q| && IsAsciiAlnum(q[k]) ==> name[k] == AsciiLower(q[k]))
  {
    assert QueryLabel(query) == Sanitize(query.value);
  }

  function LastIndex(s: string, c: char): (r: Option<nat>)
    ensures r.None? ==> c !in s
    ensures r.Some? ==> r.value < |s| && s[r.value] == c && c !in s[r.value + 1..]
  {
    if s == [] then None
    else if s[|s| - 1] == c then Some(|s| - 1)
    else
      var r := LastIndex(s[..|s| - 1], c);
      assert s == s[..|s| - 1] + [s[|s| - 1]];
      if r.Some? then assert s[r.value + 1..] == s[..|s| - 1][r.value + 1..] + [s[|s| - 1]]; r
      else r
  }

  lemma LastIndexIs(s: string, c: char, k: nat)
    requires k < |s| && s[k] == c && c !in s[k + 1..]
    ensures LastIndex(s, c) == Some(k)
  {
    assert c in s;
  }

  function StripTrailingSlashes(p: string): (r: string)
    ensures r == [] || r[|r| - 1] != '/'
    ensures r <= p
  {
    if p != [] && p[|p| - 1] == '/' then StripTrailingSlashes(p[..|p| - 1]) else p
  }

  /** The last path component, trailing slashes ignored. */
  function Basename(p: string): (b: string)
    ensures '/' !in b
  {
    var q := StripTrailingSlashes(p);
    match LastIndex(q, '/')
    case None => q
    case Some(k) => q[k + 1..]
  }

  /** What `path.extname` can return when it does not return "": a dot and no further dot or slash. */
  predicate IsExtension(e: string)
  {
    |e| >= 1 && e[0] == '.' && '/' !in e && '.' !in e[1..]
  }

  /**
   * `path.extname` (POSIX): from the last dot of the last component to its end,
   * or "" when that component has no dot, starts with its only relevant dot, or is "..".
   */
  function Extname(p: string): (e: string)
    ensures e == [] || IsExtension(e)
  {
    var b := Basename(p);
    match LastIndex(b, '.')
    case None => []
    case Some(k) => if k == 0 || b == ".." then [] else b[k..]
  }

  /**
   * What `path.extname` means: a non-empty result is the suffix of the last path
   * component that starts at its last dot, that dot not being the component's
   * first character and the component not being ".."; the result is empty exactly
   * when the component has no dot after its first character, or is "..".
   */
  lemma ExtnameCharacterised(p: string)
    ensures var b, e := Basename(p), Extname(p);
      e != [] ==> |e| < |b| && b[|b| - |e|..] == e && e[0] == '.' && '.' !in e[1..] && b != ".."
    ensures var b := Basename(p);
      Extname(p) == [] <==> b == ".." || forall k :: 0 < k < |b| ==> b[k] != '.'
  {
    var b := Basename(p);
    match LastIndex(b, '.')
    case None =>
    case Some(k) =>
      if k > 0 && b != ".." {
        assert b[|b| - |b[k..]|..] == b[k..];
      }
      if k == 0 {
        forall j | 0 < j < |b|
          ensures b[j] != '.'
        {
          assert b[j] in b[k + 1..];
        }
      }
  }

  /** `path.extname(pathname) || ".jpg"`. */
  function ImageExt(pathname: string): (e: string)
    ensures IsExtension(e)
    ensures Extname(pathname) != [] ==> e == Extname(pathname)
    ensures Extname(pathname) == [] ==> e == ".jpg"
  {
    var e := Extname(pathname);
    if e == [] then ".jpg" else e
  }

  /** `image_${n}${suffix}`. */
  function ImageName(n: nat, suffix: string): string
  {
    "image_" + Decimal(n) + suffix
  }

  /** A suffix that cannot be read as more digits of the number before it. */
  predicate SeparatesNumber(suffix: string) { suffix == [] || !IsDigit(suffix[0]) }

  /** Image names with different numbers differ, whatever their suffixes. */
  lemma ImageNameInjective(a: nat, e1: string, b: nat, e2: string)
    requires SeparatesNumber(e1) && SeparatesNumber(e2)
    requires ImageName(a, e1) == ImageName(b, e2)
    ensures a == b && e1 == e2
  {
    var d1, d2 := Decimal(a), Decimal(b);
    var s1, s2 := d1 + e1, d2 + e2;
    assert s1 == ImageName(a, e1)[6..] && s2 == ImageName(b, e2)[6..];
    assert forall k :: 0 <= k < |d1| ==> IsDigit(s1[k]);
    assert forall k :: 0 <= k < |d2| ==> IsDigit(s2[k]);
    assert |s1| > |d1| ==> !IsDigit(s1[|d1|]);
    assert |s2| > |d2| ==> !IsDigit(s2[|d2|]);
    assert |d1| == |d2|;
    assert d1 == s1[..|d1|] && d2 == s2[..|d2|];
    DecimalInjective(a, b);
  }

  /** `path.join(dir, "image_" + (i + 1) + ext)`. */
  function ImagePath(dir: string, i: nat, ext: string): string
  {
    dir + "/" + ImageName(i + 1, ext)
  }

  /** `path.extname` of a downloaded image's path gives back the extension it was saved with. */
  lemma ExtnameOfImagePath(dir: string, i: nat, ext: string)
    requires IsExtension(ext)
    ensures Extname(ImagePath(dir, i, ext)) == ext
  {
    var name := ImageName(i + 1, ext);
    var p := ImagePath(dir, i, ext);
    var d := Decimal(i + 1);
    assert name == "image_" + d + ext;
    assert p[|p| - 1] == ext[|ext| - 1];
    assert StripTrailingSlashes(p) == p;
    assert p[|dir|] == '/';
    assert p[|dir| + 1..] == name;
    assert '/' !in name by {
      forall k | 0 <= k < |name| ensures name[k] != '/' {
        if k >= 6 + |d| { assert name[k] == ext[k - 6 - |d|]; }
        else if k >= 6 { assert IsDigit(d[k - 6]); }
      }
    }
    LastIndexIs(p, '/', |dir|);
    assert Basename(p) == name;
    var k := 6 + |d|;
    assert name[k] == '.';
    assert name[k + 1..] == ext[1..];
    LastIndexIs(name, '.', k);
    assert name[k..] == ext;
  }

  /** `image_${index + 1}${path.extname(file)}` for each archived file, in order. */
  function ZipEntries(files: seq<string>): (entries: seq<string>)
    ensures |entries| == |files|
  {
    seq(|files|, k requires 0 <= k < |files| => ImageName(k + 1, Extname(files[k])))
  }

  lemma ZipEntryAt(files: seq<string>, k: nat)
    requires k < |files|
    ensures ZipEntries(files)[k] == ImageName(k + 1, Extname(files[k]))
  {
  }

  /** No two files of one archive get the same entry name. */
  lemma ZipEntriesDistinct(files: seq<string>)
    ensures forall j, k :: 0 <= j < k < |files| ==> ZipEntries(files)[j] != ZipEntries(files)[k]
  {
    forall j, k | 0 <= j < k < |files|
      ensures ZipEntries(files)[j] != ZipEntries(files)[k]
    {
      ZipEntryDiffers(files, j, k);
    }
  }

  lemma ZipEntryDiffers(files: seq<string>, j: nat, k: nat)
    requires j < k < |files|
    ensures ZipEntries(files)[j] != ZipEntries(files)[k]
  {
    var e1, e2 := Extname(files[j]), Extname(files[k]);
    assert SeparatesNumber(e1) && SeparatesNumber(e2);
    if ImageName(j + 1, e1) == ImageName(k + 1, e2) {
      ImageNameInjective(j + 1, e1, k + 1, e2);
    }
  }

  /** `${query}_${timestamp}.zip`. */
  function ZipName(query: string, timestamp: nat): string
  {
    query + "_" + Decimal(timestamp) + ".zip"
  }

  /** The label and the timestamp can be read back from a zip name. */
  lemma ZipNameInjective(q1: string, t1: nat, q2: string, t2: nat)
    requires ZipName(q1, t1) == ZipName(q2, t2)
    ensures q1 == q2 && t1 == t2
  {
    var n := ZipName(q1, t1);
    var d1, d2 := Decimal(t1), Decimal(t2);
    assert n == q1 + ("_" + d1 + ".zip") == q2 + ("_" + d2 + ".zip");
    assert forall j :: |q1| < j < |n| ==> n[j] != '_' by {
      forall j | |q1| < j < |n| ensures n[j] != '_' {
        assert n[j] == (d1 + ".zip")[j - |q1| - 1];
        if j - |q1| - 1 < |d1| { assert IsDigit(d1[j - |q1| - 1]); }
      }
    }
    assert forall j :: |q2| < j < |n| ==> n[j] != '_' by {
      forall j | |q2| < j < |n| ensures n[j] != '_' {
        assert n[j] == (d2 + ".zip")[j - |q2| - 1];
        if j - |q2| - 1 < |d2| { assert IsDigit(d2[j - |q2| - 1]); }
      }
    }
    assert n[|q1|] == '_' && n[|q2|] == '_';
    assert |q1| == |q2|;
    assert q1 == n[..|q1|] && q2 == n[..|q2|];
    assert d1 == n[|q1| + 1..|n| - 4] && d2 == n[|q2| + 1..|n| - 4];
    DecimalInjective(t1, t2);
  }

  /** Archives named at different times have different names. */
  lemma ZipNameDistinctTimes(q1: string, t1: nat, q2: string, t2: nat)
    requires t1 != t2
    ensures ZipName(q1, t1) != ZipName(q2, t2)
  {
    if ZipName(q1, t1) == ZipName(q2, t2) {
      ZipNameInjective(q1, t1, q2, t2);
    }
  }

  const TempRoot := "temp_downloads"

  /** `path.join("./temp_downloads", `${query}_${timestamp}`)`. */
  function ScratchDir(query: string, timestamp: nat): string
  {
    TempRoot + "/" + query + "_" + Decimal(timestamp)
  }

  /** The file name scrape.js saves download `i` under. */
  function ScrapeFileName(i: nat): string
  {
    ImageName(i + 1, "_2000x_q100.jpg")
  }
}
