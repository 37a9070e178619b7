/**
 * Markdown output (spider/content/markdown.py): the header line put above a
 * converted page and the file name and path a page is saved under.
 *
 * The HTML-to-markdown conversion is a library call and arrives as its
 * result; MD5 is a parameter that yields 32 hexadecimal digits; the
 * directory creation and the write itself are not modelled.
 */
module Markdown {
  import opened Strings

  // ---------------------------------------------------------------------------
  // html_to_markdown

  const HeaderPrefix: string := "# Page from: "

  /** The converted text, preceded by a reference to the page when a URL is given. */
  function WithUrlHeader(url: string, converted: string): (r: string)
    ensures url == [] ==> r == converted
    ensures url != [] ==> |r| == |HeaderPrefix| + |url| + 2 + |converted|
    ensures url != [] ==> StartsWith(r, HeaderPrefix) && r[|HeaderPrefix|..|HeaderPrefix| + |url|] == url
    ensures url != [] ==> r[|HeaderPrefix| + |url|..|HeaderPrefix| + |url| + 2] == "\n\n"
    ensures EndsWith(r, converted)
  {
    if url == [] then converted
    else
      var r := HeaderPrefix + url + "\n\n" + converted;
      assert r[|HeaderPrefix| + |url| + 2..] == converted;
      r
  }

  // ---------------------------------------------------------------------------
  // save_markdown_file: the file name

  /** The characters `[a-zA-Z0-9_-]` keeps. */
  predicate Safe(c: char) {
    ('a' <= c <= 'z') || ('A' <= c <= 'Z') || ('0' <= c <= '9') || c == '_' || c == '-'
  }

  predicate IsHexDigit(c: char) {
    ('0' <= c <= '9') || ('a' <= c <= 'f')
  }

  /** What `re.sub(r"[^a-zA-Z0-9_-]", "_", ...)` makes of one character. */
  function SafeChar(c: char): (r: char)
    ensures Safe(r)
    ensures Safe(c) <==> r == c
    ensures !Safe(c) ==> r == '_'
  {
    if Safe(c) then c else '_'
  }

  /** `re.sub(r"[^a-zA-Z0-9_-]", "_", s)`: every other character becomes "_". */
  function Sanitize(s: string): (r: string)
    ensures |r| == |s|
    ensures forall i :: 0 <= i < |s| ==> r[i] == SafeChar(s[i])
  {
    if s == [] then [] else [SafeChar(s[0])] + Sanitize(s[1..])
  }

  const MaxNameLength: nat := 250
  const KeptPrefix: nat := 240

  /** From position `at` on, `r` spells `s` with every unsafe character replaced by "_". */
  predicate SanitizedAt(r: string, at: nat, s: string) {
    at + |s| <= |r| && forall i :: 0 <= i < |s| ==> r[at + i] == SafeChar(s[i])
  }

  /** The name before any shortening: sanitised path, "__" and the sanitised query if any, ".md". */
  function LongName(path: string, query: string): (r: string)
    ensures EndsWith(r, ".md")
    ensures forall i :: 0 <= i < |r| - 3 ==> Safe(r[i])
    ensures |r| == |RStripChar(path, '/')| + (if query == [] then 0 else 2 + |query|) + 3
    ensures SanitizedAt(r, 0, RStripChar(path, '/'))
    ensures query != [] ==> r[|RStripChar(path, '/')|..|RStripChar(path, '/')| + 2] == "__"
    ensures SanitizedAt(r, |RStripChar(path, '/')| + 2, query)
  {
    NameOf(RStripChar(path, '/'), query)
  }

  function NameOf(b: string, query: string): (r: string)
    ensures EndsWith(r, ".md")
    ensures forall i :: 0 <= i < |r| - 3 ==> Safe(r[i])
    ensures |r| == |b| + (if query == [] then 0 else 2 + |query|) + 3
    ensures SanitizedAt(r, 0, b)
    ensures query != [] ==> r[|b|..|b| + 2] == "__"
    ensures SanitizedAt(r, |b| + 2, query)
  {
    if query == [] then
      var r := Sanitize(b) + ".md";
      PathOnlyName(b, r);
      r
    else
      var r := Sanitize(b) + "__" + Sanitize(query) + ".md";
      PathAndQueryName(b, query, r);
      r
  }

  lemma PathOnlyName(b: string, r: string)
    requires r == Sanitize(b) + ".md"
    ensures EndsWith(r, ".md") && |r| == |b| + 3
    ensures forall i :: 0 <= i < |r| - 3 ==> Safe(r[i])
    ensures SanitizedAt(r, 0, b)
  {
    EndsWithAppend(Sanitize(b), ".md");
    PieceSanitized([], b, ".md", r);
  }

  lemma PathAndQueryName(b: string, query: string, r: string)
    requires r == Sanitize(b) + "__" + Sanitize(query) + ".md"
    ensures EndsWith(r, ".md") && |r| == |b| + 2 + |query| + 3
    ensures forall i :: 0 <= i < |r| - 3 ==> Safe(r[i])
    ensures SanitizedAt(r, 0, b) && r[|b|..|b| + 2] == "__" && SanitizedAt(r, |b| + 2, query)
  {
    var n, p := |b|, Sanitize(b) + "__";
    var q := p + Sanitize(query);
    EndsWithAppend(q, ".md");
    PieceSanitized(p, query, ".md", r);
    forall i | 0 <= i < n
      ensures r[i] == SafeChar(b[i])
    {
      assert r[i] == q[i] == p[i];
    }
    assert r[n] == q[n] == '_' && r[n + 1] == q[n + 1] == '_';
    assert r[n..n + 2] == "__";
    forall i | 0 <= i < |r| - 3
      ensures Safe(r[i])
    {
      if i < n {
        assert r[i] == SafeChar(b[i]);
      }
    }
  }

  /** A sanitised piece inside a name: spelled as `SanitizedAt` says, and every character safe. */
  lemma PieceSanitized(pre: string, s: string, post: string, r: string)
    requires r == pre + Sanitize(s) + post
    ensures SanitizedAt(r, |pre|, s)
    ensures forall i :: |pre| <= i < |pre| + |s| ==> Safe(r[i])
  {
    forall i | 0 <= i < |s|
      ensures r[|pre| + i] == Sanitize(s)[i]
    {
    }
  }

  lemma ShortenedName(name: string, hash: string, r: string)
    requires |name| > MaxNameLength && |hash| == 32
    requires forall i :: 0 <= i < 32 ==> IsHexDigit(hash[i])
    requires forall i :: 0 <= i < |name| - 3 ==> Safe(name[i])
    requires r == name[..KeptPrefix] + hash[..10] + ".md"
    ensures |r| == 253 && r[..KeptPrefix] == name[..KeptPrefix] && EndsWith(r, ".md")
    ensures forall i :: 0 <= i < |r| - 3 ==> Safe(r[i])
  {
    assert r[|r| - 3..] == ".md";
    forall i | 0 <= i < |r| - 3
      ensures Safe(r[i])
    {
      if i < KeptPrefix {
        assert r[i] == name[i];
      } else {
        assert r[i] == hash[i - KeptPrefix];
      }
    }
  }

  /**
   * The file name of a page: "index.md" for the root, otherwise the long name,
   * cut to 240 characters plus 10 digits of its MD5 and ".md" when longer than 250.
   */
  function FileName(path: string, query: string, md5: string -> string): (r: string)
    requires forall s :: |md5(s)| == 32 && forall i :: 0 <= i < 32 ==> IsHexDigit(md5(s)[i])
    ensures path == [] || path == "/" ==> r == "index.md"
    ensures path != [] && path != "/" && |LongName(path, query)| <= MaxNameLength ==> r == LongName(path, query)
    ensures path != [] && path != "/" && |LongName(path, query)| > MaxNameLength ==>
      |r| == 253 && r[..KeptPrefix] == LongName(path, query)[..KeptPrefix]
    ensures |r| <= 253 && EndsWith(r, ".md")
    ensures forall i :: 0 <= i < |r| - 3 ==> Safe(r[i])
  {
    if path == [] || path == "/" then
      var r := "index.md";
      assert r[|r| - 3..] == ".md";
      r
    else
      var name := LongName(path, query);
      if |name| > MaxNameLength then
        var hash := md5(name);
        var r := name[..KeptPrefix] + hash[..10] + ".md";
        ShortenedName(name, hash, r);
        r
      else name
  }

  /** A path ending in slashes names the same file as the path without them. */
  lemma TrailingSlashesIgnored(path: string, query: string, md5: string -> string)
    requires forall s :: |md5(s)| == 32 && forall i :: 0 <= i < 32 ==> IsHexDigit(md5(s)[i])
    requires path != [] && path != "/"
    ensures FileName(path + "/", query, md5) == FileName(path, query, md5)
  {
    assert RStripChar(path + "/", '/') == RStripChar(path, '/') by {
      assert (path + "/")[..|path + "/"| - 1] == path;
    }
  }

  /** A path made only of slashes, other than "/", yields the hidden file ".md". */
  lemma OnlySlashesGiveHiddenName(md5: string -> string)
    requires forall s :: |md5(s)| == 32 && forall i :: 0 <= i < 32 ==> IsHexDigit(md5(s)[i])
    ensures FileName("//", "", md5) == ".md"
  {
    assert RStripChar("//", '/') == [] by {
      assert "//"[..1] == "/";
      assert "/"[..0] == [];
    }
  }

  // ---------------------------------------------------------------------------
  // save_markdown_file: the directory

  /** `os.path.join(a, b)` on POSIX: an absolute `b` replaces `a`; a separator is added only when needed. */
  function PathJoin(a: string, b: string): (r: string)
    ensures StartsWith(b, "/") ==> r == b
    ensures EndsWith(r, b)
  {
    if StartsWith(b, "/") then b
    else if a == [] || EndsWith(a, "/") then
      var r := a + b;
      assert r[|r| - |b|..] == b;
      r
    else
      var r := a + "/" + b;
      assert r[|r| - |b|..] == b;
      r
  }

  /** Where a page is saved: "<domain>_files/<category>/<file name>". */
  function FilePath(domain: string, category: string, fileName: string): (r: string)
    ensures EndsWith(r, fileName)
  {
    PathJoin(PathJoin(domain + "_files", category), fileName)
  }

  /** Joining a directory without a trailing slash, a slash-free segment and a relative name. */
  lemma JoinLayout(dir: string, segment: string, name: string)
    requires dir != [] && dir[|dir| - 1] != '/'
    requires segment != [] && '/' !in segment
    requires name != [] && name[0] != '/'
    ensures PathJoin(PathJoin(dir, segment), name) == dir + "/" + segment + "/" + name
  {
    assert !EndsWith(dir, "/");
    assert !StartsWith(segment, "/") by {
      assert segment[0] in segment;
    }
    var d := dir + "/" + segment;
    assert !EndsWith(d, "/") by {
      assert d[|d| - 1] == segment[|segment| - 1];
      assert segment[|segment| - 1] in segment;
    }
    assert !StartsWith(name, "/");
  }

  /** A file name is never empty and never starts with a slash. */
  lemma FileNameRelative(path: string, query: string, md5: string -> string)
    requires forall s :: |md5(s)| == 32 && forall i :: 0 <= i < 32 ==> IsHexDigit(md5(s)[i])
    ensures FileName(path, query, md5) != [] && FileName(path, query, md5)[0] != '/'
  {
    var name := FileName(path, query, md5);
    assert |name| >= 3;
    if |name| > 3 {
      assert Safe(name[0]);
    } else {
      assert name == ".md" by { assert name[|name| - 3..] == ".md"; }
    }
  }

  /** For a category without slashes, the file lands in "<domain>_files/<category>/". */
  lemma FilePathLayout(domain: string, category: string, path: string, query: string, md5: string -> string)
    requires forall s :: |md5(s)| == 32 && forall i :: 0 <= i < 32 ==> IsHexDigit(md5(s)[i])
    requires category != [] && '/' !in category
    ensures FilePath(domain, category, FileName(path, query, md5))
            == domain + "_files/" + category + "/" + FileName(path, query, md5)
  {
    var dir := domain + "_files";
    assert dir[|dir| - 1] == 's';
    FileNameRelative(path, query, md5);
    JoinLayout(dir, category, FileName(path, query, md5));
    assert dir + "/" == domain + "_files/";
  }
}
