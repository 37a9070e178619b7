/**
 * URL string logic (spider/utils/url.py): `normalize_url`, `is_webpage_url`
 * and the href clean-up, domain match and path-prefix filter applied to each
 * anchor inside `get_page_links`.
 *
 * `urllib.parse.urlparse` is not modelled: a URL arrives already split into
 * the six components of section 3 of RFC 3986 as Python returns them, and the
 * link filter receives the decomposition as a function parameter.
 */
module Url {
  import opened Wrappers
  import opened Strings

  /** The result of `urlparse`. */
  datatype SplitUrl = SplitUrl(scheme: string, netloc: string, path: string,
                               params: string, query: string, fragment: string)

  // ---------------------------------------------------------------------------
  // normalize_url

  /** The path part of `normalize_url`: a leading "/" is ensured, one trailing "/" dropped. */
  function NormalizePath(p: string): (r: string)
    ensures r != [] && r[0] == '/'
    ensures p == [] || p == "/" ==> r == "/"
    ensures StartsWith(p, "/") && !EndsWith(p, "/") ==> r == p
    ensures StartsWith(p, "/") && EndsWith(p, "/") && |p| > 1 ==> r == p[..|p| - 1]
    ensures p != [] && !StartsWith(p, "/") && !EndsWith(p, "/") ==> r == "/" + p
    ensures p != [] && !StartsWith(p, "/") && EndsWith(p, "/") ==> r == "/" + p[..|p| - 1]
  {
    if p == [] then "/"
    else
      var q := if StartsWith(p, "/") then p else "/" + p;
      if EndsWith(q, "/") && |q| > 1 then q[..|q| - 1] else q
  }

  function NormalizeUrl(u: SplitUrl, keepFragments: bool, keepQuery: bool): (r: string)
    ensures StartsWith(r, u.scheme + "://" + u.netloc)
    ensures |r| > |u.scheme + "://" + u.netloc| && r[|u.scheme + "://" + u.netloc|] == '/'
    ensures StartsWith(r, u.scheme + "://" + u.netloc + NormalizePath(u.path))
  {
    var prefix := u.scheme + "://" + u.netloc;
    var withPath := prefix + NormalizePath(u.path);
    var withQuery := if keepQuery && u.query != [] then withPath + "?" + u.query else withPath;
    var r := if keepFragments && u.fragment != [] then withQuery + "#" + u.fragment else withQuery;
    assert r[..|prefix|] == prefix;
    assert r[|prefix|] == NormalizePath(u.path)[0];
    assert r[..|withPath|] == withPath;
    r
  }

  /**
   * The `;params` never survive; a kept non-empty query follows the path as
   * "?" + query and a kept non-empty fragment comes last as "#" + fragment.
   */
  lemma NormalizeUrlOptionalParts(u: SplitUrl, keepFragments: bool, keepQuery: bool, params: string)
    ensures NormalizeUrl(u.(params := params), keepFragments, keepQuery) == NormalizeUrl(u, keepFragments, keepQuery)
    ensures !keepFragments && !keepQuery ==>
      NormalizeUrl(u, false, false) == u.scheme + "://" + u.netloc + NormalizePath(u.path)
    ensures keepQuery && u.query != [] && !(keepFragments && u.fragment != []) ==>
      EndsWith(NormalizeUrl(u, keepFragments, keepQuery), "?" + u.query)
    ensures keepFragments && u.fragment != [] ==>
      EndsWith(NormalizeUrl(u, keepFragments, keepQuery), "#" + u.fragment)
    ensures keepQuery && u.query != [] && keepFragments && u.fragment != [] ==>
      NormalizeUrl(u, keepFragments, keepQuery)
        == u.scheme + "://" + u.netloc + NormalizePath(u.path) + "?" + u.query + "#" + u.fragment
    ensures keepQuery && u.query != [] && !(keepFragments && u.fragment != []) ==>
      NormalizeUrl(u, keepFragments, keepQuery) == u.scheme + "://" + u.netloc + NormalizePath(u.path) + "?" + u.query
    ensures !(keepQuery && u.query != []) && keepFragments && u.fragment != [] ==>
      NormalizeUrl(u, keepFragments, keepQuery) == u.scheme + "://" + u.netloc + NormalizePath(u.path) + "#" + u.fragment
    ensures (u.query == [] || !keepQuery) && (u.fragment == [] || !keepFragments) ==>
      NormalizeUrl(u, keepFragments, keepQuery) == u.scheme + "://" + u.netloc + NormalizePath(u.path)
  {
  }

  /** Normalising an already normalised path changes nothing unless the original path ended in "//". */
  lemma {:induction false} NormalizePathIdempotent(p: string)
    requires !EndsWith(p, "//")
    ensures NormalizePath(NormalizePath(p)) == NormalizePath(p)
  {
    if p != [] {
      var q := if StartsWith(p, "/") then p else "/" + p;
      if !StartsWith(p, "/") {
        SlashPrefixKeepsEnd(p);
      }
      if EndsWith(q, "/") && |q| > 1 {
        DropTrailingSlash(q);
      }
    }
  }

  /** Prefixing "/" to a path that does not start with one cannot create a trailing "//". */
  lemma SlashPrefixKeepsEnd(p: string)
    requires p != [] && !StartsWith(p, "/") && !EndsWith(p, "//")
    ensures !EndsWith("/" + p, "//")
  {
    var q := "/" + p;
    if |p| >= 2 {
      assert q[|q| - 2..] == p[|p| - 2..];
    } else {
      assert q[|q| - 1] == p[0];
    }
  }

  /** Dropping the single trailing slash of a path that does not end in "//" leaves no trailing slash. */
  lemma DropTrailingSlash(q: string)
    requires |q| > 1 && q[0] == '/' && EndsWith(q, "/") && !EndsWith(q, "//")
    ensures q[..|q| - 1] != [] && q[..|q| - 1][0] == '/'
    ensures !EndsWith(q[..|q| - 1], "/")
  {
    assert q[|q| - 2..] == [q[|q| - 2], '/'];
  }

  /** A path ending in "//" loses one slash per normalisation, so the function is not idempotent. */
  lemma NormalizePathNotIdempotent()
    ensures NormalizePath("/a//") == "/a/"
    ensures NormalizePath(NormalizePath("/a//")) == "/a"
  {
  }

  // ---------------------------------------------------------------------------
  // is_webpage_url

  /** The index of the last `c` in `s`, or -1. */
  function LastIndex(s: string, c: char): (r: int)
    ensures -1 <= r < |s|
    ensures r >= 0 ==> s[r] == c
    ensures forall k :: r < k < |s| ==> s[k] != c
  {
    if s == [] then -1
    else if s[|s| - 1] == c then |s| - 1
    else LastIndex(s[..|s| - 1], c)
  }

  /**
   * The extension returned by `os.path.splitext` on a POSIX path: from the
   * last "." of the final path segment, provided that segment has some other
   * character before that dot (".bashrc" has no extension).
   */
  function Extension(path: string): (r: string)
    ensures r != [] ==> exists i, k :: 0 <= k < i < |path| && r == path[i..] && path[i] == '.' && path[k] != '.'
                                        && '/' !in path[k..] && '.' !in path[i + 1..]
    ensures r == [] ==> forall i, k :: 0 <= k < i < |path| && path[i] == '.' && path[k] != '.' ==> '/' in path[k..]
  {
    var s := LastIndex(path, '/') + 1;
    var b := path[s..];
    var d := LastIndex(b, '.');
    if d > 0 && exists k | 0 <= k < d :: b[k] != '.' then
      var k :| 0 <= k < d && b[k] != '.';
      ExtensionFound(path, s, d, k);
      b[d..]
    else
      NoExtensionFound(path, s, d);
      []
  }

  /** The dot found in the last segment, with a non-dot before it, gives the extension. */
  lemma ExtensionFound(path: string, s: nat, d: nat, k: nat)
    requires s == LastIndex(path, '/') + 1
    requires d == LastIndex(path[s..], '.') && k < d && path[s..][k] != '.'
    ensures exists i, k :: 0 <= k < i < |path| && path[s..][d..] == path[i..] && path[i] == '.' && path[k] != '.'
                           && '/' !in path[k..] && '.' !in path[i + 1..]
  {
    var b := path[s..];
    var i, j := s + d, s + k;
    assert path[i..] == b[d..] && path[i] == b[d] && path[j] == b[k];
    NoneFrom(path, '/', j);
    forall m | i < m < |path|
      ensures path[m] != '.'
    {
      assert path[m] == b[m - s];
    }
    NoneFrom(path, '.', i + 1);
  }

  /** A character absent from every position from `j` on is absent from `t[j..]`. */
  lemma NoneFrom(t: string, c: char, j: nat)
    requires j <= |t|
    requires forall m :: j <= m < |t| ==> t[m] != c
    ensures c !in t[j..]
  {
    forall m | 0 <= m < |t[j..]|
      ensures t[j..][m] != c
    {
      assert t[j..][m] == t[j + m];
    }
  }

  /** Without such a dot, every dot with a non-dot before it lies beyond a '/'. */
  lemma NoExtensionFound(path: string, s: nat, d: int)
    requires s == LastIndex(path, '/') + 1
    requires d == LastIndex(path[s..], '.')
    requires !(d > 0 && exists k | 0 <= k < d :: path[s..][k] != '.')
    ensures forall i, k :: 0 <= k < i < |path| && path[i] == '.' && path[k] != '.' ==> '/' in path[k..]
  {
    var b := path[s..];
    forall i, k | s <= k < i < |path| && path[i] == '.'
      ensures path[k] == '.'
    {
      assert b[i - s] == '.' && b[k - s] == path[k];
    }
    forall k | 0 <= k < s
      ensures '/' in path[k..]
    {
      assert path[k..][s - 1 - k] == path[s - 1] == '/';
    }
  }

  const WebpageExtensions: set<string> := {
    ".html", ".htm", ".php", ".asp", ".aspx", ".jsp", ".do", ".xhtml", ".shtml"
  }

  const ExcludedExtensions: set<string> := {
    ".css", ".js", ".map",
    ".jpg", ".jpeg", ".png", ".gif", ".bmp", ".svg", ".webp", ".ico", ".tif", ".tiff",
    ".mp3", ".wav", ".ogg", ".mp4", ".avi", ".mov", ".flv", ".wmv", ".webm", ".mkv",
    ".pdf", ".doc", ".docx", ".xls", ".xlsx", ".ppt", ".pptx", ".txt", ".rtf", ".csv",
    ".xml", ".json", ".yaml", ".yml",
    ".zip", ".rar", ".tar", ".gz", ".7z", ".bz2",
    ".exe", ".dll", ".so", ".bin", ".apk", ".dmg", ".iso", ".msi",
    ".ttf", ".otf", ".woff", ".woff2", ".eot",
    ".swf", ".dat"
  }

  /** `is_webpage_url`; `allowed == {}` also stands for `allowed_extensions=None`. */
  function IsWebpageUrl(u: SplitUrl, allowed: set<string>): (r: bool)
    ensures u.path == [] || EndsWith(u.path, "/") ==> r
    ensures u.query != [] || u.fragment != [] ==> r
    ensures !r <==>
      && u.path != [] && !EndsWith(u.path, "/") && u.query == [] && u.fragment == []
      && Extension(u.path) != [] && Lower(Extension(u.path)) in ExcludedExtensions
      && Lower(Extension(u.path)) !in WebpageExtensions + allowed
  {
    if u.path == [] || u.path == "/" || EndsWith(u.path, "/") then true
    else if u.query != [] then true
    else if u.fragment != [] then true
    else
      var ext := Lower(Extension(u.path));
      if ext != [] && ext in ExcludedExtensions && ext !in WebpageExtensions + allowed then false
      else if ext != [] && ext in WebpageExtensions + allowed then true
      else true
  }

  /** Extra allowed extensions can only turn a rejection into an acceptance. */
  lemma AllowedExtensionsMonotone(u: SplitUrl, a1: set<string>, a2: set<string>)
    requires a1 <= a2
    ensures IsWebpageUrl(u, a1) ==> IsWebpageUrl(u, a2)
  {
  }

  // ---------------------------------------------------------------------------
  // the link filter inside get_page_links

  /**
   * The href clean-up: empty, "javascript:" and "#..." hrefs are dropped;
   * otherwise the href is cut at the first "#", then at the first "?", and one
   * trailing "/" is removed.
   */
  function CleanHref(href: string): (r: Option<string>)
    ensures r.None? <==> href == [] || StartsWith(href, "javascript:") || StartsWith(href, "#")
    ensures r.Some? ==> r.value <= href && '#' !in r.value && '?' !in r.value
    ensures r.Some? && |r.value| < |href| ==> href[|r.value|] in "#?/"
    ensures r.Some? && |r.value| < |href| && href[|r.value|] == '/' ==> |r.value| + 1 == |href| || href[|r.value| + 1] in "#?"
    ensures r.Some? && (|r.value| == |href| || href[|r.value|] in "#?") ==> !EndsWith(r.value, "/")
  {
    if href == [] || StartsWith(href, "javascript:") || StartsWith(href, "#") then None
    else
      var noFragment := BeforeFirst(href, '#');
      var full := BeforeFirst(noFragment, '?');
      assert full <= href;
      if EndsWith(full, "/") then
        Some(full[..|full| - 1])
      else
        Some(full)
  }

  function StripWww(host: string): string {
    RemoveAll(host, "www.")
  }

  /**
   * The domain check: with subdomains allowed, the link's host equals the base
   * domain or is a subdomain of it; otherwise it equals the host of the page
   * being read. Every "www." is deleted from both sides first.
   */
  function DomainMatch(linkHost: string, currentHost: string, baseDomain: string, allowSubdomains: bool): (r: bool)
    ensures allowSubdomains ==>
      (r <==> StripWww(linkHost) == StripWww(baseDomain) || EndsWith(StripWww(linkHost), "." + StripWww(baseDomain)))
    ensures !allowSubdomains ==> (r <==> StripWww(linkHost) == StripWww(currentHost))
  {
    if allowSubdomains then
      StripWww(baseDomain) == StripWww(linkHost) || EndsWith(StripWww(linkHost), "." + StripWww(baseDomain))
    else
      StripWww(currentHost) == StripWww(linkHost)
  }

  /** A subdomain of the base domain passes the subdomain check. */
  lemma {:induction false} SubdomainMatches(sub: string, linkHost: string, currentHost: string, baseDomain: string)
    requires StripWww(linkHost) == sub + "." + StripWww(baseDomain)
    ensures DomainMatch(linkHost, currentHost, baseDomain, true)
  {
    var b := StripWww(baseDomain);
    var l := StripWww(linkHost);
    assert l[|l| - |"." + b|..] == "." + b;
  }

  /** Whether the cleaned link `parsed` is kept by `get_page_links`. */
  predicate KeepLink(parsed: SplitUrl, currentHost: string, baseDomain: string, pathPrefix: Option<string>,
                     allowSubdomains: bool, allowed: set<string>)
  {
    && IsWebpageUrl(parsed, allowed)
    && DomainMatch(parsed.netloc, currentHost, baseDomain, allowSubdomains)
    && (pathPrefix.None? || StartsWith(parsed.path, pathPrefix.value))
  }

  /** The anchor `href` yields the link `l` and the link passes the filters. */
  predicate Yields(href: string, l: string, parse: string -> SplitUrl, currentHost: string, baseDomain: string,
                   pathPrefix: Option<string>, allowSubdomains: bool, allowed: set<string>)
  {
    CleanHref(href) == Some(l) && KeepLink(parse(l), currentHost, baseDomain, pathPrefix, allowSubdomains, allowed)
  }

  /** What one anchor contributes: its cleaned href, when that passes the filters. */
  function Pick(href: string, parse: string -> SplitUrl, currentHost: string, baseDomain: string,
                pathPrefix: Option<string>, allowSubdomains: bool, allowed: set<string>): (r: Option<string>)
    ensures forall l :: r == Some(l) <==> Yields(href, l, parse, currentHost, baseDomain, pathPrefix, allowSubdomains, allowed)
  {
    match CleanHref(href)
    case None => None
    case Some(full) =>
      if KeepLink(parse(full), currentHost, baseDomain, pathPrefix, allowSubdomains, allowed) then Some(full) else None
  }

  /** The anchor loop: each href in turn adds the link `pick` gives it, if any. */
  function Collect(hrefs: seq<string>, pick: string -> Option<string>): (links: set<string>)
    ensures |links| <= |hrefs|
  {
    if hrefs == [] then {}
    else
      var rest := Collect(hrefs[..|hrefs| - 1], pick);
      match pick(hrefs[|hrefs| - 1])
      case None => rest
      case Some(l) => rest + {l}
  }

  /** A link is collected exactly when some href gives it. */
  lemma {:induction false} CollectMembers(hrefs: seq<string>, pick: string -> Option<string>, l: string)
    ensures l in Collect(hrefs, pick) <==> exists i :: 0 <= i < |hrefs| && pick(hrefs[i]) == Some(l)
  {
    if hrefs != [] {
      var init := hrefs[..|hrefs| - 1];
      CollectMembers(init, pick, l);
      if l in Collect(init, pick) {
        var i :| 0 <= i < |init| && pick(init[i]) == Some(l);
        assert hrefs[i] == init[i];
      }
      if exists i :: 0 <= i < |hrefs| && pick(hrefs[i]) == Some(l) {
        var i :| 0 <= i < |hrefs| && pick(hrefs[i]) == Some(l);
        if i < |init| {
          assert init[i] == hrefs[i];
        }
      }
    }
  }

  /**
   * The set of links `get_page_links` collects from the anchors' hrefs, with
   * `parse` standing for `urlparse`.
   */
  function PageLinks(hrefs: seq<string>, parse: string -> SplitUrl, currentHost: string, baseDomain: string,
                     pathPrefix: Option<string>, allowSubdomains: bool, allowed: set<string>): (links: set<string>)
    ensures |links| <= |hrefs|
  {
    Collect(hrefs, h => Pick(h, parse, currentHost, baseDomain, pathPrefix, allowSubdomains, allowed))
  }

  /** The last anchor adds exactly the link it yields. */
  lemma PageLinksStep(hrefs: seq<string>, parse: string -> SplitUrl, currentHost: string,
                      baseDomain: string, pathPrefix: Option<string>, allowSubdomains: bool,
                      allowed: set<string>, l: string)
    requires hrefs != []
    ensures l in PageLinks(hrefs, parse, currentHost, baseDomain, pathPrefix, allowSubdomains, allowed) <==>
      || l in PageLinks(hrefs[..|hrefs| - 1], parse, currentHost, baseDomain, pathPrefix, allowSubdomains, allowed)
      || Yields(hrefs[|hrefs| - 1], l, parse, currentHost, baseDomain, pathPrefix, allowSubdomains, allowed)
  {
    var pick := h => Pick(h, parse, currentHost, baseDomain, pathPrefix, allowSubdomains, allowed);
    assert pick(hrefs[|hrefs| - 1]) == Pick(hrefs[|hrefs| - 1], parse, currentHost, baseDomain, pathPrefix, allowSubdomains, allowed);
  }

  /** A link is collected exactly when some anchor yields it and it passes the filters. */
  lemma PageLinksMembers(hrefs: seq<string>, parse: string -> SplitUrl, currentHost: string,
                         baseDomain: string, pathPrefix: Option<string>, allowSubdomains: bool,
                         allowed: set<string>, l: string)
    ensures l in PageLinks(hrefs, parse, currentHost, baseDomain, pathPrefix, allowSubdomains, allowed) <==>
      exists i :: 0 <= i < |hrefs| && Yields(hrefs[i], l, parse, currentHost, baseDomain, pathPrefix, allowSubdomains, allowed)
  {
    var pick := h => Pick(h, parse, currentHost, baseDomain, pathPrefix, allowSubdomains, allowed);
    CollectMembers(hrefs, pick, l);
    if exists i :: 0 <= i < |hrefs| && pick(hrefs[i]) == Some(l) {
      var i :| 0 <= i < |hrefs| && pick(hrefs[i]) == Some(l);
      assert Yields(hrefs[i], l, parse, currentHost, baseDomain, pathPrefix, allowSubdomains, allowed);
    }
    if exists i :: 0 <= i < |hrefs| && Yields(hrefs[i], l, parse, currentHost, baseDomain, pathPrefix, allowSubdomains, allowed) {
      var i :| 0 <= i < |hrefs| && Yields(hrefs[i], l, parse, currentHost, baseDomain, pathPrefix, allowSubdomains, allowed);
      assert pick(hrefs[i]) == Some(l);
    }
  }

  /** Every collected link is free of "#" and "?" and lies under the path prefix. */
  lemma PageLinksClean(hrefs: seq<string>, parse: string -> SplitUrl, currentHost: string,
                       baseDomain: string, pathPrefix: Option<string>, allowSubdomains: bool,
                       allowed: set<string>, l: string)
    requires l in PageLinks(hrefs, parse, currentHost, baseDomain, pathPrefix, allowSubdomains, allowed)
    ensures '#' !in l && '?' !in l
    ensures pathPrefix.Some? ==> StartsWith(parse(l).path, pathPrefix.value)
    ensures IsWebpageUrl(parse(l), allowed)
  {
    PageLinksMembers(hrefs, parse, currentHost, baseDomain, pathPrefix, allowSubdomains, allowed, l);
    var i :| 0 <= i < |hrefs| && Yields(hrefs[i], l, parse, currentHost, baseDomain, pathPrefix, allowSubdomains, allowed);
  }
}
