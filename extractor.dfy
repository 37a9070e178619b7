/**
 * Keyword search over a page (spider/content/extractor.py): `extract_context`,
 * which picks the first sentence mentioning a keyword together with its
 * neighbours, and the window-and-deduplicate loop of
 * `search_page_for_keywords`.
 *
 * The regular expressions are parameters: `split` is the sentence splitter,
 * `mentions(s, k)` is the case-insensitive whole-word search for `k` in `s`,
 * and `find(t, k)` lists the spans of its matches in `t`. The page arrives as
 * the stripped texts of its text elements, after the content filter has run.
 */
module Extractor {
  import opened Wrappers
  import opened Strings

  // ---------------------------------------------------------------------------
  // extract_context

  /** The characters of `s` that are not white space, in order. */
  function NonSpaces(s: string): string {
    if s == [] then [] else (if IsSpace(s[0]) then [] else [s[0]]) + NonSpaces(s[1..])
  }

  /** Dropping leading white space keeps the other characters. */
  lemma {:induction false} NonSpacesSkip(s: string, k: nat)
    requires k <= |s|
    requires forall i :: 0 <= i < k ==> IsSpace(s[i])
    ensures NonSpaces(s[k..]) == NonSpaces(s)
  {
    if k > 0 {
      assert s[1..][k - 1..] == s[k..];
      NonSpacesSkip(s[1..], k - 1);
    }
  }

  /**
   * `re.sub(r"\s+", " ", s)`: every run of white space becomes one space, and
   * the other characters stay, in order.
   */
  function CollapseSpaces(s: string): (r: string)
    ensures forall i :: 0 <= i < |r| && IsSpace(r[i]) ==> r[i] == ' '
    ensures forall i, j :: 0 <= i && j == i + 1 && j < |r| && IsSpace(r[i]) ==> !IsSpace(r[j])
    ensures s == [] <==> r == []
    ensures s != [] && IsSpace(s[0]) ==> r[0] == ' '
    ensures s != [] && !IsSpace(s[0]) ==> r[0] == s[0]
    ensures NonSpaces(r) == NonSpaces(s)
    decreases |s|
  {
    if s == [] then []
    else if IsSpace(s[0]) then
      var rest := LStrip(s);
      assert rest != s;
      NonSpacesSkip(s, |s| - |rest|);
      var r := [' '] + CollapseSpaces(rest);
      assert r[1..] == CollapseSpaces(rest);
      r
    else
      var r := [s[0]] + CollapseSpaces(s[1..]);
      assert r[1..] == CollapseSpaces(s[1..]);
      r
  }

  /** A string `strip()` leaves as it is. */
  predicate Trimmed(s: string) {
    s == [] || (!IsSpace(s[0]) && !IsSpace(s[|s| - 1]))
  }

  /** `[s.strip() for s in parts if s.strip()]`. */
  function Cleaned(parts: seq<string>): (r: seq<string>)
    ensures forall s :: s in r ==> s != [] && Trimmed(s)
    ensures |r| <= |parts|
    ensures forall p :: p in parts && Strip(p) != [] ==> Strip(p) in r
    ensures forall s :: s in r ==> exists p :: p in parts && Strip(p) == s
  {
    if parts == [] then []
    else
      var s := Strip(parts[0]);
      var rest := Cleaned(parts[1..]);
      assert forall p :: p in parts <==> p == parts[0] || p in parts[1..];
      if s == [] then rest
      else
        assert Trimmed(s);
        assert forall x :: x in [s] + rest <==> x == s || x in rest;
        [s] + rest
  }

  /** The sentences of a text: white space collapsed, stripped, split, empty pieces dropped. */
  function Sentences(text: string, split: string -> seq<string>): (r: seq<string>)
    ensures forall s :: s in r ==> s != [] && Trimmed(s)
    ensures var pieces := split(Strip(CollapseSpaces(text)));
      && (forall p :: p in pieces && Strip(p) != [] ==> Strip(p) in r)
      && (forall s :: s in r ==> exists p :: p in pieces && Strip(p) == s)
  {
    var pieces := split(Strip(CollapseSpaces(text)));
    Cleaned(pieces)
  }

  /** The index of the first sentence that mentions the keyword. */
  function FirstMention(sentences: seq<string>, keyword: string, mentions: (string, string) -> bool): (r: Option<nat>)
    ensures r.Some? ==> r.value < |sentences| && mentions(sentences[r.value], keyword)
    ensures r.Some? ==> forall j :: 0 <= j < r.value ==> !mentions(sentences[j], keyword)
    ensures r.None? <==> forall j :: 0 <= j < |sentences| ==> !mentions(sentences[j], keyword)
  {
    if sentences == [] then None
    else if mentions(sentences[0], keyword) then Some(0)
    else
      match FirstMention(sentences[1..], keyword, mentions)
      case None => None
      case Some(i) => Some(i + 1)
  }

  lemma LStripKeeps(s: string)
    requires s != [] && !IsSpace(s[0])
    ensures LStrip(s) == s
  {
  }

  lemma LStripOneSpace(t: string)
    requires t != [] && !IsSpace(t[0])
    ensures LStrip(" " + t) == t
  {
    assert (" " + t)[1..] == t;
    LStripKeeps(t);
  }

  lemma RStripKeeps(s: string)
    requires s != [] && !IsSpace(s[|s| - 1])
    ensures RStrip(s) == s
  {
  }

  lemma RStripOneSpace(t: string)
    requires t != [] && !IsSpace(t[|t| - 1])
    ensures RStrip(t + " ") == t
  {
    assert (t + " ")[..|t|] == t;
    RStripKeeps(t);
  }

  /** The non-empty pieces joined by single spaces. */
  function Spaced(p: string, k: string, n: string): string {
    (if p == [] then [] else p + " ") + k + (if n == [] then [] else " " + n)
  }

  lemma SpacedTrimmed(p: string, k: string, n: string)
    requires Trimmed(p) && Trimmed(n) && Trimmed(k) && k != []
    ensures Spaced(p, k, n) != [] && Trimmed(Spaced(p, k, n))
  {
  }

  /** Dropping the space before the first piece when it is empty. */
  lemma LStripLead(p: string, rest: string)
    requires rest != [] && !IsSpace(rest[0])
    ensures LStrip((if p == [] then " " else []) + rest) == rest
  {
    if p == [] {
      LStripOneSpace(rest);
    } else {
      assert [] + rest == rest;
      LStripKeeps(rest);
    }
  }

  /** Dropping the space after the last piece when it is empty. */
  lemma RStripTrail(n: string, mid: string)
    requires mid != [] && !IsSpace(mid[|mid| - 1])
    ensures RStrip(mid + (if n == [] then " " else [])) == mid
  {
    if n == [] {
      RStripOneSpace(mid);
    } else {
      assert mid + [] == mid;
      RStripKeeps(mid);
    }
  }

  lemma SpacedSplit(p: string, k: string, n: string)
    ensures p + " " + k + " " + n
            == (if p == [] then " " else []) + (Spaced(p, k, n) + (if n == [] then " " else []))
  {
  }

  /** `f"{p} {k} {n}".strip()` for stripped pieces: the non-empty pieces joined by single spaces. */
  lemma StripJoined(p: string, k: string, n: string)
    requires Trimmed(p) && Trimmed(n) && Trimmed(k) && k != []
    ensures Strip(p + " " + k + " " + n) == Spaced(p, k, n)
  {
    var mid := Spaced(p, k, n);
    var trail: string := if n == [] then " " else [];
    SpacedTrimmed(p, k, n);
    SpacedSplit(p, k, n);
    LStripLead(p, mid + trail);
    RStripTrail(n, mid);
  }

  /** The sentence before index `i`, or "" for the first. */
  function Previous(ss: seq<string>, i: nat): string
    requires i < |ss|
  {
    if i > 0 then ss[i - 1] else []
  }

  /** The sentence after index `i`, or "" for the last. */
  function Following(ss: seq<string>, i: nat): string
    requires i < |ss|
  {
    if i < |ss| - 1 then ss[i + 1] else []
  }

  /**
   * `extract_context`: "" when no sentence mentions the keyword; otherwise the
   * first such sentence, preceded by the sentence before it and followed by
   * the sentence after it when those exist, joined by single spaces.
   */
  function ExtractContext(text: string, keyword: string, split: string -> seq<string>,
                          mentions: (string, string) -> bool): (r: string)
    ensures r == [] <==> FirstMention(Sentences(text, split), keyword, mentions).None?
    ensures r != [] ==> Trimmed(r)
  {
    var ss := Sentences(text, split);
    ContextAt(ss, FirstMention(ss, keyword, mentions))
  }

  /** The context around the sentence `hit` points at, or "" when it points nowhere. */
  function ContextAt(ss: seq<string>, hit: Option<nat>): (r: string)
    requires hit.Some? ==> hit.value < |ss|
    requires forall s :: s in ss ==> s != [] && Trimmed(s)
    ensures r == [] <==> hit.None?
    ensures r != [] ==> Trimmed(r)
  {
    match hit
    case None => []
    case Some(i) => Context(ss, i)
  }

  /** `" ".join(...).strip()` of the sentence at `i` and its neighbours: the non-empty ones joined by single spaces. */
  function Context(ss: seq<string>, i: nat): (r: string)
    requires i < |ss|
    requires forall s :: s in ss ==> s != [] && Trimmed(s)
    ensures r == Spaced(Previous(ss, i), ss[i], Following(ss, i))
    ensures r != [] && Trimmed(r)
  {
    NeighboursJoined(ss, i);
    Strip(Previous(ss, i) + " " + ss[i] + " " + Following(ss, i))
  }

  /**
   * The context is empty exactly when no sentence mentions the keyword, and
   * otherwise is the first mentioning sentence with its neighbours, joined by
   * single spaces.
   */
  lemma ExtractContextSpec(text: string, keyword: string, split: string -> seq<string>,
                           mentions: (string, string) -> bool)
    ensures FirstMention(Sentences(text, split), keyword, mentions).None? <==>
            ExtractContext(text, keyword, split, mentions) == []
    ensures
      var ss := Sentences(text, split);
      var hit := FirstMention(ss, keyword, mentions);
      hit.Some? ==>
        ExtractContext(text, keyword, split, mentions) == Spaced(Previous(ss, hit.value), ss[hit.value], Following(ss, hit.value))
  {
    var ss := Sentences(text, split);
    var hit := FirstMention(ss, keyword, mentions);
    if hit.Some? {
      NeighboursJoined(ss, hit.value);
    }
  }

  /** The sentence at `i` with its neighbours, stripped: the non-empty ones joined by single spaces. */
  lemma NeighboursJoined(ss: seq<string>, i: nat)
    requires i < |ss|
    requires forall s :: s in ss ==> s != [] && Trimmed(s)
    ensures Strip(Previous(ss, i) + " " + ss[i] + " " + Following(ss, i)) == Spaced(Previous(ss, i), ss[i], Following(ss, i))
    ensures Spaced(Previous(ss, i), ss[i], Following(ss, i)) != []
    ensures Trimmed(Spaced(Previous(ss, i), ss[i], Following(ss, i)))
  {
    assert ss[i] in ss && (i > 0 ==> ss[i - 1] in ss) && (i < |ss| - 1 ==> ss[i + 1] in ss);
    SpacedTrimmed(Previous(ss, i), ss[i], Following(ss, i));
    StripJoined(Previous(ss, i), ss[i], Following(ss, i));
  }

  /** The joined pieces hold the middle one. */
  lemma SpacedHoldsMiddle(p: string, k: string, n: string)
    ensures Contains(Spaced(p, k, n), k)
  {
    var pre := if p == [] then [] else p + " ";
    var r := Spaced(p, k, n);
    assert r == pre + k + (if n == [] then [] else " " + n);
    assert r[|pre|..|pre| + |k|] == k;
    ContainsAt(r, k, |pre|);
  }

  /** A non-empty context contains the sentence that mentions the keyword. */
  lemma ContextHoldsMention(text: string, keyword: string, split: string -> seq<string>,
                            mentions: (string, string) -> bool)
    requires FirstMention(Sentences(text, split), keyword, mentions).Some?
    ensures Contains(ExtractContext(text, keyword, split, mentions),
                     Sentences(text, split)[FirstMention(Sentences(text, split), keyword, mentions).value])
  {
    var ss := Sentences(text, split);
    var i := FirstMention(ss, keyword, mentions).value;
    ExtractContextSpec(text, keyword, split, mentions);
    SpacedHoldsMiddle(Previous(ss, i), ss[i], Following(ss, i));
  }

  // ---------------------------------------------------------------------------
  // search_page_for_keywords

  /** A match of the keyword pattern: `match.start()` and `match.end()`. */
  datatype Span = Span(start: nat, end: nat)

  /** One result row: `[url, keyword, context]`. */
  datatype Row = Row(url: string, keyword: string, context: string)

  const Radius: nat := 300

  /** `text[i:j]` for non-negative bounds, clamped as Python clamps them. */
  function PySlice(s: string, i: nat, j: nat): (r: string)
    ensures i <= j <= |s| ==> r == s[i..j]
    ensures |r| <= |s|
  {
    var hi := if j <= |s| then j else |s|;
    var lo := if i <= hi then i else hi;
    s[lo..hi]
  }

  lemma SliceOfSlice(s: string, lo: nat, hi: nat, a: nat, b: nat)
    requires lo <= hi <= |s| && a <= b <= hi - lo
    ensures s[lo..hi][a..b] == s[lo + a..lo + b]
  {
    assert forall k | 0 <= k < b - a :: s[lo..hi][a..b][k] == s[lo + a + k];
  }

  /** The text around a match: up to 300 characters on either side, within the page. */
  function Chunk(text: string, m: Span): (r: string)
    ensures m.start <= m.end <= |text| ==>
      var lo := if m.start >= Radius then m.start - Radius else 0;
      && m.end - lo <= |r| <= m.end - m.start + 2 * Radius
      && r[m.start - lo..m.end - lo] == text[m.start..m.end]
    ensures m.start <= m.end <= |text| ==>
      var lo := if m.start >= Radius then m.start - Radius else 0;
      var hi := if m.end + Radius <= |text| then m.end + Radius else |text|;
      r == text[lo..hi]
  {
    var lo := if m.start >= Radius then m.start - Radius else 0;
    var hi := if m.end + Radius <= |text| then m.end + Radius else |text|;
    var r := PySlice(text, lo, hi);
    if m.start <= m.end <= |text| then
      SliceOfSlice(text, lo, hi, m.start - lo, m.end - lo);
      r
    else r
  }

  /** The page text: the element texts longer than one character, joined by spaces. */
  function PageText(elementTexts: seq<string>): string {
    Join(Kept(elementTexts), " ")
  }

  function Kept(elementTexts: seq<string>): (r: seq<string>)
    ensures forall i :: 0 <= i < |r| ==> |r[i]| > 1
    ensures forall x :: x in r <==> x in elementTexts && |x| > 1
    ensures |r| <= |elementTexts|
  {
    if elementTexts == [] then []
    else (if |elementTexts[0]| > 1 then [elementTexts[0]] else []) + Kept(elementTexts[1..])
  }

  /** A row the search may report: for this page, with a context that mentions its keyword. */
  predicate Reportable(row: Row, url: string, mentions: (string, string) -> bool) {
    row.url == url && row.context != [] && mentions(row.context, row.keyword)
  }

  /** The context of every match in `spans`, in order. */
  function Contexts(text: string, spans: seq<Span>, keyword: string, split: string -> seq<string>,
                    mentions: (string, string) -> bool): (r: seq<string>)
    ensures |r| == |spans|
  {
    if spans == [] then []
    else
      Contexts(text, spans[..|spans| - 1], keyword, split, mentions)
      + [ExtractContext(Chunk(text, spans[|spans| - 1]), keyword, split, mentions)]
  }

  /** The row one context yields, unless it is empty or no longer mentions the keyword. */
  function RowFor(url: string, keyword: string, context: string, mentions: (string, string) -> bool): (r: seq<Row>)
    ensures r == [] || (|r| == 1 && r[0].keyword == keyword && Reportable(r[0], url, mentions))
    ensures r == [] <==> context == [] || !mentions(context, keyword)
    ensures r != [] ==> r[0].context == context
  {
    if context == [] || !mentions(context, keyword) then []
    else [Row(url, keyword, context)]
  }

  /** The rows the contexts yield, in order, repeats included. */
  function RowsFor(url: string, keyword: string, contexts: seq<string>, mentions: (string, string) -> bool): (r: seq<Row>)
    ensures |r| <= |contexts|
    ensures forall x :: x in r ==> x.keyword == keyword && Reportable(x, url, mentions)
    ensures forall x :: x in r <==> x.url == url && x.keyword == keyword && x.context in contexts && Reportable(x, url, mentions)
  {
    if contexts == [] then []
    else
      var rest := RowsFor(url, keyword, contexts[..|contexts| - 1], mentions);
      var last := RowFor(url, keyword, contexts[|contexts| - 1], mentions);
      assert forall x :: x in rest + last <==> x in rest || x in last;
      assert forall c :: c in contexts <==> c in contexts[..|contexts| - 1] || c == contexts[|contexts| - 1];
      rest + last
  }

  /** The rows one keyword's matches yield. */
  function KeywordRows(url: string, keyword: string, text: string, find: (string, string) -> seq<Span>,
                       split: string -> seq<string>, mentions: (string, string) -> bool): seq<Row>
  {
    RowsFor(url, keyword, Contexts(text, find(text, keyword), keyword, split, mentions), mentions)
  }

  /** The rows of every keyword in turn, repeats included. */
  function Candidates(url: string, keywords: seq<string>, text: string, find: (string, string) -> seq<Span>,
                      split: string -> seq<string>, mentions: (string, string) -> bool): (r: seq<Row>)
    ensures forall x :: x in r ==> x.keyword in keywords && Reportable(x, url, mentions)
    ensures forall x :: x in r <==> exists j :: 0 <= j < |keywords| && x in KeywordRows(url, keywords[j], text, find, split, mentions)
  {
    if keywords == [] then []
    else
      var k := keywords[|keywords| - 1];
      var rest := Candidates(url, keywords[..|keywords| - 1], text, find, split, mentions);
      var last := KeywordRows(url, k, text, find, split, mentions);
      assert forall w :: w in keywords[..|keywords| - 1] ==> w in keywords;
      assert k in keywords;
      assert forall x :: x in rest + last <==> x in rest || x in last;
      assert forall j :: 0 <= j < |keywords| - 1 ==> keywords[..|keywords| - 1][j] == keywords[j];
      rest + last
  }

  /** The rows in first-seen order, each kept once. */
  function Dedup(rows: seq<Row>): (r: seq<Row>)
    ensures forall x :: x in r <==> x in rows
    ensures forall i, j :: 0 <= i < j < |r| ==> r[i] != r[j]
  {
    if rows == [] then []
    else
      var d := Dedup(rows[..|rows| - 1]);
      if rows[|rows| - 1] in rows[..|rows| - 1] then d else d + [rows[|rows| - 1]]
  }

  /** Appending a row keeps it once: only when it has not been seen. */
  lemma DedupAppend(rows: seq<Row>, extra: seq<Row>)
    requires |extra| <= 1
    ensures Dedup(rows + extra) == if extra == [] || extra[0] in rows then Dedup(rows) else Dedup(rows) + extra
  {
    if extra != [] {
      assert (rows + extra)[..|rows|] == rows;
    } else {
      assert rows + extra == rows;
    }
  }

  lemma AppendAssoc(a: seq<Row>, b: seq<Row>, c: seq<Row>)
    ensures a + (b + c) == (a + b) + c
  {
  }

  lemma ContextsStep(text: string, spans: seq<Span>, m: nat, keyword: string, split: string -> seq<string>,
                     mentions: (string, string) -> bool)
    requires m < |spans|
    ensures Contexts(text, spans[..m + 1], keyword, split, mentions)
            == Contexts(text, spans[..m], keyword, split, mentions)
               + [ExtractContext(Chunk(text, spans[m]), keyword, split, mentions)]
  {
    assert spans[..m + 1][..m] == spans[..m];
  }

  lemma RowsForStep(url: string, keyword: string, contexts: seq<string>, context: string,
                    mentions: (string, string) -> bool)
    ensures RowsFor(url, keyword, contexts + [context], mentions)
            == RowsFor(url, keyword, contexts, mentions) + RowFor(url, keyword, context, mentions)
  {
    assert (contexts + [context])[..|contexts|] == contexts;
  }

  lemma CandidatesStep(url: string, keywords: seq<string>, k: nat, text: string, find: (string, string) -> seq<Span>,
                       split: string -> seq<string>, mentions: (string, string) -> bool)
    requires k < |keywords|
    ensures Candidates(url, keywords[..k + 1], text, find, split, mentions)
            == Candidates(url, keywords[..k], text, find, split, mentions)
               + KeywordRows(url, keywords[k], text, find, split, mentions)
  {
    assert keywords[..k + 1][..k] == keywords[..k];
  }

  /** The window around the `m`-th match and its context: the next entry of `Contexts`. */
  method MatchContext(text: string, spans: seq<Span>, m: nat, keyword: string, split: string -> seq<string>,
                      mentions: (string, string) -> bool) returns (context: string)
    requires m < |spans|
    ensures Contexts(text, spans[..m + 1], keyword, split, mentions)
            == Contexts(text, spans[..m], keyword, split, mentions) + [context]
  {
    var chunk := Chunk(text, spans[m]);
    context := ExtractContext(chunk, keyword, split, mentions);
    ContextsStep(text, spans, m, keyword, split, mentions);
  }

  /** The inner loop of `search_page_for_keywords`: one keyword's matches, skipping rows already seen. */
  method ScanMatches(url: string, keyword: string, text: string, spans: seq<Span>,
                     split: string -> seq<string>, mentions: (string, string) -> bool,
                     results: seq<Row>, seen: set<Row>, ghost all: seq<Row>)
    returns (results': seq<Row>, seen': set<Row>)
    requires results == Dedup(all)
    requires forall x :: x in seen <==> x in all
    ensures results' == Dedup(all + RowsFor(url, keyword, Contexts(text, spans, keyword, split, mentions), mentions))
    ensures forall x :: x in seen' <==>
      x in all + RowsFor(url, keyword, Contexts(text, spans, keyword, split, mentions), mentions)
  {
    results', seen' := results, seen;
    ghost var done := all;
    for m := 0 to |spans|
      invariant done == all + RowsFor(url, keyword, Contexts(text, spans[..m], keyword, split, mentions), mentions)
      invariant results' == Dedup(done)
      invariant forall x :: x in seen' <==> x in done
    {
      var context := MatchContext(text, spans, m, keyword, split, mentions);
      ghost var earlier := Contexts(text, spans[..m], keyword, split, mentions);
      RowsForStep(url, keyword, earlier, context, mentions);
      ghost var step := RowFor(url, keyword, context, mentions);
      DedupAppend(done, step);
      AppendAssoc(all, RowsFor(url, keyword, earlier, mentions), step);
      if context == [] || !mentions(context, keyword) {
        assert step == [];
        continue;
      }
      var entry := Row(url, keyword, context);
      assert step == [entry];
      done := done + step;
      if entry !in seen' {
        seen' := seen' + {entry};
        results' := results' + [entry];
      }
    }
    assert spans[..|spans|] == spans;
  }

  /** `search_page_for_keywords`: every match's context, once per (url, keyword, context), in first-seen order. */
  method SearchPageForKeywords(url: string, keywords: seq<string>, elementTexts: seq<string>,
                               find: (string, string) -> seq<Span>, split: string -> seq<string>,
                               mentions: (string, string) -> bool) returns (results: seq<Row>)
    ensures results == Dedup(Candidates(url, keywords, PageText(elementTexts), find, split, mentions))
    ensures forall i, j :: 0 <= i < j < |results| ==> results[i] != results[j]
    ensures forall x :: x in results ==> x.keyword in keywords && Reportable(x, url, mentions)
  {
    var text := PageText(elementTexts);
    results := [];
    var seen: set<Row> := {};
    for k := 0 to |keywords|
      invariant results == Dedup(Candidates(url, keywords[..k], text, find, split, mentions))
      invariant forall x :: x in seen <==> x in Candidates(url, keywords[..k], text, find, split, mentions)
    {
      CandidatesStep(url, keywords, k, text, find, split, mentions);
      results, seen := ScanMatches(url, keywords[k], text, find(text, keywords[k]), split, mentions,
                                   results, seen, Candidates(url, keywords[..k], text, find, split, mentions));
    }
    assert keywords[..|keywords|] == keywords;
  }
}
