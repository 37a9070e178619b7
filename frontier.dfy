/**
 * The entries of the crawl frontier (spider/core/crawler.py). `to_visit`
 * holds `(url, depth)` tuples and, after a retry, bare URL strings; Python
 * equality tells the two apart, and so does this datatype.
 */
module Frontier {

  datatype Entry = Pair(url: string, depth: int) | Bare(url: string)

  /** The depth a reader of the frontier assigns: a bare URL counts as depth 0. */
  function DepthOf(e: Entry): int {
    if e.Pair? then e.depth else 0
  }

  /** The `(url, depth)` form an entry is read, dispatched and saved in. */
  function AsPair(e: Entry): (r: Entry)
    ensures r.Pair? && r.url == e.url && r.depth == DepthOf(e)
    ensures e.Pair? ==> r == e
  {
    Pair(e.url, DepthOf(e))
  }

  predicate AllPairs(es: seq<Entry>) {
    forall i :: 0 <= i < |es| ==> es[i].Pair?
  }

  lemma AllPairsAppend(a: seq<Entry>, b: seq<Entry>)
    ensures AllPairs(a + b) <==> AllPairs(a) && AllPairs(b)
  {
    if AllPairs(a) && AllPairs(b) {
      forall i | 0 <= i < |a + b| ensures (a + b)[i].Pair? {
        if i >= |a| { assert (a + b)[i] == b[i - |a|]; }
      }
    }
    if AllPairs(a + b) {
      forall i | 0 <= i < |a| ensures a[i].Pair? { assert (a + b)[i] == a[i]; }
      forall i | 0 <= i < |b| ensures b[i].Pair? { assert (a + b)[|a| + i] == b[i]; }
    }
  }

  /** Every entry in `(url, depth)` form, as `_save_checkpoint` and `resume_from_checkpoint` write them. */
  function Normalize(es: seq<Entry>): (r: seq<Entry>)
    ensures |r| == |es| && AllPairs(r)
    ensures forall i :: 0 <= i < |es| ==> r[i] == AsPair(es[i])
  {
    if es == [] then [] else Normalize(es[..|es| - 1]) + [AsPair(es[|es| - 1])]
  }

  /** Normalizing twice is normalizing once, and a frontier of pairs is left as it is. */
  lemma NormalizeFixesPairs(es: seq<Entry>)
    ensures AllPairs(es) ==> Normalize(es) == es
    ensures Normalize(Normalize(es)) == Normalize(es)
  {
  }

  lemma NormalizeAppend(a: seq<Entry>, b: seq<Entry>)
    ensures Normalize(a + b) == Normalize(a) + Normalize(b)
  {
  }

  // ---------------------------------------------------------------------------
  // Removal from pending_urls

  /** The position of the first element equal to `x`, or `|s|` when there is none. */
  function IndexOf(s: seq<Entry>, x: Entry): (i: nat)
    ensures i <= |s| && x !in s[..i]
    ensures i < |s| <==> x in s
    ensures i < |s| ==> s[i] == x
  {
    if s == [] then 0
    else if s[0] == x then 0
    else
      var i := IndexOf(s[1..], x);
      assert s[..i + 1] == [s[0]] + s[1..][..i];
      1 + i
  }

  /** Python's `list.remove`: drops the first element equal to `x`. */
  function RemoveFirst(s: seq<Entry>, x: Entry): (r: seq<Entry>)
    requires x in s
    ensures |r| == |s| - 1
    ensures var i := IndexOf(s, x); x !in s[..i] && s == r[..i] + [x] + r[i..]
  {
    var i := IndexOf(s, x);
    assert s == s[..i] + [x] + s[i + 1..];
    s[..i] + s[i + 1..]
  }

  /**
   * The removal the result handlers perform: `if url in pending_urls:
   * pending_urls.remove(url)`, with the bare URL as the value tested.
   */
  function RemovePendingAsWritten(pending: seq<Entry>, url: string): (r: seq<Entry>)
    ensures Bare(url) !in pending ==> r == pending
    ensures Bare(url) in pending ==> |r| == |pending| - 1
  {
    if Bare(url) in pending then RemoveFirst(pending, Bare(url)) else pending
  }

  /**
   * Pending entries are always `(url, depth)` pairs, so the as-written
   * removal never removes anything.
   */
  lemma PendingRemovalNeverMatches(pending: seq<Entry>, url: string)
    requires AllPairs(pending)
    ensures RemovePendingAsWritten(pending, url) == pending
  {
    assert Bare(url) !in pending;
  }

  /** A concrete instance: the URL just processed stays pending. */
  lemma PendingRemovalCounterexample()
    ensures Pair("a", 0) in RemovePendingAsWritten([Pair("a", 0)], "a")
  {
    PendingRemovalNeverMatches([Pair("a", 0)], "a");
  }

  /** The URLs of the entries, in order. */
  function EntryUrls(s: seq<Entry>): (r: seq<string>)
    ensures |r| == |s| && forall j :: 0 <= j < |s| ==> r[j] == s[j].url
  {
    if s == [] then [] else [s[0].url] + EntryUrls(s[1..])
  }

  /**
   * The first position of `url` in a list of URLs, or the list's length when
   * it does not occur; used both for the pending list and for the keys of the
   * retry schedule.
   */
  function IndexOfUrl(urls: seq<string>, url: string): (i: nat)
    ensures i <= |urls|
    ensures forall j :: 0 <= j < i ==> urls[j] != url
    ensures i < |urls| ==> urls[i] == url
  {
    if urls == [] then 0
    else if urls[0] == url then 0
    else 1 + IndexOfUrl(urls[1..], url)
  }

  /**
   * The evident intent: remove the first pending entry for `url`, whatever
   * its depth.
   */
  function RemovePending(pending: seq<Entry>, url: string): (r: seq<Entry>)
    ensures (forall j :: 0 <= j < |pending| ==> pending[j].url != url) ==> r == pending
    ensures (exists j :: 0 <= j < |pending| && pending[j].url == url) ==>
      var i := IndexOfUrl(EntryUrls(pending), url);
      i < |pending| && pending[i].url == url && |r| == |pending| - 1 && r == pending[..i] + pending[i + 1..]
  {
    var i := IndexOfUrl(EntryUrls(pending), url);
    if i < |pending| then pending[..i] + pending[i + 1..] else pending
  }

  /** The corrected removal keeps the pending list made of `(url, depth)` pairs. */
  lemma RemovePendingKeepsPairs(pending: seq<Entry>, url: string)
    requires AllPairs(pending)
    ensures AllPairs(RemovePending(pending, url))
  {
    var i := IndexOfUrl(EntryUrls(pending), url);
    if i < |pending| {
      var r := pending[..i] + pending[i + 1..];
      assert forall k :: 0 <= k < |r| ==> r[k] == pending[if k < i then k else k + 1];
    }
  }

  function UrlCount(s: seq<Entry>, url: string): (n: nat)
    ensures n <= |s|
  {
    if s == [] then 0 else UrlCount(s[..|s| - 1], url) + (if s[|s| - 1].url == url then 1 else 0)
  }

  lemma {:induction false} UrlCountAppend(a: seq<Entry>, b: seq<Entry>, url: string)
    ensures UrlCount(a + b, url) == UrlCount(a, url) + UrlCount(b, url)
    decreases |b|
  {
    if b == [] {
      assert a + b == a;
    } else {
      UrlCountAppend(a, b[..|b| - 1], url);
      assert (a + b)[..|a + b| - 1] == a + b[..|b| - 1];
    }
  }

  lemma {:induction false} UrlCountPositive(s: seq<Entry>, url: string)
    ensures UrlCount(s, url) > 0 <==> exists j :: 0 <= j < |s| && s[j].url == url
  {
    if s != [] {
      UrlCountPositive(s[..|s| - 1], url);
      if UrlCount(s[..|s| - 1], url) > 0 {
        var j :| 0 <= j < |s| - 1 && s[..|s| - 1][j].url == url;
        assert s[j].url == url;
      }
    }
  }

  /** The corrected removal takes exactly one entry for the URL off the pending list. */
  lemma {:induction false} RemovePendingRemovesOne(pending: seq<Entry>, url: string)
    requires exists j :: 0 <= j < |pending| && pending[j].url == url
    ensures UrlCount(RemovePending(pending, url), url) == UrlCount(pending, url) - 1
  {
    var i := IndexOfUrl(EntryUrls(pending), url);
    assert pending == pending[..i] + [pending[i]] + pending[i + 1..];
    UrlCountAppend(pending[..i] + [pending[i]], pending[i + 1..], url);
    UrlCountAppend(pending[..i], [pending[i]], url);
    UrlCountAppend(pending[..i], pending[i + 1..], url);
    assert UrlCount([pending[i]], url) == 1 by {
      assert [pending[i]][..0] == [];
    }
  }

  /** With the corrected removal, processing the only pending entry for a URL clears it. */
  lemma CorrectedRemovalClearsUrl()
    ensures RemovePending([Pair("a", 0)], "a") == []
  {
    assert [Pair("a", 0)][0].url == "a";
  }
}
