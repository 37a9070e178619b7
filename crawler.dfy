/**
 * The crawl bookkeeping of `Spider` (spider/core/crawler.py): the frontier
 * `to_visit`, the dispatched-but-unfinished `pending_urls`, the `visited`
 * list, the depth cache `url_cache`, the retry counters and schedule, and the
 * page counter, with the handlers that move URLs between them. Threads,
 * queues between processes and timers are replaced by sequential calls; the
 * task queue is a sequence and "now" is a parameter.
 */
module Crawler {
  import opened Wrappers
  import opened Frontier
  import Http
  import RateController
  import Checkpoint

  // ---------------------------------------------------------------------------
  // Refilling the task queue

  /** The popped entries that are dispatched: those whose URL is not visited, as pairs. */
  function Dispatch(es: seq<Entry>, visited: seq<string>): (r: seq<Entry>)
    ensures |r| <= |es| && AllPairs(r)
    ensures forall i :: 0 <= i < |r| ==> r[i].url !in visited
  {
    if es == [] then []
    else
      var last := es[|es| - 1];
      Dispatch(es[..|es| - 1], visited) + (if last.url in visited then [] else [AsPair(last)])
  }

  lemma {:induction false} DispatchAppend(a: seq<Entry>, b: seq<Entry>, visited: seq<string>)
    ensures Dispatch(a + b, visited) == Dispatch(a, visited) + Dispatch(b, visited)
    decreases |b|
  {
    if b == [] {
      assert a + b == a;
    } else {
      var init := b[..|b| - 1];
      var last := b[|b| - 1];
      var tail := if last.url in visited then [] else [AsPair(last)];
      assert (a + b)[..|a + b| - 1] == a + init;
      assert (a + b)[|a + b| - 1] == last;
      assert Dispatch(a + b, visited) == Dispatch(a + init, visited) + tail;
      DispatchAppend(a, init, visited);
      assert Dispatch(b, visited) == Dispatch(init, visited) + tail;
    }
  }

  /** Every popped entry with an unvisited URL is dispatched, in its `(url, depth)` form. */
  lemma {:induction false} DispatchKeepsUnvisited(es: seq<Entry>, visited: seq<string>, i: nat)
    requires i < |es| && es[i].url !in visited
    ensures AsPair(es[i]) in Dispatch(es, visited)
  {
    if i < |es| - 1 {
      DispatchKeepsUnvisited(es[..|es| - 1], visited, i);
    }
  }

  /** How many entries one pass of `_fill_task_queue` pops. */
  function Budget(targetWorkers: int, pendingCount: nat): (b: int)
    ensures b >= 1 && b >= 2 * targetWorkers - pendingCount
  {
    RateController.MaxI(1, targetWorkers * 2 - pendingCount)
  }

  /** The outcome of a refill: how many entries were popped from the front, and what was dispatched. */
  datatype Refilled = Refilled(popped: nat, sent: seq<Entry>)

  /**
   * `_fill_task_queue` as a function of the frontier: pop up to the budget
   * from the front, dispatch the unvisited ones, and pass again while nothing
   * was dispatched and entries remain.
   */
  function Refill(toVisit: seq<Entry>, pendingCount: nat, visited: seq<string>, targetWorkers: int): (r: Refilled)
    ensures r.popped <= |toVisit|
    ensures r.sent == Dispatch(toVisit[..r.popped], visited)
    ensures |r.sent| <= Budget(targetWorkers, pendingCount)
    ensures r.sent == [] ==> r.popped == |toVisit|
    decreases |toVisit|
  {
    var k := RateController.MinI(Budget(targetWorkers, pendingCount), |toVisit|);
    var sent := Dispatch(toVisit[..k], visited);
    if sent == [] && k < |toVisit| then
      var r := Refill(toVisit[k..], pendingCount, visited, targetWorkers);
      SkippedPrefix(toVisit, k, r.popped, visited);
      Refilled(k + r.popped, r.sent)
    else
      Refilled(k, sent)
  }

  /** A popped prefix that dispatched nothing contributes nothing to a longer one. */
  lemma SkippedPrefix(es: seq<Entry>, k: nat, p: nat, visited: seq<string>)
    requires k + p <= |es| && Dispatch(es[..k], visited) == []
    ensures Dispatch(es[..k + p], visited) == Dispatch(es[k..][..p], visited)
  {
    assert es[k..][..p] == es[k..k + p];
    assert es[..k + p] == es[..k] + es[k..k + p];
    DispatchAppend(es[..k], es[k..][..p], visited);
  }

  /** A refill that dispatches nothing has emptied the frontier: every popped URL was visited. */
  lemma RefillDrainsVisited(toVisit: seq<Entry>, pendingCount: nat, visited: seq<string>, targetWorkers: int)
    requires Refill(toVisit, pendingCount, visited, targetWorkers).sent == []
    ensures Refill(toVisit, pendingCount, visited, targetWorkers).popped == |toVisit|
    ensures forall i :: 0 <= i < |toVisit| ==> toVisit[i].url in visited
  {
    forall i | 0 <= i < |toVisit|
      ensures toVisit[i].url in visited
    {
      if toVisit[i].url !in visited {
        assert toVisit[..|toVisit|] == toVisit;
        DispatchKeepsUnvisited(toVisit, visited, i);
      }
    }
  }

  // ---------------------------------------------------------------------------
  // Enqueueing the links of a page

  datatype Enqueued = Enqueued(entries: seq<Entry>, cache: map<string, int>)

  /**
   * The link loop of `_handle_success_result`: each link not yet in the cache
   * is appended with depth `depth` and cached with that depth.
   */
  function EnqueueLinks(links: seq<string>, cache: map<string, int>, depth: int): (r: Enqueued)
    ensures forall i :: 0 <= i < |r.entries| ==> r.entries[i] == Pair(r.entries[i].url, depth)
    ensures forall i :: 0 <= i < |r.entries| ==> r.entries[i].url !in cache && r.entries[i].url in r.cache
    ensures forall u :: u in r.cache <==> u in cache || u in links
    ensures forall u :: u in cache ==> r.cache[u] == cache[u]
    ensures forall u :: u in r.cache && u !in cache ==> r.cache[u] == depth
  {
    if links == [] then Enqueued([], cache)
    else
      var r := EnqueueLinks(links[..|links| - 1], cache, depth);
      var link := links[|links| - 1];
      assert forall u :: u in links <==> u in links[..|links| - 1] || u == link;
      if link in r.cache then r
      else Enqueued(r.entries + [Pair(link, depth)], r.cache[link := depth])
  }

  /** One more link: enqueued and cached unless the cache already holds it. */
  lemma EnqueueLinksStep(links: seq<string>, cache: map<string, int>, depth: int, i: nat)
    requires i < |links|
    ensures var r := EnqueueLinks(links[..i], cache, depth);
      EnqueueLinks(links[..i + 1], cache, depth) ==
        if links[i] in r.cache then r else Enqueued(r.entries + [Pair(links[i], depth)], r.cache[links[i] := depth])
  {
    assert links[..i + 1][..i] == links[..i];
  }

  /** No link is enqueued twice, and every link new to the cache is enqueued. */
  lemma {:induction false} EnqueueLinksOnce(links: seq<string>, cache: map<string, int>, depth: int)
    ensures var r := EnqueueLinks(links, cache, depth);
      && (forall i, j :: 0 <= i < j < |r.entries| ==> r.entries[i].url != r.entries[j].url)
      && (forall u :: u in links && u !in cache ==> Pair(u, depth) in r.entries)
  {
    if links != [] {
      var init := links[..|links| - 1];
      EnqueueLinksOnce(init, cache, depth);
      assert forall u :: u in links ==> u in init || u == links[|links| - 1];
    }
  }

  // ---------------------------------------------------------------------------
  // Retries

  /** `x` raised to the `n`. */
  function Pow(x: real, n: nat): (r: real)
    ensures x > 0.0 ==> r > 0.0
  {
    if n == 0 then 1.0 else x * Pow(x, n - 1)
  }

  /** What `_process_retry_queue` does with one retry item. */
  datatype RetryOutcome = DropExhausted | DropAfterRetryOnce | Schedule(delay: real) | RequeueNow

  /**
   * The retry decision: drop after `maxRetries` attempts, drop a retry_once
   * URL already retried, otherwise wait `retryAfter * 1.5^count` seconds, or
   * requeue at once when that is not positive.
   */
  function RetryDecision(count: nat, maxRetries: nat, action: Http.Action, retryAfter: int): (o: RetryOutcome)
    ensures o == DropExhausted <==> count >= maxRetries
    ensures o == DropAfterRetryOnce <==> count < maxRetries && action == Http.RetryOnce && count > 0
    ensures o.Schedule? <==> count < maxRetries && !(action == Http.RetryOnce && count > 0) && retryAfter > 0
    ensures o.Schedule? ==> o.delay > 0.0 && o.delay == retryAfter as real * Pow(1.5, count)
  {
    if count >= maxRetries then DropExhausted
    else if action == Http.RetryOnce && count > 0 then DropAfterRetryOnce
    else
      var delay := retryAfter as real * Pow(1.5, count);
      if delay > 0.0 then Schedule(delay) else RequeueNow
  }

  /** Each attempt waits one and a half times as long as the one before. */
  lemma BackoffGrows(count: nat, maxRetries: nat, action: Http.Action, retryAfter: int)
    requires count + 1 < maxRetries && action != Http.RetryOnce && retryAfter > 0
    ensures RetryDecision(count + 1, maxRetries, action, retryAfter).delay ==
            1.5 * RetryDecision(count, maxRetries, action, retryAfter).delay
  {
  }

  /** A retry_once URL is scheduled at most once: its second item is dropped. */
  lemma RetryOnceRetriesOnce(maxRetries: nat, retryAfter: int)
    requires maxRetries > 1 && retryAfter > 0
    ensures RetryDecision(0, maxRetries, Http.RetryOnce, retryAfter) == Schedule(retryAfter as real)
    ensures RetryDecision(1, maxRetries, Http.RetryOnce, retryAfter) == DropAfterRetryOnce
  {
  }

  /** The identity a scheduled retry carries: `f"{url}_{time.time()}"`. */
  datatype RetryId = RetryId(url: string, issued: real)

  datatype RetryInfo = RetryInfo(scheduled: bool, retryTime: real, attempt: nat, retryId: RetryId)

  /** The retry schedule, a dictionary from URL to its entry in insertion order. */
  datatype RetryEntry = RetryEntry(url: string, info: RetryInfo)

  predicate DistinctKeys(st: seq<RetryEntry>) {
    forall i, j :: 0 <= i < j < |st| ==> st[i].url != st[j].url
  }

  /** `retry_status.get(url)`. */
  function Lookup(st: seq<RetryEntry>, url: string): (r: Option<RetryInfo>)
    ensures r.None? <==> forall j :: 0 <= j < |st| ==> st[j].url != url
    ensures r.Some? ==> exists j :: 0 <= j < |st| && st[j] == RetryEntry(url, r.value)
  {
    var i := IndexOfUrl(Urls(st), url);
    if i < |st| then Some(st[i].info) else None
  }

  /** With distinct keys, the entry found for a URL is its only entry. */
  lemma LookupUnique(st: seq<RetryEntry>, url: string, j: nat)
    requires DistinctKeys(st) && j < |st| && st[j].url == url
    ensures IndexOfUrl(Urls(st), url) == j && Lookup(st, url) == Some(st[j].info)
  {
  }

  /** `retry_status[url] = info`: replaced in place when present, appended otherwise. */
  function Put(st: seq<RetryEntry>, url: string, info: RetryInfo): (r: seq<RetryEntry>)
    requires DistinctKeys(st)
    ensures DistinctKeys(r)
    ensures |r| == |st| + (if Lookup(st, url).None? then 1 else 0)
    ensures forall i :: 0 <= i < |st| ==> r[i] == (if st[i].url == url then RetryEntry(url, info) else st[i])
  {
    var i := IndexOfUrl(Urls(st), url);
    if i < |st| then st[i := RetryEntry(url, info)] else st + [RetryEntry(url, info)]
  }

  /** After `Put`, the URL maps to the new entry and every other URL to what it mapped to before. */
  lemma PutLookup(st: seq<RetryEntry>, url: string, info: RetryInfo, other: string)
    requires DistinctKeys(st) && other != url
    ensures Lookup(Put(st, url, info), url) == Some(info)
    ensures Lookup(Put(st, url, info), other) == Lookup(st, other)
  {
    var r := Put(st, url, info);
    var i := IndexOfUrl(Urls(st), url);
    LookupUnique(r, url, i);
    var j := IndexOfUrl(Urls(st), other);
    if j < |st| {
      LookupUnique(r, other, j);
    } else {
      assert forall k :: 0 <= k < |r| ==> r[k].url != other;
    }
  }

  /** The entries `_check_scheduled_retries` finds due: scheduled, with a retry time not after now. */
  function DueRetries(st: seq<RetryEntry>, now: real): (r: seq<RetryEntry>)
    ensures forall i :: 0 <= i < |r| ==> r[i] in st && r[i].info.scheduled && r[i].info.retryTime <= now
    ensures forall e :: e in st && e.info.scheduled && e.info.retryTime <= now ==> e in r
    ensures |r| <= |st|
  {
    if st == [] then []
    else
      var e := st[|st| - 1];
      var init := DueRetries(st[..|st| - 1], now);
      assert forall x :: x in st ==> x in st[..|st| - 1] || x == e;
      if e.info.scheduled && e.info.retryTime <= now then init + [e] else init
  }

  function Urls(es: seq<RetryEntry>): (r: seq<string>)
    ensures |r| == |es| && forall i :: 0 <= i < |es| ==> r[i] == es[i].url
  {
    seq(|es|, i requires 0 <= i < |es| => es[i].url)
  }

  /** The schedule with the entries of `urls` marked as no longer scheduled. */
  function Unscheduled(st: seq<RetryEntry>, urls: seq<string>): (r: seq<RetryEntry>)
    ensures |r| == |st|
    ensures forall i :: 0 <= i < |st| ==> r[i].url == st[i].url
    ensures forall i :: 0 <= i < |st| ==>
      r[i].info == (if st[i].url in urls then st[i].info.(scheduled := false) else st[i].info)
  {
    seq(|st|, i requires 0 <= i < |st| =>
      if st[i].url in urls then RetryEntry(st[i].url, st[i].info.(scheduled := false)) else st[i])
  }

  /** The urls of a distinct-keyed schedule's due entries are distinct. */
  lemma {:induction false} DueRetriesDistinct(st: seq<RetryEntry>, now: real)
    requires DistinctKeys(st)
    ensures DistinctKeys(DueRetries(st, now))
  {
    if st != [] {
      var init := st[..|st| - 1];
      DueRetriesDistinct(init, now);
      var d := DueRetries(init, now);
      forall i | 0 <= i < |d|
        ensures d[i].url != st[|st| - 1].url
      {
        var k :| 0 <= k < |init| && init[k] == d[i];
      }
    }
  }

  /** Marking one more processed URL in place is `Unscheduled` over the longer list. */
  lemma PutUnscheduled(st: seq<RetryEntry>, urls: seq<string>, url: string, j: nat)
    requires DistinctKeys(st) && j < |st| && st[j].url == url
    ensures DistinctKeys(Unscheduled(st, urls))
    ensures Lookup(Unscheduled(st, urls), url) == Some(Unscheduled(st, urls)[j].info)
    ensures Put(Unscheduled(st, urls), url, Unscheduled(st, urls)[j].info.(scheduled := false))
            == Unscheduled(st, urls + [url])
  {
    var u := Unscheduled(st, urls);
    LookupUnique(u, url, j);
    var p := Put(u, url, u[j].info.(scheduled := false));
    var w := Unscheduled(st, urls + [url]);
    forall i | 0 <= i < |st|
      ensures p[i] == w[i]
    {
      if i != j {
        assert st[i].url != url;
        assert (st[i].url in urls + [url]) == (st[i].url in urls);
      }
    }
  }

  /**
   * The `i`-th due entry is still scheduled, under its own id, once the
   * earlier ones are processed; unscheduling it extends the processed list,
   * and requeueing it extends the requeued frontier.
   */
  lemma DueStep(st0: seq<RetryEntry>, now: real, i: nat, tv0: seq<Entry>, visited: seq<string>, pending: seq<Entry>)
    requires DistinctKeys(st0) && i < |DueRetries(st0, now)|
    ensures var due := DueRetries(st0, now);
      var urls := Urls(due);
      var u := Unscheduled(st0, urls[..i]);
      && DistinctKeys(u)
      && Lookup(u, due[i].url) == Some(due[i].info) && due[i].info.scheduled
      && Put(u, due[i].url, due[i].info.(scheduled := false)) == Unscheduled(st0, urls[..i + 1])
      && var t := RequeueAll(urls[..i], tv0, visited, pending);
         RequeueAll(urls[..i + 1], tv0, visited, pending)
           == (if CanRequeue(due[i].url, visited, pending, t) then t + [Bare(due[i].url)] else t)
  {
    var due := DueRetries(st0, now);
    var urls := Urls(due);
    var e := due[i];
    var j :| 0 <= j < |st0| && st0[j] == e;
    assert urls[..i + 1] == urls[..i] + [e.url];
    RequeueAllSnoc(urls[..i], e.url, tv0, visited, pending);
    DueUrlNotYetProcessed(st0, now, i);
    PutUnscheduled(st0, urls[..i], e.url, j);
  }

  /** The `i`-th due URL is not among the ones before it. */
  lemma DueUrlNotYetProcessed(st0: seq<RetryEntry>, now: real, i: nat)
    requires DistinctKeys(st0) && i < |DueRetries(st0, now)|
    ensures DueRetries(st0, now)[i].url !in Urls(DueRetries(st0, now))[..i]
  {
    var due := DueRetries(st0, now);
    var urls := Urls(due);
    DueRetriesDistinct(st0, now);
    forall k | 0 <= k < i
      ensures urls[k] != due[i].url
    {
      assert due[k].url != due[i].url;
    }
  }

  /** Requeueing one more URL appends it exactly when it can be requeued. */
  lemma RequeueAllSnoc(urls: seq<string>, url: string, tv0: seq<Entry>, visited: seq<string>, pending: seq<Entry>)
    ensures var t := RequeueAll(urls, tv0, visited, pending);
            RequeueAll(urls + [url], tv0, visited, pending) == (if CanRequeue(url, visited, pending, t) then t + [Bare(url)] else t)
  {
    assert (urls + [url])[..|urls|] == urls;
  }

  /** A URL not yet processed keeps its entry. */
  lemma LookupUnscheduled(st: seq<RetryEntry>, urls: seq<string>, url: string)
    requires DistinctKeys(st) && url !in urls
    ensures Lookup(Unscheduled(st, urls), url) == Lookup(st, url)
  {
    var u := Unscheduled(st, urls);
    var i := IndexOfUrl(Urls(st), url);
    if i < |st| {
      LookupUnique(u, url, i);
    } else {
      assert forall k :: 0 <= k < |u| ==> u[k].url != url;
    }
  }

  /** The guard of `_requeue_url`: not visited, not pending, not already queued (as a bare URL). */
  predicate CanRequeue(url: string, visited: seq<string>, pending: seq<Entry>, toVisit: seq<Entry>) {
    url !in visited && Bare(url) !in pending && Bare(url) !in toVisit
  }

  /** The frontier after requeueing the due URLs in order, each checked against the frontier so far. */
  function RequeueAll(urls: seq<string>, toVisit: seq<Entry>, visited: seq<string>, pending: seq<Entry>): (r: seq<Entry>)
    ensures |toVisit| <= |r| <= |toVisit| + |urls| && r[..|toVisit|] == toVisit
    ensures forall i :: |toVisit| <= i < |r| ==> r[i].Bare? && r[i].url in urls && r[i].url !in visited && Bare(r[i].url) !in pending
  {
    if urls == [] then toVisit
    else
      var t := RequeueAll(urls[..|urls| - 1], toVisit, visited, pending);
      var u := urls[|urls| - 1];
      assert forall x :: x in urls[..|urls| - 1] ==> x in urls;
      if CanRequeue(u, visited, pending, t) then t + [Bare(u)] else t
  }

  /** The entries from position `n` on differ from every other entry. */
  predicate NewDistinct(r: seq<Entry>, n: nat) {
    forall i, j :: n <= i < |r| && 0 <= j < |r| && i != j ==> r[i] != r[j]
  }

  /** Requeueing never queues a bare URL twice. */
  lemma {:induction false} RequeueAllNoNewDuplicates(urls: seq<string>, toVisit: seq<Entry>, visited: seq<string>, pending: seq<Entry>)
    ensures NewDistinct(RequeueAll(urls, toVisit, visited, pending), |toVisit|)
  {
    if urls != [] {
      RequeueAllNoNewDuplicates(urls[..|urls| - 1], toVisit, visited, pending);
    }
  }

  // ---------------------------------------------------------------------------
  // Resume

  /** `url_cache[url] = 0` for each visited URL, in order. */
  function CacheVisited(cache: map<string, int>, urls: seq<string>): (r: map<string, int>)
    ensures forall u :: u in r <==> u in cache || u in urls
    ensures forall u :: u in urls ==> r[u] == 0
    ensures forall u :: u in cache && u !in urls ==> r[u] == cache[u]
  {
    if urls == [] then cache
    else
      assert forall u :: u in urls <==> u in urls[..|urls| - 1] || u == urls[|urls| - 1];
      CacheVisited(cache, urls[..|urls| - 1])[urls[|urls| - 1] := 0]
  }

  predicate HasUrl(es: seq<Entry>, u: string) {
    exists i :: 0 <= i < |es| && es[i].url == u
  }

  /** `url_cache[url] = depth` for each frontier entry, in order: the last write for a URL wins. */
  function CacheEntries(cache: map<string, int>, es: seq<Entry>): (r: map<string, int>)
    ensures forall u :: u in r <==> u in cache || HasUrl(es, u)
    ensures forall u :: u in cache && !HasUrl(es, u) ==> r[u] == cache[u]
  {
    if es == [] then cache
    else
      var e := es[|es| - 1];
      var r := CacheEntries(cache, es[..|es| - 1]);
      assert forall u :: HasUrl(es, u) <==> HasUrl(es[..|es| - 1], u) || e.url == u by {
        forall u | HasUrl(es, u) && e.url != u
          ensures HasUrl(es[..|es| - 1], u)
        {
          var i :| 0 <= i < |es| && es[i].url == u;
          assert es[..|es| - 1][i] == es[i];
        }
        forall u | HasUrl(es[..|es| - 1], u)
          ensures HasUrl(es, u)
        {
          var i :| 0 <= i < |es| - 1 && es[..|es| - 1][i].url == u;
          assert es[i].url == u;
        }
      }
      r[e.url := DepthOf(e)]
  }

  /** The entry written last for a URL decides its cached depth. */
  lemma {:induction false} CacheEntriesLastWins(cache: map<string, int>, es: seq<Entry>, i: nat)
    requires i < |es| && forall j :: i < j < |es| ==> es[j].url != es[i].url
    ensures CacheEntries(cache, es)[es[i].url] == DepthOf(es[i])
  {
    if i < |es| - 1 {
      CacheEntriesLastWins(cache, es[..|es| - 1], i);
    }
  }

  /** The frontier a resumed crawl starts from: the saved pending entries, then the saved frontier. */
  function ResumedFrontier(d: Checkpoint.CheckpointData): (r: seq<Entry>)
    ensures AllPairs(r)
    ensures |r| == |d.pendingUrls.GetOr([])| + |d.toVisit.GetOr([])|
  {
    Normalize(d.pendingUrls.GetOr([])) + Normalize(d.toVisit.GetOr([]))
  }

  /** The checkpoint dictionary `_save_checkpoint` builds (before stamping). */
  function SavedData(visited: seq<string>, toVisit: seq<Entry>, pending: seq<Entry>, pages: int,
                     retryCounts: map<string, nat>, rate: RateController.RateCheckpoint): (d: Checkpoint.CheckpointData)
    ensures d.visited == Some(visited) && d.pagesVisited == Some(pages) && d.retryCounts == Some(retryCounts)
    ensures d.toVisit == Some(Normalize(toVisit)) && d.pendingUrls == Some(Normalize(pending))
    ensures d.rateController == Some(rate) && d.checkpointTime.None?
  {
    Checkpoint.CheckpointData(Some(visited), Some(Normalize(toVisit)), Some(Normalize(pending)), Some(pages),
                              Some(retryCounts), Some(rate), None, None)
  }

  /**
   * Save then resume: the stamped file passes validation, and the resumed
   * frontier is the pending entries followed by the frontier, both as pairs;
   * with nothing pending and only pairs queued it is the frontier itself.
   */
  lemma SaveResumeRoundTrip(visited: seq<string>, toVisit: seq<Entry>, pending: seq<Entry>, pages: int,
                            retryCounts: map<string, nat>, rate: RateController.RateCheckpoint, now: real)
    ensures var d := Checkpoint.Stamped(SavedData(visited, toVisit, pending, pages, retryCounts, rate), now);
      && Checkpoint.Validate(Checkpoint.Written(d)) == Some(d)
      && ResumedFrontier(d) == Normalize(pending) + Normalize(toVisit)
      && (pending == [] && AllPairs(toVisit) ==> ResumedFrontier(d) == toVisit)
      && d.visited == Some(visited) && d.pagesVisited == Some(pages)
  {
    var d := Checkpoint.Stamped(SavedData(visited, toVisit, pending, pages, retryCounts, rate), now);
    NormalizeFixesPairs(toVisit);
    NormalizeFixesPairs(Normalize(pending));
    assert Normalize(Normalize(pending)) == Normalize(pending);
    NormalizeFixesPairs(Normalize(toVisit));
    if pending == [] {
      assert Normalize(pending) == [];
    }
  }

  // ---------------------------------------------------------------------------
  // The spider

  /** A message on the result queue. */
  datatype CrawlResult =
      /** `worker_status`, `worker_shutdown` and `worker_shutdown_complete` notices. */
    | WorkerNotice
      /** A page outcome: its URL, the depth it carries, the links found and the response data. */
    | PageResult(url: string, depth: int, links: seq<string>, response: RateController.ResponseData)

  /** `handling.get("action")`, absent when the result carries no handling. */
  function ActionOf(resp: RateController.ResponseData): Option<Http.Action> {
    if resp.handling.Some? then Some(resp.handling.value.action) else None
  }

  /** `if url not in visited: visited.append(url)`. */
  function MarkVisited(visited: seq<string>, url: string): (r: seq<string>)
    ensures url in r && |r| <= |visited| + 1
    ensures url in visited ==> r == visited
    ensures url !in visited ==> r == visited + [url]
  {
    if url in visited then visited else visited + [url]
  }

  /** The conversion loops of `_save_checkpoint`: each entry in `(url, depth)` form. */
  method SerializeEntries(es: seq<Entry>) returns (r: seq<Entry>)
    ensures r == Normalize(es)
  {
    r := [];
    var i := 0;
    while i < |es|
      invariant 0 <= i <= |es| && r == Normalize(es[..i])
    {
      assert es[..i + 1][..i] == es[..i];
      r := r + [AsPair(es[i])];
      i := i + 1;
    }
    assert es[..i] == es;
  }

  /**
   * One round of `_fill_task_queue`: pop up to `budget` entries from the
   * front of the frontier and dispatch those not yet visited, as pairs.
   */
  method PopAndDispatch(toVisit: seq<Entry>, budget: int, visited: seq<string>) returns (rest: seq<Entry>, sent: seq<Entry>)
    requires budget >= 1
    ensures var k := RateController.MinI(budget, |toVisit|);
      rest == toVisit[k..] && sent == Dispatch(toVisit[..k], visited)
  {
    var n := RateController.MinI(budget, |toVisit|);
    rest, sent := toVisit, [];
    for i := 0 to n
      invariant rest == toVisit[i..] && sent == Dispatch(toVisit[..i], visited)
    {
      var e := rest[0];
      rest := rest[1..];
      assert toVisit[..i + 1][..i] == toVisit[..i];
      if e.url !in visited {
        sent := sent + [AsPair(e)];
      }
    }
  }

  /**
   * The frontier, pending list and task queue `(tv, p, q)` are what one
   * `Refill` makes of `(tv0, p0, q0)`: the popped prefix is gone and what
   * it dispatched is appended to both the pending list and the task queue.
   */
  ghost predicate Filled(tv0: seq<Entry>, p0: seq<Entry>, q0: seq<Entry>, visited: seq<string>, tw: int,
                         tv: seq<Entry>, p: seq<Entry>, q: seq<Entry>)
  {
    var r := Refill(tv0, |p0|, visited, tw);
    tv == tv0[r.popped..] && p == p0 + r.sent && q == q0 + r.sent
  }

  /** One round that dispatched something, or emptied the frontier, is the whole refill. */
  lemma FilledInOneRound(tv0: seq<Entry>, p0: seq<Entry>, q0: seq<Entry>, visited: seq<string>, tw: int,
                         rest: seq<Entry>, sent: seq<Entry>)
    requires var k := RateController.MinI(Budget(tw, |p0|), |tv0|);
      rest == tv0[k..] && sent == Dispatch(tv0[..k], visited)
    requires sent != [] || rest == []
    ensures Filled(tv0, p0, q0, visited, tw, rest, p0 + sent, q0 + sent)
  {
  }

  /** A round that dispatched nothing, followed by the retry on what is left, is the whole refill. */
  lemma FilledByRetry(tv0: seq<Entry>, p0: seq<Entry>, q0: seq<Entry>, visited: seq<string>, tw: int,
                      rest: seq<Entry>, tv: seq<Entry>, p: seq<Entry>, q: seq<Entry>)
    requires var k := RateController.MinI(Budget(tw, |p0|), |tv0|);
      rest == tv0[k..] && Dispatch(tv0[..k], visited) == []
    requires rest != []
    requires Filled(rest, p0, q0, visited, tw, tv, p, q)
    ensures Filled(tv0, p0, q0, visited, tw, tv, p, q)
  {
    var k := RateController.MinI(Budget(tw, |p0|), |tv0|);
    var r := Refill(rest, |p0|, visited, tw);
    assert rest[r.popped..] == tv0[k + r.popped..];
  }

  /** The two cache loops of `resume_from_checkpoint`. */
  method BuildUrlCache(visited: seq<string>, toVisit: seq<Entry>) returns (cache: map<string, int>)
    ensures cache == CacheEntries(CacheVisited(map[], visited), toVisit)
  {
    cache := map[];
    for i := 0 to |visited|
      invariant cache == CacheVisited(map[], visited[..i])
    {
      assert visited[..i + 1][..i] == visited[..i];
      cache := cache[visited[i] := 0];
    }
    assert visited[..|visited|] == visited;
    var fromVisited := cache;
    for i := 0 to |toVisit|
      invariant cache == CacheEntries(fromVisited, toVisit[..i])
    {
      assert toVisit[..i + 1][..i] == toVisit[..i];
      cache := cache[toVisit[i].url := DepthOf(toVisit[i])];
    }
    assert toVisit[..|toVisit|] == toVisit;
  }

  class Spider {
    const startUrl: string
    const maxDepth: Option<int>
    const maxPages: Option<int>
    const maxRetries: nat
    const rate: RateController.CrawlRateController
    const checkpoints: Checkpoint.CheckpointManager
    var toVisit: seq<Entry>
    var pendingUrls: seq<Entry>
    var visited: seq<string>
    var urlCache: map<string, int>
    var retryCounts: map<string, nat>
    var pagesVisited: int
    /** The task queue, as the sequence of `(url, depth)` tasks put on it. */
    var taskQueue: seq<Entry>
    /** The schedule `_process_retry_queue` keeps in its local `retry_status`. */
    var retryStatus: seq<RetryEntry>
    /** The shared values `target_workers` and `current_delay` the workers read. */
    var targetWorkers: int
    var currentDelay: real

    /**
     * Pending entries and tasks are pairs, the retry schedule has one entry
     * per URL, and the rate controller is consistent.
     */
    ghost predicate Valid()
      reads this, rate
    {
      && rate.Valid()
      && AllPairs(pendingUrls) && AllPairs(taskQueue) && DistinctKeys(retryStatus)
      && maxRetries == 3
    }

    /** The fields a retry requeue leaves alone. */
    ghost function Untouched(): (seq<string>, seq<Entry>, map<string, int>, map<string, nat>, int, seq<Entry>, int, real)
      reads this
    {
      (visited, pendingUrls, urlCache, retryCounts, pagesVisited, taskQueue, targetWorkers, currentDelay)
    }

    /** The depth limit test of `_handle_success_result` for the links of a page at `depth`. */
    predicate DepthAllows(depth: int) {
      maxDepth.None? || depth + 1 <= maxDepth.value
    }

    constructor (startUrl: string, maxDepth: Option<int>, maxPages: Option<int>,
                 rate: RateController.CrawlRateController, checkpoints: Checkpoint.CheckpointManager)
      requires rate.Valid()
      ensures Valid()
      ensures this.startUrl == startUrl && this.maxDepth == maxDepth && this.maxPages == maxPages
      ensures this.rate == rate && this.checkpoints == checkpoints && maxRetries == 3
      ensures toVisit == [Pair(startUrl, 0)] && urlCache == map[startUrl := 0]
      ensures pendingUrls == [] && visited == [] && retryCounts == map[] && pagesVisited == 0
      ensures taskQueue == [] && retryStatus == []
      ensures targetWorkers == rate.targetWorkers && currentDelay == rate.currentDelay
    {
      this.startUrl := startUrl;
      this.maxDepth := maxDepth;
      this.maxPages := maxPages;
      maxRetries := 3;
      this.rate := rate;
      this.checkpoints := checkpoints;
      toVisit := [Pair(startUrl, 0)];
      pendingUrls := [];
      visited := [];
      urlCache := map[startUrl := 0];
      retryCounts := map[];
      pagesVisited := 0;
      taskQueue := [];
      retryStatus := [];
      targetWorkers := rate.targetWorkers;
      currentDelay := rate.currentDelay;
    }

    /**
     * The start-up fallback of `start`: with nothing queued and nothing
     * pending, the start URL is queued as a bare URL unless already visited.
     */
    method AddStartUrlIfIdle()
      requires Valid()
      modifies this
      ensures Valid()
      ensures toVisit == (if old(toVisit) == [] && pendingUrls == [] && startUrl !in visited
                          then [Bare(startUrl)] else old(toVisit))
      ensures pendingUrls == old(pendingUrls) && visited == old(visited) && urlCache == old(urlCache)
    {
      if |toVisit| == 0 && |pendingUrls| == 0 {
        if Bare(startUrl) !in toVisit && startUrl !in visited {
          toVisit := toVisit + [Bare(startUrl)];
        }
      }
    }

    /** `_fill_task_queue`. */
    method FillTaskQueue()
      requires Valid()
      modifies this
      decreases |toVisit|
      ensures Valid()
      ensures Filled(old(toVisit), old(pendingUrls), old(taskQueue), visited, targetWorkers,
                     toVisit, pendingUrls, taskQueue)
      ensures visited == old(visited) && urlCache == old(urlCache) && retryCounts == old(retryCounts)
      ensures pagesVisited == old(pagesVisited) && retryStatus == old(retryStatus)
      ensures targetWorkers == old(targetWorkers) && currentDelay == old(currentDelay)
    {
      ghost var tv0, p0, q0 := toVisit, pendingUrls, taskQueue;
      var rest, sent := PopAndDispatch(toVisit, Budget(targetWorkers, |pendingUrls|), visited);
      var pending, queue := pendingUrls + sent, taskQueue + sent;
      AllPairsAppend(pendingUrls, sent);
      AllPairsAppend(taskQueue, sent);
      assert AllPairs(pending) && AllPairs(queue);
      toVisit, pendingUrls, taskQueue := rest, pending, queue;
      if sent == [] && |rest| > 0 {
        assert pending == p0 && queue == q0;
        FillTaskQueue();
        FilledByRetry(tv0, p0, q0, visited, targetWorkers, rest, toVisit, pendingUrls, taskQueue);
      } else {
        FilledInOneRound(tv0, p0, q0, visited, targetWorkers, rest, sent);
      }
    }

    /** `_handle_success_result` (the keyword and markdown output aside). */
    method HandleSuccess(url: string, depth: int, links: seq<string>)
      requires Valid()
      modifies this
      ensures Valid()
      ensures pendingUrls == RemovePending(old(pendingUrls), url)
      ensures visited == old(visited) + [url] && pagesVisited == old(pagesVisited) + 1
      ensures var e := if DepthAllows(depth) then EnqueueLinks(links, old(urlCache), depth + 1)
                       else Enqueued([], old(urlCache));
        toVisit == old(toVisit) + e.entries && urlCache == e.cache
      ensures retryCounts == old(retryCounts) && retryStatus == old(retryStatus) && taskQueue == old(taskQueue)
      ensures targetWorkers == old(targetWorkers) && currentDelay == old(currentDelay)
    {
      var entries: seq<Entry> := [];
      var cache := urlCache;
      if DepthAllows(depth) {
        var i := 0;
        while i < |links|
          invariant 0 <= i <= |links|
          invariant EnqueueLinks(links[..i], urlCache, depth + 1) == Enqueued(entries, cache)
          invariant unchanged(this)
        {
          EnqueueLinksStep(links, urlCache, depth + 1, i);
          if links[i] !in cache {
            entries := entries + [Pair(links[i], depth + 1)];
            cache := cache[links[i] := depth + 1];
          }
          i := i + 1;
        }
        assert links[..i] == links;
      }
      RemovePendingKeepsPairs(pendingUrls, url);
      pendingUrls := RemovePending(pendingUrls, url);
      visited, toVisit, urlCache, pagesVisited := visited + [url], toVisit + entries, cache, pagesVisited + 1;
    }

    /** `_handle_http_error_result`. */
    method HandleHttpError(url: string, action: Option<Http.Action>, now: real)
      requires Valid()
      modifies this, rate
      ensures Valid()
      ensures pendingUrls == RemovePending(old(pendingUrls), url)
      ensures visited == (if action.Some? && Http.IsRetryAction(action.value) then old(visited)
                          else MarkVisited(old(visited), url))
      ensures toVisit == old(toVisit) && urlCache == old(urlCache) && pagesVisited == old(pagesVisited)
      ensures retryCounts == old(retryCounts) && retryStatus == old(retryStatus) && taskQueue == old(taskQueue)
      ensures action != Some(Http.ThrottleAndRetry) ==>
        unchanged(rate) && targetWorkers == old(targetWorkers) && currentDelay == old(currentDelay)
      ensures action == Some(Http.ThrottleAndRetry) ==>
        || (targetWorkers == old(targetWorkers) && currentDelay == old(currentDelay))
        || (targetWorkers == rate.targetWorkers && currentDelay == rate.currentDelay)
      ensures old(rate.Bounded()) ==> rate.Bounded()
    {
      RemovePendingKeepsPairs(pendingUrls, url);
      var pending := RemovePending(pendingUrls, url);
      var seen := if action.Some? && Http.IsRetryAction(action.value) then visited else MarkVisited(visited, url);
      pendingUrls, visited := pending, seen;
      if action == Some(Http.ThrottleAndRetry) {
        ForceAdjustment(now);
      }
    }

    /** The rate-limiting branch: a forced adjustment, whose new settings are shared when it changed them. */
    method ForceAdjustment(now: real)
      requires Valid()
      modifies this, rate
      ensures Valid()
      ensures pendingUrls == old(pendingUrls) && visited == old(visited) && toVisit == old(toVisit)
      ensures urlCache == old(urlCache) && pagesVisited == old(pagesVisited)
      ensures retryCounts == old(retryCounts) && retryStatus == old(retryStatus) && taskQueue == old(taskQueue)
      ensures || (targetWorkers == old(targetWorkers) && currentDelay == old(currentDelay))
              || (targetWorkers == rate.targetWorkers && currentDelay == rate.currentDelay)
      ensures old(rate.Bounded()) ==> rate.Bounded()
    {
      var changed, workers, delay, reason := rate.AdjustRateIfNeeded(true, now);
      if changed {
        currentDelay, targetWorkers := delay, workers;
      }
    }

    /** `_handle_skipped_result`. */
    method HandleSkipped(url: string)
      requires Valid()
      modifies this
      ensures Valid()
      ensures pendingUrls == RemovePending(old(pendingUrls), url)
      ensures visited == MarkVisited(old(visited), url)
      ensures toVisit == old(toVisit) && urlCache == old(urlCache) && pagesVisited == old(pagesVisited)
      ensures retryCounts == old(retryCounts) && retryStatus == old(retryStatus) && taskQueue == old(taskQueue)
      ensures targetWorkers == old(targetWorkers) && currentDelay == old(currentDelay)
    {
      RemovePendingKeepsPairs(pendingUrls, url);
      pendingUrls, visited := RemovePending(pendingUrls, url), MarkVisited(visited, url);
    }

    /** `_handle_error_result`: the URL is not marked visited, since it may be retried. */
    method HandleError(url: string)
      requires Valid()
      modifies this
      ensures Valid()
      ensures pendingUrls == RemovePending(old(pendingUrls), url)
      ensures visited == old(visited) && toVisit == old(toVisit) && urlCache == old(urlCache)
      ensures pagesVisited == old(pagesVisited) && retryCounts == old(retryCounts)
      ensures retryStatus == old(retryStatus) && taskQueue == old(taskQueue)
      ensures targetWorkers == old(targetWorkers) && currentDelay == old(currentDelay)
    {
      RemovePendingKeepsPairs(pendingUrls, url);
      pendingUrls := RemovePending(pendingUrls, url);
    }

    /** The status dispatch of `_process_results` for a registered page result. */
    method HandlePage(url: string, depth: int, links: seq<string>, response: RateController.ResponseData, now: real)
      requires Valid()
      modifies this, rate
      ensures Valid()
      ensures pagesVisited == old(pagesVisited) + (if response.status == RateController.Success then 1 else 0)
      ensures response.status == RateController.Success ==> visited == old(visited) + [url]
      ensures response.status == RateController.Skipped ==> visited == MarkVisited(old(visited), url)
      ensures response.status in {RateController.Error, RateController.OtherStatus} ==> visited == old(visited)
      ensures response.status != RateController.OtherStatus ==>
        pendingUrls == RemovePending(old(pendingUrls), url)
      ensures response.status == RateController.OtherStatus ==> unchanged(this)
      ensures response.status != RateController.HttpError ==> unchanged(rate)
    {
      match response.status {
        case Success =>
          HandleSuccess(url, depth, links);
        case HttpError =>
          HandleHttpError(url, ActionOf(response), now);
        case Skipped =>
          HandleSkipped(url);
        case Error =>
          HandleError(url);
        case OtherStatus =>
      }
    }

    /**
     * One pass of the `_process_results` loop for a received message: worker
     * notices are only bookkeeping; a page result is registered with the rate
     * controller and handled by status, and the loop stops once `max_pages`
     * pages are visited, otherwise the task queue is refilled.
     */
    method ProcessResult(result: CrawlResult, now: real) returns (stop: bool)
      requires Valid()
      modifies this, rate
      ensures Valid()
      ensures result.WorkerNotice? ==> !stop && unchanged(this) && unchanged(rate)
      ensures result.PageResult? ==>
        && pagesVisited == old(pagesVisited) + (if result.response.status == RateController.Success then 1 else 0)
        && (stop <==> maxPages.Some? && pagesVisited >= maxPages.value)
      ensures result.PageResult? && result.response.status != RateController.HttpError ==>
        rate.stats == RateController.CountResponse(old(rate.stats), result.response)
      ensures result.PageResult? && result.response.status == RateController.Success ==>
        visited == old(visited) + [result.url]
      ensures result.PageResult? && result.response.status == RateController.Error ==> visited == old(visited)
    {
      match result
      case WorkerNotice =>
        return false;
      case PageResult(url, depth, links, response) =>
        stop := ProcessPage(url, depth, links, response, now);
    }

    /** A page result: registered with the rate controller, handled by status, then the stop test or a refill. */
    method ProcessPage(url: string, depth: int, links: seq<string>, response: RateController.ResponseData, now: real)
      returns (stop: bool)
      requires Valid()
      modifies this, rate
      ensures Valid()
      ensures pagesVisited == old(pagesVisited) + (if response.status == RateController.Success then 1 else 0)
      ensures stop <==> maxPages.Some? && pagesVisited >= maxPages.value
      ensures response.status != RateController.HttpError ==> rate.stats == RateController.CountResponse(old(rate.stats), response)
      ensures response.status == RateController.Success ==> visited == old(visited) + [url]
      ensures response.status == RateController.Error ==> visited == old(visited)
    {
      var registered := rate.RegisterResponse(response, now);
      ghost var counted := rate.stats;
      HandlePage(url, depth, links, response, now);
      assert response.status != RateController.HttpError ==> rate.stats == counted;
      if maxPages.Some? && pagesVisited >= maxPages.value {
        return true;
      }
      FillTaskQueue();
      stop := false;
    }

    /** The handling of one retry item in `_process_retry_queue`. */
    method ProcessRetryItem(url: string, retryAfter: int, action: Http.Action, now: real)
      requires Valid()
      modifies this
      ensures Valid()
      ensures var count := if url in old(retryCounts) then old(retryCounts)[url] else 0;
        var o := RetryDecision(count, maxRetries, action, retryAfter);
        && retryCounts == (if o == DropExhausted then old(retryCounts) else old(retryCounts)[url := count + 1])
        && visited == (if o == DropExhausted || o == DropAfterRetryOnce then MarkVisited(old(visited), url)
                       else old(visited))
        && retryStatus == (if o.Schedule?
                           then Put(old(retryStatus), url, RetryInfo(true, now + o.delay, count + 1, RetryId(url, now)))
                           else old(retryStatus))
        && toVisit == (if o == RequeueNow && url !in old(visited) && Bare(url) !in pendingUrls
                       then old(toVisit) + [Bare(url)] else old(toVisit))
      ensures pendingUrls == old(pendingUrls) && urlCache == old(urlCache) && pagesVisited == old(pagesVisited)
      ensures taskQueue == old(taskQueue) && targetWorkers == old(targetWorkers) && currentDelay == old(currentDelay)
    {
      var count := if url in retryCounts then retryCounts[url] else 0;
      var o := RetryDecision(count, maxRetries, action, retryAfter);
      if count >= maxRetries {
        visited := MarkVisited(visited, url);
        return;
      }
      retryCounts := retryCounts[url := count + 1];
      match o
      case DropAfterRetryOnce =>
        visited := MarkVisited(visited, url);
      case Schedule(delay) =>
        ScheduleRetry(url, RetryInfo(true, now + delay, count + 1, RetryId(url, now)));
      case RequeueNow =>
        if url !in visited && Bare(url) !in pendingUrls {
          toVisit := toVisit + [Bare(url)];
        }
      case DropExhausted =>
        assert false;
    }

    /** `retry_status[url] = info`: the schedule gains or updates the URL's entry and nothing else changes. */
    method ScheduleRetry(url: string, info: RetryInfo)
      requires Valid()
      modifies this
      ensures Valid() && retryStatus == Put(old(retryStatus), url, info)
      ensures retryCounts == old(retryCounts) && visited == old(visited) && toVisit == old(toVisit)
      ensures pendingUrls == old(pendingUrls) && urlCache == old(urlCache) && pagesVisited == old(pagesVisited)
      ensures taskQueue == old(taskQueue) && targetWorkers == old(targetWorkers) && currentDelay == old(currentDelay)
    {
      retryStatus := Put(retryStatus, url, info);
    }

    /**
     * `_requeue_url`: only the current schedule entry for the URL may requeue
     * it, and only when it is neither visited, pending nor queued; either way
     * the entry ends unscheduled.
     */
    method RequeueUrl(url: string, retryId: RetryId)
      requires Valid()
      modifies this
      ensures Valid()
      ensures var cur := Lookup(old(retryStatus), url);
        if cur.Some? && cur.value.scheduled && cur.value.retryId == retryId then
          && retryStatus == Put(old(retryStatus), url, cur.value.(scheduled := false))
          && toVisit == (if CanRequeue(url, visited, pendingUrls, old(toVisit)) then old(toVisit) + [Bare(url)]
                         else old(toVisit))
        else retryStatus == old(retryStatus) && toVisit == old(toVisit)
      ensures visited == old(visited) && pendingUrls == old(pendingUrls) && urlCache == old(urlCache)
      ensures retryCounts == old(retryCounts) && pagesVisited == old(pagesVisited) && taskQueue == old(taskQueue)
      ensures targetWorkers == old(targetWorkers) && currentDelay == old(currentDelay)
    {
      var cur := Lookup(retryStatus, url);
      if cur.Some? && cur.value.scheduled && cur.value.retryId == retryId {
        if url !in visited && Bare(url) !in pendingUrls && Bare(url) !in toVisit {
          toVisit := toVisit + [Bare(url)];
        }
        retryStatus := Put(retryStatus, url, cur.value.(scheduled := false));
      }
    }

    /**
     * `_check_scheduled_retries`: every entry due at `now` is requeued in
     * schedule order and marked unscheduled; no other entry changes.
     */
    method CheckScheduledRetries(now: real)
      requires Valid()
      modifies this
      ensures Valid()
      ensures var due := Urls(DueRetries(old(retryStatus), now));
        && retryStatus == Unscheduled(old(retryStatus), due)
        && toVisit == RequeueAll(due, old(toVisit), visited, pendingUrls)
      ensures visited == old(visited) && pendingUrls == old(pendingUrls) && urlCache == old(urlCache)
      ensures retryCounts == old(retryCounts) && pagesVisited == old(pagesVisited) && taskQueue == old(taskQueue)
      ensures targetWorkers == old(targetWorkers) && currentDelay == old(currentDelay)
    {
      var due := DueRetries(retryStatus, now);
      ghost var urls := Urls(due);
      ghost var st0 := retryStatus;
      ghost var tv0 := toVisit;
      var i := 0;
      while i < |due|
        invariant 0 <= i <= |due| && Valid()
        invariant retryStatus == Unscheduled(st0, urls[..i])
        invariant toVisit == RequeueAll(urls[..i], tv0, visited, pendingUrls)
        invariant Untouched() == old(Untouched())
      {
        RequeueDue(st0, now, tv0, due, i);
        i := i + 1;
      }
      assert urls[..i] == urls;
    }

    /** One pass of the `_check_scheduled_retries` loop: the `i`-th due entry is requeued. */
    method RequeueDue(ghost st0: seq<RetryEntry>, now: real, ghost tv0: seq<Entry>, due: seq<RetryEntry>, i: nat)
      requires Valid() && DistinctKeys(st0) && due == DueRetries(st0, now) && i < |due|
      requires retryStatus == Unscheduled(st0, Urls(DueRetries(st0, now))[..i])
      requires toVisit == RequeueAll(Urls(DueRetries(st0, now))[..i], tv0, visited, pendingUrls)
      modifies this
      ensures Valid()
      ensures retryStatus == Unscheduled(st0, Urls(DueRetries(st0, now))[..i + 1])
      ensures toVisit == RequeueAll(Urls(DueRetries(st0, now))[..i + 1], tv0, visited, pendingUrls)
      ensures Untouched() == old(Untouched())
    {
      DueStep(st0, now, i, tv0, visited, pendingUrls);
      RequeueUrl(due[i].url, due[i].info.retryId);
    }

    /**
     * `resume_from_checkpoint` over what `load_checkpoint` returns. A saved
     * recovery level must not be negative (see `FromCheckpoint`).
     */
    method Resume(now: real) returns (resumed: bool)
      requires Valid()
      requires var d := checkpoints.LoadCheckpoint();
        d.Some? && d.value.rateController.Some? ==>
          d.value.rateController.value.recoveryLevel.None? || d.value.rateController.value.recoveryLevel.value >= 0
      modifies this, rate
      ensures Valid()
      ensures checkpoints.LoadCheckpoint().None? ==> !resumed && unchanged(this) && unchanged(rate)
      ensures checkpoints.LoadCheckpoint().Some? ==>
        var d := checkpoints.LoadCheckpoint().value;
        && resumed
        && visited == d.visited.value && pagesVisited == d.pagesVisited.value
        && toVisit == ResumedFrontier(d) && pendingUrls == []
        && urlCache == CacheEntries(CacheVisited(map[], visited), toVisit)
        && retryCounts == old(retryCounts) + d.retryCounts.GetOr(map[])
        && (d.rateController.Some? ==> targetWorkers == rate.targetWorkers && currentDelay == rate.currentDelay)
        && (d.rateController.None? ==> unchanged(rate) && targetWorkers == old(targetWorkers)
                                       && currentDelay == old(currentDelay))
      ensures taskQueue == old(taskQueue) && retryStatus == old(retryStatus)
    {
      var loaded := checkpoints.LoadCheckpoint();
      if loaded.None? {
        return false;
      }
      var d := loaded.value;
      var frontier := ResumedFrontier(d);
      var cache := BuildUrlCache(d.visited.value, frontier);
      visited, toVisit, pendingUrls, pagesVisited, urlCache, retryCounts :=
        d.visited.value, frontier, [], d.pagesVisited.value, cache, retryCounts + d.retryCounts.GetOr(map[]);
      if d.rateController.Some? {
        RestoreRate(d.rateController.value, now);
        assert checkpoints.LoadCheckpoint() == loaded;
      }
      resumed := true;
    }

    /**
     * The rate controller part of `resume_from_checkpoint`: the controller
     * restores its state and the shared values take its settings.
     */
    method RestoreRate(cp: RateController.RateCheckpoint, now: real)
      requires Valid()
      requires cp.recoveryLevel.None? || cp.recoveryLevel.value >= 0
      modifies this, rate
      ensures Valid()
      ensures rate.Current() == RateController.RestoredSettings(cp, old(rate.Current()), rate.health.throttling, rate.Bounds())
      ensures rate.health == RateController.RestoredHealth(old(rate.health), cp, now)
      ensures targetWorkers == rate.targetWorkers && currentDelay == rate.currentDelay
      ensures visited == old(visited) && toVisit == old(toVisit) && pendingUrls == old(pendingUrls)
      ensures urlCache == old(urlCache) && retryCounts == old(retryCounts) && pagesVisited == old(pagesVisited)
      ensures taskQueue == old(taskQueue) && retryStatus == old(retryStatus)
    {
      var ok := rate.FromCheckpoint(cp, now);
      var workers, delay, inRecovery, level, throttling := rate.GetCurrentSettings();
      currentDelay, targetWorkers := delay, workers;
    }

    /** The data `_save_checkpoint` hands to the checkpoint manager. */
    function CheckpointData(): (d: Checkpoint.CheckpointData)
      reads this, rate
      ensures d.visited == Some(visited) && d.pagesVisited == Some(pagesVisited) && d.retryCounts == Some(retryCounts)
      ensures d.toVisit == Some(Normalize(toVisit)) && d.pendingUrls == Some(Normalize(pendingUrls))
      ensures d.rateController == Some(rate.ToCheckpoint()) && d.checkpointTime.None?
    {
      SavedData(visited, toVisit, pendingUrls, pagesVisited, retryCounts, rate.ToCheckpoint())
    }

    /** `_save_checkpoint`; `outcome` is what the file system does with the write. */
    method SaveCheckpoint(force: bool, now: real, outcome: Checkpoint.WriteOutcome) returns (saved: bool)
      requires Valid()
      modifies checkpoints
      ensures Valid()
      ensures saved ==> checkpoints.LoadCheckpoint() == Some(Checkpoint.Stamped(CheckpointData(), now))
      ensures !saved ==> unchanged(checkpoints)
      ensures old(checkpoints.SaveRefused(force, pagesVisited, now)) ==> !saved
      ensures !old(checkpoints.SaveRefused(force, pagesVisited, now)) ==> (saved <==> outcome != Checkpoint.WriteFailed)
    {
      var tv := SerializeEntries(toVisit);
      var pend := SerializeEntries(pendingUrls);
      var data := Checkpoint.CheckpointData(Some(visited), Some(tv), Some(pend), Some(pagesVisited),
                                            Some(retryCounts), Some(rate.ToCheckpoint()), None, None);
      var stamped;
      saved, stamped := checkpoints.SaveCheckpoint(data, force, now, outcome);
    }
  }
}
