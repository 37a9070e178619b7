/**
 * The bookkeeping of the browser pool (spider/browser/pool.py): the
 * idle/busy/crashed life cycle of one browser instance, and the pool's list
 * of instances, its queue of available instances, its success and failure
 * counters, the growth rule and one pass of the monitor that removes crashed
 * instances, recycles instances idle for too long and tops the pool up.
 * Web drivers are abstracted away: whether starting a driver succeeds is a
 * parameter, and quitting one has no effect on the model. Time is a
 * parameter `now`.
 */
module BrowserPool {
  import opened Wrappers
  import WorkerPool
  import RateController

  datatype BrowserStatus = Idle | Busy | Crashed

  /** Failed releases after which an instance counts as crashed. */
  const CrashErrors: nat := 3

  /** The monitor's first sleep, in seconds, and its increment per pass. */
  const FirstCheckInterval: int := 15
  const CheckIntervalStep: int := 5

  /** One browser instance (`BrowserInstance`); the driver is left out. */
  class Browser {
    const id: nat
    var status: BrowserStatus
    var lastActivity: real
    var urlsProcessed: nat
    var errorCount: nat
    var currentTask: Option<string>

    /** An idle instance has no task, a busy one has a task, a crashed one has failed at least three times. */
    ghost predicate Valid()
      reads this
    {
      && (status == Idle ==> currentTask == None)
      && (status == Busy ==> currentTask != None)
      && (status == Crashed ==> errorCount >= CrashErrors)
    }

    constructor (id: nat, now: real)
      ensures Valid() && this.id == id && status == Idle && lastActivity == now
      ensures urlsProcessed == 0 && errorCount == 0 && currentTask == None
    {
      this.id := id;
      status, lastActivity := Idle, now;
      urlsProcessed, errorCount, currentTask := 0, 0, None;
    }

    /** `assign_task`: only an idle instance takes a task, and becomes busy with it. */
    method AssignTask(task: string, now: real) returns (ok: bool)
      requires Valid()
      modifies this
      ensures Valid()
      ensures ok <==> old(status) == Idle
      ensures ok ==> status == Busy && currentTask == Some(task) && lastActivity == now
      ensures ok ==> urlsProcessed == old(urlsProcessed) && errorCount == old(errorCount)
      ensures !ok ==> unchanged(this)
    {
      if status != Idle {
        return false;
      }
      status, currentTask, lastActivity := Busy, Some(task), now;
      return true;
    }

    /**
     * `release`: a success counts a processed URL and frees the instance; a
     * failure counts an error and crashes the instance at the third error,
     * which then keeps its task.
     */
    method Release(success: bool, now: real) returns (ok: bool)
      modifies this
      ensures Valid() && ok && lastActivity == now
      ensures success ==> status == Idle && currentTask == None
      ensures success ==> urlsProcessed == old(urlsProcessed) + 1 && errorCount == old(errorCount)
      ensures !success ==> urlsProcessed == old(urlsProcessed) && errorCount == old(errorCount) + 1
      ensures !success ==> (status == Crashed <==> errorCount >= CrashErrors)
      ensures !success && status == Crashed ==> currentTask == old(currentTask)
      ensures status != Crashed ==> status == Idle && currentTask == None
    {
      if success {
        urlsProcessed := urlsProcessed + 1;
        status, currentTask := Idle, None;
      } else {
        errorCount := errorCount + 1;
        if errorCount >= CrashErrors {
          status := Crashed;
        } else {
          status, currentTask := Idle, None;
        }
      }
      lastActivity := now;
      return true;
    }
  }

  /** The pool-wide operation counters. */
  datatype Counters = Counters(successful: nat, failed: nat, totalUrls: nat)

  /** The counter update of `release_browser`: each outcome also takes one off the other counter, not below zero. */
  function Recorded(c: Counters, success: bool): (r: Counters)
    ensures success ==> r.totalUrls == c.totalUrls + 1 && r.successful == c.successful + 1
    ensures !success ==> r.totalUrls == c.totalUrls && r.failed == c.failed + 1
    ensures success ==> r.successful - r.failed >= c.successful - c.failed + 1
    ensures !success ==> r.successful - r.failed <= c.successful - c.failed - 1
    ensures success ==> r.failed <= c.failed && (c.failed > 0 ==> r.failed == c.failed - 1)
    ensures !success ==> r.successful <= c.successful && (c.successful > 0 ==> r.successful == c.successful - 1)
  {
    if success then
      Counters(c.successful + 1, if c.failed > 0 then c.failed - 1 else 0, c.totalUrls + 1)
    else
      Counters(if c.successful > 0 then c.successful - 1 else 0, c.failed + 1, c.totalUrls)
  }

  /** The counters after releases with the given outcomes, in order. */
  function RecordAll(c: Counters, outcomes: seq<bool>): Counters
  {
    if outcomes == [] then c else Recorded(RecordAll(c, outcomes[..|outcomes| - 1]), outcomes[|outcomes| - 1])
  }

  /**
   * Every failure is worked off by one success: after a run of `n` successes
   * the success count is at least `n` and the failure count has fallen by `n`
   * (not below zero), so a run at least as long as the threshold and as the
   * failure count opens both counter gates of the growth rule.
   */
  lemma {:induction false} SuccessRunOpensGates(c: Counters, outcomes: seq<bool>, threshold: int)
    requires forall i :: 0 <= i < |outcomes| ==> outcomes[i]
    requires |outcomes| >= threshold && |outcomes| >= c.failed
    ensures RecordAll(c, outcomes).successful == c.successful + |outcomes|
    ensures RecordAll(c, outcomes).totalUrls == c.totalUrls + |outcomes|
    ensures RecordAll(c, outcomes).failed == 0
    ensures RecordAll(c, outcomes).successful >= threshold
    ensures 2 * RecordAll(c, outcomes).failed <= RecordAll(c, outcomes).successful
  {
    SuccessRun(c, outcomes);
  }

  lemma {:induction false} SuccessRun(c: Counters, outcomes: seq<bool>)
    requires forall i :: 0 <= i < |outcomes| ==> outcomes[i]
    ensures RecordAll(c, outcomes).successful == c.successful + |outcomes|
    ensures RecordAll(c, outcomes).totalUrls == c.totalUrls + |outcomes|
    ensures RecordAll(c, outcomes).failed == if |outcomes| < c.failed then c.failed - |outcomes| else 0
  {
    if outcomes != [] {
      SuccessRun(c, outcomes[..|outcomes| - 1]);
    }
  }

  /** `_should_grow_pool`'s five conditions (`failed > successful / 2` read over the rationals). */
  predicate GrowthAllowed(minBrowsers: int, target: int, lastGrowth: real, interval: real, now: real,
                          c: Counters, threshold: int, idle: nat)
  {
    && minBrowsers < target
    && now - lastGrowth >= interval
    && c.successful >= threshold
    && 2 * c.failed <= c.successful
    && idle == 0
  }

  /** The growth test with the failure condition as Python reads it: `failed > successful / 2` over the rationals. */
  lemma GrowthTestOverRationals(minBrowsers: int, target: int, lastGrowth: real, interval: real, now: real,
                                c: Counters, threshold: int, idle: nat)
    ensures GrowthAllowed(minBrowsers, target, lastGrowth, interval, now, c, threshold, idle)
            <==> && minBrowsers < target && now - lastGrowth >= interval && c.successful >= threshold
                 && !(c.failed as real > c.successful as real / 2.0) && idle == 0
  {
  }

  /** What the monitor sees of one instance. */
  datatype Info = Info(id: nat, status: BrowserStatus, lastActivity: real)

  function Snapshot(bs: seq<Browser>): (r: seq<Info>)
    reads set b | b in bs
    ensures |r| == |bs|
    ensures forall i :: 0 <= i < |bs| ==> r[i] == Info(bs[i].id, bs[i].status, bs[i].lastActivity)
  {
    if bs == [] then []
    else
      var b := bs[|bs| - 1];
      Snapshot(bs[..|bs| - 1]) + [Info(b.id, b.status, b.lastActivity)]
  }

  /** The number of idle instances, `sum(1 for b in browsers if b.status == "idle")`. */
  function IdleCount(s: seq<Info>): (r: nat)
    ensures r <= |s|
    ensures r == 0 <==> forall i :: 0 <= i < |s| ==> s[i].status != Idle
  {
    if s == [] then 0
    else IdleCount(s[..|s| - 1]) + (if s[|s| - 1].status == Idle then 1 else 0)
  }

  /** How long an instance has been idle at `now`. */
  function IdleTime(x: Info, now: real): real {
    now - x.lastActivity
  }

  predicate OverIdle(x: Info, now: real, maxIdle: real) {
    x.status == Idle && IdleTime(x, now) > maxIdle
  }

  /** The ids of the crashed instances. */
  function CrashedIds(s: seq<Info>): (r: set<nat>)
    ensures forall x :: x in s && x.status == Crashed ==> x.id in r
    ensures forall id :: id in r ==> exists x :: x in s && x.status == Crashed && x.id == id
  {
    set x | x in s && x.status == Crashed :: x.id
  }

  /** The idle instances idle for longer than `maxIdle`, in pool order. */
  function IdleCandidates(s: seq<Info>, now: real, maxIdle: real): (r: seq<Info>)
    ensures |r| <= |s|
    ensures forall x :: x in r <==> x in s && OverIdle(x, now, maxIdle)
  {
    if s == [] then []
    else
      var init := IdleCandidates(s[..|s| - 1], now, maxIdle);
      assert forall x :: x in s <==> x in s[..|s| - 1] || x == s[|s| - 1];
      if OverIdle(s[|s| - 1], now, maxIdle) then init + [s[|s| - 1]] else init
  }

  /** The monitor's scan of the pool: crashed instances, and idle ones past the idle limit. */
  method Classify(s: seq<Info>, now: real, maxIdle: real) returns (crashed: set<nat>, idle: seq<Info>)
    ensures crashed == CrashedIds(s) && idle == IdleCandidates(s, now, maxIdle)
  {
    crashed, idle := {}, [];
    for i := 0 to |s|
      invariant crashed == CrashedIds(s[..i]) && idle == IdleCandidates(s[..i], now, maxIdle)
    {
      ScanStep(s, i, now, maxIdle);
      if s[i].status == Crashed {
        crashed := crashed + {s[i].id};
      } else if OverIdle(s[i], now, maxIdle) {
        idle := idle + [s[i]];
      }
    }
    assert s[..|s|] == s;
  }

  /** One more instance scanned adds its id to the crashed ids, or itself to the idle candidates, or nothing. */
  lemma ScanStep(s: seq<Info>, i: nat, now: real, maxIdle: real)
    requires i < |s|
    ensures CrashedIds(s[..i + 1]) == CrashedIds(s[..i]) + (if s[i].status == Crashed then {s[i].id} else {})
    ensures IdleCandidates(s[..i + 1], now, maxIdle)
         == IdleCandidates(s[..i], now, maxIdle) + (if OverIdle(s[i], now, maxIdle) then [s[i]] else [])
  {
    assert s[..i + 1][..i] == s[..i];
    assert forall x :: x in s[..i + 1] <==> x in s[..i] || x == s[i];
  }

  /** Ordered by idle time, longest first. */
  predicate LongestIdleFirst(s: seq<Info>, now: real) {
    forall i, j :: 0 <= i < j < |s| ==> IdleTime(s[i], now) >= IdleTime(s[j], now)
  }

  /** Puts `x` after every element idle at least as long, as a stable sort does. */
  function InsertByIdle(s: seq<Info>, x: Info, now: real): (r: seq<Info>)
    ensures multiset(r) == multiset(s) + multiset{x}
  {
    if s == [] then [x]
    else if IdleTime(s[|s| - 1], now) >= IdleTime(x, now) then s + [x]
    else
      assert s == s[..|s| - 1] + [s[|s| - 1]];
      InsertByIdle(s[..|s| - 1], x, now) + [s[|s| - 1]]
  }

  /** Inserting into a list ordered longest idle first keeps it so. */
  lemma {:induction false} InsertByIdleOrdered(s: seq<Info>, x: Info, now: real)
    requires LongestIdleFirst(s, now)
    ensures LongestIdleFirst(InsertByIdle(s, x, now), now)
  {
    if s != [] && IdleTime(s[|s| - 1], now) < IdleTime(x, now) {
      var init := s[..|s| - 1];
      var last := s[|s| - 1];
      InsertByIdleOrdered(init, x, now);
      assert forall i :: 0 <= i < |init| ==> init[i] == s[i];
      InsertByIdleBound(init, x, now, IdleTime(last, now));
      var ins := InsertByIdle(init, x, now);
      assert InsertByIdle(s, x, now) == ins + [last];
    }
  }

  /** When `x` and every element of `s` are idle for at least `t`, so is every element after the insertion. */
  lemma InsertByIdleBound(s: seq<Info>, x: Info, now: real, t: real)
    requires forall i :: 0 <= i < |s| ==> IdleTime(s[i], now) >= t
    requires IdleTime(x, now) >= t
    ensures forall i :: 0 <= i < |InsertByIdle(s, x, now)| ==> IdleTime(InsertByIdle(s, x, now)[i], now) >= t
  {
    var r := InsertByIdle(s, x, now);
    forall i | 0 <= i < |r|
      ensures IdleTime(r[i], now) >= t
    {
      assert r[i] in multiset(r);
      if r[i] != x {
        assert r[i] in multiset(s);
      }
    }
  }

  /** `idle_browsers.sort(key=lambda b: current_time - b.last_activity, reverse=True)`. */
  function SortByIdle(s: seq<Info>, now: real): (r: seq<Info>)
    ensures multiset(r) == multiset(s)
    ensures LongestIdleFirst(r, now)
  {
    if s == [] then []
    else
      assert s == s[..|s| - 1] + [s[|s| - 1]];
      var sorted := SortByIdle(s[..|s| - 1], now);
      InsertByIdleOrdered(sorted, s[|s| - 1], now);
      InsertByIdle(sorted, s[|s| - 1], now)
  }

  /** The instances the monitor recycles: the first `excess` of the sorted candidates. */
  function Recycled(idle: seq<Info>, now: real, excess: int): (r: seq<Info>)
    requires excess > 0
    ensures |r| == if excess < |idle| then excess else |idle|
    ensures forall x :: x in r ==> x in idle
  {
    var sorted := SortByIdle(idle, now);
    SameElements(sorted, idle);
    if excess < |sorted| then sorted[..excess] else sorted
  }

  /** Two lists with the same multiset have the same length and the same elements. */
  lemma SameElements(a: seq<Info>, b: seq<Info>)
    requires multiset(a) == multiset(b)
    ensures |a| == |b|
    ensures forall x :: x in a ==> x in b
  {
    assert |a| == |multiset(a)| == |multiset(b)| == |b|;
    forall x | x in a
      ensures x in b
    {
      assert x in multiset(a);
    }
  }

  /**
   * The monitor recycles at most `excess` candidates, each of them a
   * candidate, and none idle for less time than a candidate it keeps.
   */
  lemma RecycledLongestIdle(idle: seq<Info>, now: real, excess: int)
    requires excess > 0
    ensures |Recycled(idle, now, excess)| == if excess < |idle| then excess else |idle|
    ensures multiset(Recycled(idle, now, excess)) <= multiset(idle)
    ensures forall x, y :: x in Recycled(idle, now, excess) && y in idle && y !in Recycled(idle, now, excess)
                           ==> IdleTime(x, now) >= IdleTime(y, now)
  {
    var sorted := SortByIdle(idle, now);
    var k := if excess < |sorted| then excess else |sorted|;
    SameElements(sorted, idle);
    assert Recycled(idle, now, excess) == sorted[..k];
    PrefixIdleLongest(sorted, idle, k, now);
  }

  /** A prefix of a longest-idle-first ordering of `idle` is part of `idle` and idle no shorter than what it leaves. */
  lemma PrefixIdleLongest(sorted: seq<Info>, idle: seq<Info>, k: nat, now: real)
    requires LongestIdleFirst(sorted, now) && multiset(sorted) == multiset(idle) && k <= |sorted|
    ensures multiset(sorted[..k]) <= multiset(idle)
    ensures forall x, y :: x in sorted[..k] && y in idle && y !in sorted[..k] ==> IdleTime(x, now) >= IdleTime(y, now)
  {
    assert sorted == sorted[..k] + sorted[k..];
    assert multiset(sorted) == multiset(sorted[..k]) + multiset(sorted[k..]);
    forall x, y | x in sorted[..k] && y in idle && y !in sorted[..k]
      ensures IdleTime(x, now) >= IdleTime(y, now)
    {
      assert y in multiset(sorted);
      var j :| 0 <= j < |sorted| && sorted[j] == y;
      var i :| 0 <= i < k && sorted[..k][i] == x;
      assert j >= k;
    }
  }

  /** The ids of some instances, as a set. */
  function IdSet(s: seq<Info>): (r: set<nat>)
    ensures forall x :: x in s ==> x.id in r
  {
    set x | x in s :: x.id
  }

  /** The ids of the pool's instances, in pool order. */
  function IdsOf(bs: seq<Browser>): (r: seq<nat>)
    ensures |r| == |bs| && forall i :: 0 <= i < |bs| ==> r[i] == bs[i].id
  {
    seq(|bs|, i requires 0 <= i < |bs| => bs[i].id)
  }

  /** The instances whose id is not in `ids`, in order (`list.remove` of each, as ids are distinct). */
  function WithoutIds(bs: seq<Browser>, ids: set<nat>): (r: seq<Browser>)
    ensures |r| <= |bs|
    ensures forall i :: 0 <= i < |r| ==> r[i] in bs && r[i].id !in ids
    ensures forall i :: 0 <= i < |bs| && bs[i].id !in ids ==> bs[i] in r
  {
    if bs == [] then []
    else
      var init := WithoutIds(bs[..|bs| - 1], ids);
      assert forall i :: 0 <= i < |bs| - 1 ==> bs[..|bs| - 1][i] == bs[i];
      if bs[|bs| - 1].id in ids then init else init + [bs[|bs| - 1]]
  }

  /** Removing instances keeps ids in increasing order. */
  lemma {:induction false} WithoutIdsIncreasing(bs: seq<Browser>, ids: set<nat>)
    requires WorkerPool.Increasing(IdsOf(bs))
    ensures WorkerPool.Increasing(IdsOf(WithoutIds(bs, ids)))
  {
    if bs != [] {
      var init := bs[..|bs| - 1];
      assert IdsOf(init) == IdsOf(bs)[..|bs| - 1];
      WithoutIdsIncreasing(init, ids);
      var w := WithoutIds(init, ids);
      var last := bs[|bs| - 1];
      assert bs[..|bs| - 1] == init;
      if last.id !in ids {
        var r := w + [last];
        assert WithoutIds(bs, ids) == r;
        var ws, wi := IdsOf(r), IdsOf(w);
        forall i, j | 0 <= i < j < |ws|
          ensures ws[i] < ws[j]
        {
          if j < |w| {
            assert ws[i] == wi[i] && ws[j] == wi[j];
          } else {
            assert r[i] == w[i] && w[i] in init;
            var k :| 0 <= k < |init| && init[k] == w[i];
            assert IdsOf(bs)[k] < IdsOf(bs)[|bs| - 1];
          }
        }
      }
    }
  }

  /** Removing instances keeps every id below a bound all ids were below. */
  lemma WithoutIdsBelow(bs: seq<Browser>, ids: set<nat>, n: nat)
    requires forall i :: 0 <= i < |bs| ==> bs[i].id < n
    ensures forall i :: 0 <= i < |WithoutIds(bs, ids)| ==> WithoutIds(bs, ids)[i].id < n
  {
    var r := WithoutIds(bs, ids);
    forall i | 0 <= i < |r|
      ensures r[i].id < n
    {
      var k :| 0 <= k < |bs| && bs[k] == r[i];
    }
  }

  /**
   * The queue loop of the monitor as written: take every queued instance and
   * put back each one that is not `id`, until the queue is empty. Returns
   * `None` when `fuel` steps do not end the loop.
   */
  function DrainAsWritten(q: seq<Browser>, id: nat, fuel: nat): (r: Option<seq<Browser>>)
    ensures r.Some? ==> r.value == []
    decreases fuel
  {
    if q == [] then Some([])
    else if fuel == 0 then None
    else if q[0].id == id then DrainAsWritten(q[1..], id, fuel - 1)
    else DrainAsWritten(q[1..] + [q[0]], id, fuel - 1)
  }

  /** While another instance is queued the loop as written never ends, however many steps it gets. */
  lemma {:induction false} DrainAsWrittenDiverges(q: seq<Browser>, id: nat, fuel: nat)
    requires exists b :: b in q && b.id != id
    ensures DrainAsWritten(q, id, fuel) == None
    decreases fuel
  {
    if fuel > 0 {
      var b :| b in q && b.id != id;
      if q[0].id == id {
        assert b in q[1..];
        DrainAsWrittenDiverges(q[1..], id, fuel - 1);
      } else {
        assert q[0] in q[1..] + [q[0]];
        DrainAsWrittenDiverges(q[1..] + [q[0]], id, fuel - 1);
      }
    }
  }

  /** The queue without the instances with id `id`, the rest in order. */
  function QueueWithout(q: seq<Browser>, id: nat): (r: seq<Browser>)
    ensures |r| <= |q|
    ensures forall i :: 0 <= i < |r| ==> r[i] in q && r[i].id != id
    ensures forall i :: 0 <= i < |q| && q[i].id != id ==> q[i] in r
  {
    if q == [] then []
    else
      var init := QueueWithout(q[..|q| - 1], id);
      assert forall i :: 0 <= i < |q| - 1 ==> q[..|q| - 1][i] == q[i];
      if q[|q| - 1].id == id then init else init + [q[|q| - 1]]
  }

  /**
   * The intended queue loop: take each of the instances queued at the start
   * exactly once and put back the ones that are not `id`.
   */
  method Drain(q: seq<Browser>, id: nat) returns (r: seq<Browser>)
    ensures r == QueueWithout(q, id)
  {
    r := [];
    for k := 0 to |q|
      invariant r == QueueWithout(q[..k], id)
    {
      assert q[..k + 1][..k] == q[..k];
      if q[k].id != id {
        r := r + [q[k]];
      }
    }
    assert q[..|q|] == q;
  }

  /** The queue after removing each of the `recycled` instances in turn. */
  function QueueWithoutAll(q: seq<Browser>, recycled: seq<Info>): (r: seq<Browser>)
    ensures forall i :: 0 <= i < |r| ==> r[i] in q && r[i].id !in IdSet(recycled)
    ensures forall i :: 0 <= i < |q| && q[i].id !in IdSet(recycled) ==> q[i] in r
  {
    if recycled == [] then q
    else
      var init := recycled[..|recycled| - 1];
      var r := QueueWithout(QueueWithoutAll(q, init), recycled[|recycled| - 1].id);
      assert recycled == init + [recycled[|recycled| - 1]];
      assert IdSet(recycled) == IdSet(init) + {recycled[|recycled| - 1].id};
      r
  }

  /**
   * `BrowserPool`: its instances in creation order, the queue of available
   * instances, the growing minimum size, and the operation counters.
   */
  class Pool {
    var browsers: seq<Browser>
    var available: seq<Browser>
    var minBrowsers: int
    const targetBrowsers: int
    const maxBrowsers: int
    const maxIdleTime: real
    const growthInterval: real
    const successThreshold: int
    var nextId: nat
    var lastGrowthTime: real
    var counters: Counters

    /** The most instances the pool may hold. */
    function Capacity(): nat
    {
      if maxBrowsers > 0 then maxBrowsers else 0
    }

    /**
     * Ids are handed out in increasing order and stay below the counter, the
     * pool never holds more than `max_browsers` instances, and the minimum
     * size starts at one and grows no further than the target.
     */
    ghost predicate Valid()
      reads this
    {
      && WorkerPool.Increasing(IdsOf(browsers))
      && (forall i :: 0 <= i < |browsers| ==> browsers[i].id < nextId)
      && |browsers| <= Capacity()
      && 1 <= minBrowsers <= RateController.MaxI(1, targetBrowsers)
    }

    /** `__init__` and `_initialize_pool`: the minimum size starts at one and one instance is created. */
    constructor (minBrowsers: int, maxBrowsers: int, maxIdleTime: real, growthInterval: real,
                 successThreshold: int, now: real, driverOk: bool)
      ensures Valid() && available == browsers && nextId == |browsers|
      ensures |browsers| == if driverOk && maxBrowsers > 0 then 1 else 0
      ensures this.minBrowsers == 1 && targetBrowsers == minBrowsers && this.maxBrowsers == maxBrowsers
      ensures this.maxIdleTime == maxIdleTime && this.growthInterval == growthInterval
      ensures this.successThreshold == successThreshold
      ensures lastGrowthTime == 0.0 && counters == Counters(0, 0, 0)
    {
      this.minBrowsers := 1;
      targetBrowsers := minBrowsers;
      this.maxBrowsers := maxBrowsers;
      this.maxIdleTime, this.growthInterval, this.successThreshold := maxIdleTime, growthInterval, successThreshold;
      browsers, available, nextId := [], [], 0;
      lastGrowthTime, counters := 0.0, Counters(0, 0, 0);
      new;
      var created := CreateBrowser(now, driverOk);
    }

    /** `_create_browser`: refused at capacity or when the driver fails to start; otherwise a new idle instance joins the pool and the queue. */
    method CreateBrowser(now: real, driverOk: bool) returns (created: Option<Browser>)
      requires Valid()
      modifies this
      ensures Valid()
      ensures minBrowsers == old(minBrowsers) && lastGrowthTime == old(lastGrowthTime) && counters == old(counters)
      ensures old(|browsers|) >= maxBrowsers || !driverOk ==>
                created == None && browsers == old(browsers) && available == old(available) && nextId == old(nextId)
      ensures old(|browsers|) < maxBrowsers && driverOk ==>
                && created.Some? && fresh(created.value) && created.value.id == old(nextId)
                && created.value.status == Idle && created.value.lastActivity == now && created.value.Valid()
                && browsers == old(browsers) + [created.value] && available == old(available) + [created.value]
                && nextId == old(nextId) + 1
      ensures old(NoneCrashed(browsers)) ==> NoneCrashed(browsers)
    {
      if |browsers| >= maxBrowsers || !driverOk {
        return None;
      }
      ghost var before := browsers;
      var b := new Browser(nextId, now);
      var bs := browsers + [b];
      assert old(NoneCrashed(browsers)) ==> NoneCrashed(bs) by {
        if old(NoneCrashed(browsers)) {
          assert forall i :: 0 <= i < |before| ==> before[i] == bs[i];
        }
      }
      assert IdsOf(bs) == IdsOf(browsers) + [nextId];
      assert WorkerPool.Increasing(IdsOf(bs));
      browsers, available, nextId := bs, available + [b], nextId + 1;
      created := Some(b);
    }

    /**
     * `release_browser`: the counters record the outcome and the instance is
     * released; a crashed instance leaves the pool (and is replaced when the
     * pool falls below its minimum), any other is queued again.
     */
    method ReleaseBrowser(browser: Browser?, success: bool, now: real, driverOk: bool) returns (ok: bool)
      requires Valid()
      modifies this, browser
      ensures Valid() && (ok <==> browser != null)
      ensures minBrowsers == old(minBrowsers) && lastGrowthTime == old(lastGrowthTime)
      ensures browser == null ==> unchanged(this)
      ensures browser != null ==> counters == Recorded(old(counters), success)
      ensures browser != null ==> browser.lastActivity == now && browser.Valid()
      ensures browser != null && success ==> browser.status == Idle
      ensures browser != null && !success ==> (browser.status == Crashed <==> browser.errorCount >= CrashErrors)
      ensures browser != null && browser.status == Idle ==>
                browsers == old(browsers) && available == old(available) + [browser] && nextId == old(nextId)
      ensures browser != null && browser.status == Crashed ==>
                var rest := WithoutIds(old(browsers), {browser.id});
                && |browsers| == |rest| + (if |rest| < old(minBrowsers) && |rest| < maxBrowsers && driverOk then 1 else 0)
                && browsers[..|rest|] == rest
                && available == old(available) + browsers[|rest|..]
                && nextId == old(nextId) + (|browsers| - |rest|)
    {
      if browser == null {
        return false;
      }
      counters := Recorded(counters, success);
      var released := browser.Release(success, now);
      if browser.status == Crashed {
        DropCrashed(browser.id, now, driverOk);
        return true;
      }
      available := available + [browser];
      return true;
    }

    /** A crashed instance leaves the pool; a replacement is created when the pool is then below its minimum. */
    method DropCrashed(id: nat, now: real, driverOk: bool)
      requires Valid()
      modifies this
      ensures Valid()
      ensures minBrowsers == old(minBrowsers) && lastGrowthTime == old(lastGrowthTime) && counters == old(counters)
      ensures var rest := WithoutIds(old(browsers), {id});
              && |browsers| == |rest| + (if |rest| < old(minBrowsers) && |rest| < maxBrowsers && driverOk then 1 else 0)
              && browsers[..|rest|] == rest
              && available == old(available) + browsers[|rest|..]
              && nextId == old(nextId) + (|browsers| - |rest|)
    {
      var rest := WithoutIds(browsers, {id});
      WithoutIdsIncreasing(browsers, {id});
      browsers := rest;
      if |browsers| < minBrowsers {
        var replacement := CreateBrowser(now, driverOk);
      }
    }

    /** `_should_grow_pool`: the conditions are checked in the source's order, the idle count last. */
    method ShouldGrowPool(now: real) returns (grow: bool)
      ensures grow <==> GrowthAllowed(minBrowsers, targetBrowsers, lastGrowthTime, growthInterval, now,
                                      counters, successThreshold, IdleCount(Snapshot(browsers)))
      ensures grow <==> GrowthAllowed(old(minBrowsers), targetBrowsers, old(lastGrowthTime), growthInterval, now,
                                      old(counters), successThreshold, IdleCount(old(Snapshot(browsers))))
      ensures unchanged(this)
    {
      if minBrowsers >= targetBrowsers {
        return false;
      }
      if now - lastGrowthTime < growthInterval {
        return false;
      }
      if counters.successful < successThreshold {
        return false;
      }
      if 2 * counters.failed > counters.successful {
        return false;
      }
      var snap := Snapshot(browsers);
      var idle := 0;
      for i := 0 to |browsers|
        invariant idle == IdleCount(snap[..i])
      {
        assert snap[..i + 1][..i] == snap[..i];
        if browsers[i].status == Idle {
          idle := idle + 1;
        }
      }
      assert snap[..|browsers|] == snap;
      return idle == 0;
    }

    /**
     * The recycling step of the monitor: with more instances than the
     * minimum, the candidates idle longest are removed from the pool and
     * from the queue, at most as many as the excess.
     */
    method Recycle(idle: seq<Info>, now: real) returns (recycled: seq<Info>)
      requires Valid()
      modifies this
      ensures Valid()
      ensures var excess := old(|browsers|) - old(minBrowsers);
              recycled == if excess > 0 && idle != [] then Recycled(idle, now, excess) else []
      ensures browsers == WithoutIds(old(browsers), IdSet(recycled))
      ensures old(NoneCrashed(browsers)) ==> NoneCrashed(browsers)
      ensures available == QueueWithoutAll(old(available), recycled)
      ensures minBrowsers == old(minBrowsers) && nextId == old(nextId)
      ensures lastGrowthTime == old(lastGrowthTime) && counters == old(counters)
    {
      var excess := |browsers| - minBrowsers;
      recycled := [];
      if excess > 0 && idle != [] {
        recycled := Recycled(idle, now, excess);
      }
      RemoveInstances(recycled);
    }

    /** The recycled instances leave the pool and the queue of available instances; nothing else changes. */
    method RemoveInstances(recycled: seq<Info>)
      requires Valid()
      modifies this
      ensures Valid()
      ensures browsers == WithoutIds(old(browsers), IdSet(recycled))
      ensures old(NoneCrashed(browsers)) ==> NoneCrashed(browsers)
      ensures available == QueueWithoutAll(old(available), recycled)
      ensures minBrowsers == old(minBrowsers) && nextId == old(nextId)
      ensures lastGrowthTime == old(lastGrowthTime) && counters == old(counters)
    {
      DropIds(IdSet(recycled));
      DrainRecycled(recycled);
    }

    /** The corrected drain of the available queue, for every recycled instance in turn. */
    method DrainRecycled(recycled: seq<Info>)
      requires Valid()
      modifies this
      ensures Valid()
      ensures available == QueueWithoutAll(old(available), recycled)
      ensures browsers == old(browsers) && minBrowsers == old(minBrowsers) && nextId == old(nextId)
      ensures lastGrowthTime == old(lastGrowthTime) && counters == old(counters)
    {
      available := DrainAll(available, recycled);
    }

    /** `self.browsers.remove(browser)` for every instance whose id is given. */
    method DropIds(ids: set<nat>)
      requires Valid()
      modifies this
      ensures Valid()
      ensures browsers == WithoutIds(old(browsers), ids)
      ensures old(NoneCrashed(browsers)) ==> NoneCrashed(browsers)
      ensures available == old(available) && minBrowsers == old(minBrowsers) && nextId == old(nextId)
      ensures lastGrowthTime == old(lastGrowthTime) && counters == old(counters)
    {
      var kept := WithoutIds(browsers, ids);
      WithoutIdsKeepsShape(browsers, ids, nextId);
      browsers := kept;
    }

    /** The growth step of the monitor: the minimum rises by one, the success count restarts, and an instance is created. */
    method Grow(now: real, driverOk: bool) returns (grew: bool)
      requires Valid()
      modifies this
      ensures Valid()
      ensures grew <==> GrowthAllowed(old(minBrowsers), targetBrowsers, old(lastGrowthTime), growthInterval, now,
                                      old(counters), successThreshold, IdleCount(old(Snapshot(browsers))))
      ensures grew ==> minBrowsers == old(minBrowsers) + 1 && lastGrowthTime == now
      ensures grew ==> counters == old(counters).(successful := 0)
      ensures |browsers| == old(|browsers|) + (if grew && old(|browsers|) < maxBrowsers && driverOk then 1 else 0)
      ensures !grew ==> unchanged(this)
      ensures |browsers| >= old(|browsers|) && browsers[..old(|browsers|)] == old(browsers)
      ensures available == old(available) + browsers[old(|browsers|)..]
      ensures old(NoneCrashed(browsers)) ==> NoneCrashed(browsers)
    {
      grew := ShouldGrowPool(now);
      NoneCrashedFrame(browsers);
      GrowIf(grew, now, driverOk);
    }

    /** The growth applied when the test passed; nothing happens otherwise. */
    method GrowIf(grew: bool, now: real, driverOk: bool)
      requires Valid() && (grew ==> minBrowsers < targetBrowsers)
      modifies this
      ensures Valid()
      ensures grew ==> minBrowsers == old(minBrowsers) + 1 && lastGrowthTime == now
      ensures grew ==> counters == old(counters).(successful := 0)
      ensures |browsers| == old(|browsers|) + (if grew && old(|browsers|) < maxBrowsers && driverOk then 1 else 0)
      ensures !grew ==> unchanged(this)
      ensures |browsers| >= old(|browsers|) && browsers[..old(|browsers|)] == old(browsers)
      ensures available == old(available) + browsers[old(|browsers|)..]
      ensures old(NoneCrashed(browsers)) ==> NoneCrashed(browsers)
    {
      if grew {
        ApplyGrowth(now, driverOk);
      } else {
        NothingAppended(browsers, available);
      }
    }

    /** The minimum rises by one (it stays within the target), the success count restarts, and an instance is created. */
    method ApplyGrowth(now: real, driverOk: bool)
      requires Valid() && minBrowsers < targetBrowsers
      modifies this
      ensures Valid()
      ensures minBrowsers == old(minBrowsers) + 1 && lastGrowthTime == now
      ensures counters == old(counters).(successful := 0)
      ensures |browsers| == old(|browsers|) + (if old(|browsers|) < maxBrowsers && driverOk then 1 else 0)
      ensures |browsers| >= old(|browsers|) && browsers[..old(|browsers|)] == old(browsers)
      ensures available == old(available) + browsers[old(|browsers|)..]
      ensures old(NoneCrashed(browsers)) ==> NoneCrashed(browsers)
    {
      minBrowsers := minBrowsers + 1;
      lastGrowthTime := now;
      counters := counters.(successful := 0);
      var created := CreateBrowser(now, driverOk);
    }

    /** The top-up step of the monitor: `min_browsers - len(browsers)` creations. */
    method Replenish(now: real, driverOk: bool)
      requires Valid()
      modifies this
      ensures Valid()
      ensures minBrowsers == old(minBrowsers) && lastGrowthTime == old(lastGrowthTime) && counters == old(counters)
      ensures !driverOk ==> browsers == old(browsers)
      ensures driverOk ==> |browsers| == RateController.MaxI(old(|browsers|), RateController.MinI(minBrowsers, Capacity()))
      ensures |browsers| >= old(|browsers|) && browsers[..old(|browsers|)] == old(browsers)
      ensures available == old(available) + browsers[old(|browsers|)..]
      ensures old(NoneCrashed(browsers)) ==> NoneCrashed(browsers)
    {
      var n := minBrowsers - |browsers|;
      if n <= 0 {
        return;
      }
      for k := 0 to n
        invariant Valid()
        invariant minBrowsers == old(minBrowsers) && lastGrowthTime == old(lastGrowthTime) && counters == old(counters)
        invariant !driverOk ==> browsers == old(browsers)
        invariant driverOk ==> |browsers| == RateController.MinI(old(|browsers|) + k, Capacity())
        invariant |browsers| >= old(|browsers|) && browsers[..old(|browsers|)] == old(browsers)
        invariant available == old(available) + browsers[old(|browsers|)..]
        invariant old(NoneCrashed(browsers)) ==> NoneCrashed(browsers)
      {
        ghost var before, queued := browsers, available;
        var created := CreateBrowser(now, driverOk);
        if created.Some? {
          assert browsers[|before|..] == [created.value];
        } else {
          NothingAppended(browsers, available);
        }
        AppendedTwice(old(browsers), before, browsers, old(available), queued, available);
      }
    }

    /** The scan and the crashed-instance removal of the monitor; returns the recycling candidates. */
    method RemoveCrashed(now: real) returns (idle: seq<Info>)
      requires Valid()
      modifies this
      ensures Valid()
      ensures browsers == WithoutIds(old(browsers), CrashedIds(old(Snapshot(browsers))))
      ensures idle == IdleCandidates(old(Snapshot(browsers)), now, maxIdleTime)
      ensures NoneCrashed(browsers)
      ensures minBrowsers == old(minBrowsers) && lastGrowthTime == old(lastGrowthTime) && counters == old(counters)
      ensures available == old(available) && nextId == old(nextId)
    {
      var snap := Snapshot(browsers);
      var crashed;
      crashed, idle := Classify(snap, now, maxIdleTime);
      RemoveCrashedIds(crashed);
    }

    /** `self.browsers.remove(browser)` for each instance the scan found crashed. */
    method RemoveCrashedIds(crashed: set<nat>)
      requires Valid() && crashed == CrashedIds(Snapshot(browsers))
      modifies this
      ensures Valid() && NoneCrashed(browsers)
      ensures browsers == WithoutIds(old(browsers), crashed)
      ensures minBrowsers == old(minBrowsers) && lastGrowthTime == old(lastGrowthTime) && counters == old(counters)
      ensures available == old(available) && nextId == old(nextId)
    {
      var kept := WithoutIds(browsers, crashed);
      WithoutIdsKeepsShape(browsers, crashed, nextId);
      WithoutCrashed(browsers);
      browsers := kept;
    }

    /**
     * One pass of `_monitor_browsers` after its sleep: crashed instances
     * leave the pool, instances idle too long are recycled, the pool may
     * grow, and it is topped up to its minimum size.
     */
    method MonitorPass(now: real, driverOk: bool) returns (recycled: seq<Info>, grew: bool, ghost kept: seq<Browser>)
      requires Valid()
      modifies this
      ensures Valid() && NoneCrashed(browsers)
      ensures var snap := old(Snapshot(browsers));
              var excess := |WithoutIds(old(browsers), CrashedIds(snap))| - old(minBrowsers);
              var idle := IdleCandidates(snap, now, maxIdleTime);
              recycled == if excess > 0 && idle != [] then Recycled(idle, now, excess) else []
      ensures kept == Remaining(old(browsers), old(Snapshot(browsers)), recycled)
      ensures grew ==> minBrowsers == old(minBrowsers) + 1 && lastGrowthTime == now && counters.successful == 0
      ensures !grew ==> minBrowsers == old(minBrowsers) && lastGrowthTime == old(lastGrowthTime) && counters == old(counters)
      ensures |browsers| >= |kept| && browsers[..|kept|] == kept
      ensures available == QueueWithoutAll(old(available), recycled) + browsers[|kept|..]
      ensures grew <==> GrowthAllowed(old(minBrowsers), targetBrowsers, old(lastGrowthTime), growthInterval, now, old(counters),
                                      successThreshold, IdleCount(old(Snapshot(kept))))
      ensures !driverOk ==> browsers == kept
      ensures driverOk ==> |browsers| >= RateController.MinI(minBrowsers, Capacity())
    {
      recycled := RemoveAndRecycle(now);
      kept := browsers;
      SnapshotFrame(browsers);
      grew := GrowAndReplenish(now, driverOk);
    }

    /** The scan, the crashed-instance removal and the recycling step of the monitor. */
    method RemoveAndRecycle(now: real) returns (recycled: seq<Info>)
      requires Valid()
      modifies this
      ensures Valid() && NoneCrashed(browsers)
      ensures var snap := old(Snapshot(browsers));
              var kept := WithoutIds(old(browsers), CrashedIds(snap));
              var excess := |kept| - old(minBrowsers);
              var idle := IdleCandidates(snap, now, maxIdleTime);
              recycled == if excess > 0 && idle != [] then Recycled(idle, now, excess) else []
      ensures browsers == Remaining(old(browsers), old(Snapshot(browsers)), recycled)
      ensures forall i :: 0 <= i < |browsers| ==> browsers[i] in old(browsers)
      ensures available == QueueWithoutAll(old(available), recycled)
      ensures minBrowsers == old(minBrowsers) && lastGrowthTime == old(lastGrowthTime) && counters == old(counters)
    {
      ghost var snap := Snapshot(browsers);
      ghost var excess := |WithoutIds(browsers, CrashedIds(snap))| - minBrowsers;
      var idle := RemoveCrashed(now);
      assert idle == IdleCandidates(snap, now, maxIdleTime);
      recycled := Recycle(idle, now);
      assert recycled == if excess > 0 && idle != [] then Recycled(idle, now, excess) else [];
    }

    /** The growth step followed by the top-up step. */
    method GrowAndReplenish(now: real, driverOk: bool) returns (grew: bool)
      requires Valid()
      modifies this
      ensures Valid()
      ensures old(NoneCrashed(browsers)) ==> NoneCrashed(browsers)
      ensures grew <==> GrowthAllowed(old(minBrowsers), targetBrowsers, old(lastGrowthTime), growthInterval, now,
                                      old(counters), successThreshold, IdleCount(old(Snapshot(browsers))))
      ensures grew ==> minBrowsers == old(minBrowsers) + 1 && lastGrowthTime == now && counters.successful == 0
      ensures !grew ==> minBrowsers == old(minBrowsers) && lastGrowthTime == old(lastGrowthTime) && counters == old(counters)
      ensures |browsers| >= old(|browsers|) && browsers[..old(|browsers|)] == old(browsers)
      ensures available == old(available) + browsers[old(|browsers|)..]
      ensures !driverOk ==> browsers == old(browsers)
      ensures driverOk ==> |browsers| == RateController.MaxI(old(|browsers|) + (if grew && old(|browsers|) < maxBrowsers then 1 else 0),
                                                            RateController.MinI(minBrowsers, Capacity()))
    {
      ghost var before, queued := browsers, available;
      grew := Grow(now, driverOk);
      ghost var grown, queuedGrown := browsers, available;
      Replenish(now, driverOk);
      AppendedTwice(before, grown, browsers, queued, queuedGrown, available);
    }
  }

  /** A step that appends nothing leaves the pool as its own prefix and the queue as it was. */
  lemma NothingAppended(bs: seq<Browser>, queue: seq<Browser>)
    ensures bs[..|bs|] == bs && queue + bs[|bs|..] == queue
  {
    assert bs[|bs|..] == [];
  }

  /** Two steps that each append instances to the pool and to the queue append the joined tail. */
  lemma AppendedTwice(a: seq<Browser>, b: seq<Browser>, c: seq<Browser>,
                      qa: seq<Browser>, qb: seq<Browser>, qc: seq<Browser>)
    requires |b| >= |a| && b[..|a|] == a && |c| >= |b| && c[..|b|] == b
    requires qb == qa + b[|a|..] && qc == qb + c[|b|..]
    ensures c[..|a|] == a && qc == qa + c[|a|..]
  {
    assert c[..|b|][..|a|] == c[..|a|];
    assert c[|a|..] == b[|a|..] + c[|b|..];
  }

  /** The snapshot of instances none of which has changed is the one taken before. */
  twostate lemma {:induction false} SnapshotFrame(bs: seq<Browser>)
    requires forall i :: 0 <= i < |bs| ==> old(allocated(bs[i])) && unchanged(bs[i])
    ensures Snapshot(bs) == old(Snapshot(bs))
  {
    if bs != [] {
      SnapshotFrame(bs[..|bs| - 1]);
    }
  }

  /** The instances a monitor pass keeps: those neither crashed at the scan nor recycled. */
  function Remaining(bs: seq<Browser>, snap: seq<Info>, recycled: seq<Info>): seq<Browser> {
    WithoutIds(WithoutIds(bs, CrashedIds(snap)), IdSet(recycled))
  }

  /** No instance in the list is crashed. */
  ghost predicate NoneCrashed(bs: seq<Browser>)
    reads set b | b in bs
  {
    forall i :: 0 <= i < |bs| ==> bs[i].status != Crashed
  }

  /** Whether an instance is crashed does not change while none of the instances changes. */
  twostate lemma NoneCrashedFrame(bs: seq<Browser>)
    requires forall i :: 0 <= i < |bs| ==> old(allocated(bs[i])) && unchanged(bs[i])
    ensures NoneCrashed(bs) == old(NoneCrashed(bs))
  {
  }

  /** Removing instances keeps the pool's shape: ids increasing and below the next id, no new crashed instance. */
  lemma WithoutIdsKeepsShape(bs: seq<Browser>, ids: set<nat>, n: nat)
    requires WorkerPool.Increasing(IdsOf(bs))
    requires forall i :: 0 <= i < |bs| ==> bs[i].id < n
    ensures WorkerPool.Increasing(IdsOf(WithoutIds(bs, ids)))
    ensures forall i :: 0 <= i < |WithoutIds(bs, ids)| ==> WithoutIds(bs, ids)[i].id < n
    ensures NoneCrashed(bs) ==> NoneCrashed(WithoutIds(bs, ids))
  {
    WithoutIdsIncreasing(bs, ids);
    WithoutIdsBelow(bs, ids, n);
    if NoneCrashed(bs) {
      WithoutIdsNoneCrashed(bs, ids);
    }
  }

  /** Removing instances from a list without crashed ones leaves none. */
  lemma WithoutIdsNoneCrashed(bs: seq<Browser>, ids: set<nat>)
    requires NoneCrashed(bs)
    ensures NoneCrashed(WithoutIds(bs, ids))
  {
    var r := WithoutIds(bs, ids);
    forall i | 0 <= i < |r|
      ensures r[i].status != Crashed
    {
      var k :| 0 <= k < |bs| && bs[k] == r[i];
    }
  }

  /** Removing the ids the scan found crashed leaves no crashed instance. */
  lemma WithoutCrashed(bs: seq<Browser>)
    ensures NoneCrashed(WithoutIds(bs, CrashedIds(Snapshot(bs))))
  {
    var r := WithoutIds(bs, CrashedIds(Snapshot(bs)));
    forall i | 0 <= i < |r|
      ensures r[i].status != Crashed
    {
      var k :| 0 <= k < |bs| && bs[k] == r[i];
      assert Snapshot(bs)[k] in Snapshot(bs);
    }
  }

  /** The intended queue loop run for each of the `recycled` instances in turn. */
  method DrainAll(q: seq<Browser>, recycled: seq<Info>) returns (r: seq<Browser>)
    ensures r == QueueWithoutAll(q, recycled)
  {
    r := q;
    for k := 0 to |recycled|
      invariant r == QueueWithoutAll(q, recycled[..k])
    {
      assert recycled[..k + 1][..k] == recycled[..k];
      r := Drain(r, recycled[k].id);
    }
    assert recycled[..|recycled|] == recycled;
  }

  /** The monitor's interval after the `k`-th pass (`check_interval = min(configured, interval + 5)`). */
  function CheckInterval(configured: int, k: nat): (r: int)
    ensures k > 0 ==> r <= configured
    ensures r <= FirstCheckInterval + CheckIntervalStep * k
    ensures configured >= FirstCheckInterval ==> r >= FirstCheckInterval
  {
    if k == 0 then FirstCheckInterval
    else RateController.MinI(configured, CheckInterval(configured, k - 1) + CheckIntervalStep)
  }

  /** The interval grows by five seconds a pass from fifteen and stops at the configured one. */
  lemma {:induction false} CheckIntervalRamp(configured: int, k: nat)
    requires k >= 1
    ensures CheckInterval(configured, k) == RateController.MinI(configured, FirstCheckInterval + CheckIntervalStep * k)
  {
    if k > 1 {
      CheckIntervalRamp(configured, k - 1);
    }
  }
}
