/**
 * The decisions a crawl worker makes (spider/workers/worker.py): the status
 * it assigns a page it has loaded, how `process_url` reports a page and
 * routes an HTTP error to the retry queue, and the per-task handling of the
 * worker loop with its restart counter. The browser is abstracted away: what
 * navigation returns (a timeout, a failure, or the status the performance
 * API gave with the page title and body text) and whether link extraction
 * succeeds are inputs.
 */
module Worker {
  import opened Wrappers
  import opened Strings
  import Http
  import Url

  /** The status used when nothing better is known. */
  const DefaultStatus: int := 200
  /** The status given to a navigation that timed out. */
  const TimeoutStatus: int := 408

  /** What `driver.get(url)` and the page queries after it produced. */
  datatype Navigation =
    | TimedOut
    | Failed(error: string)
    /** `title` is `None` when reading the title raised, `body` when the body element could not be read. */
    | Loaded(perfStatus: Option<int>, title: Option<string>, body: Option<string>)

  /** The marker tests of the text heuristic, on lower-cased title and body. */
  predicate NotFoundPage(title: string, body: string) {
    Contains(title, "404") || Contains(title, "not found") || (Contains(body, "404") && Contains(body, "not found"))
  }

  predicate ForbiddenPage(title: string, body: string) {
    Contains(title, "403") || Contains(title, "forbidden") || Contains(body, "access denied") || Contains(body, "forbidden")
  }

  predicate ServerErrorPage(title: string, body: string) {
    Contains(title, "500") || Contains(title, "server error") || Contains(body, "internal server error")
  }

  predicate RateLimitedPage(body: string) {
    Contains(body, "429") || Contains(body, "too many requests") || Contains(body, "rate limit")
  }

  /** The status the page text suggests, the first matching test winning. */
  function TextStatus(title: string, body: string): (r: int)
    ensures r in {DefaultStatus, 404, 403, 500, 429}
    ensures r == 404 <==> NotFoundPage(title, body)
    ensures r == 403 <==> !NotFoundPage(title, body) && ForbiddenPage(title, body)
    ensures r == 500 <==> !NotFoundPage(title, body) && !ForbiddenPage(title, body) && ServerErrorPage(title, body)
    ensures r == 429 <==>
      !NotFoundPage(title, body) && !ForbiddenPage(title, body) && !ServerErrorPage(title, body) && RateLimitedPage(body)
    ensures r == DefaultStatus <==>
      !NotFoundPage(title, body) && !ForbiddenPage(title, body) && !ServerErrorPage(title, body) && !RateLimitedPage(body)
  {
    if NotFoundPage(title, body) then 404
    else if ForbiddenPage(title, body) then 403
    else if ServerErrorPage(title, body) then 500
    else if RateLimitedPage(body) then 429
    else DefaultStatus
  }

  /** The status from the performance API: a non-zero integer replaces the default. */
  function ReportedStatus(perf: Option<int>): int {
    if perf.Some? && perf.value != 0 then perf.value else DefaultStatus
  }

  /** The status `process_url` works with after navigating. */
  function PageStatus(nav: Navigation): (r: int)
    requires !nav.Failed?
    ensures nav.TimedOut? ==> r == TimeoutStatus
    ensures nav.Loaded? && ReportedStatus(nav.perfStatus) != DefaultStatus ==> r == ReportedStatus(nav.perfStatus)
    ensures nav.Loaded? && ReportedStatus(nav.perfStatus) == DefaultStatus && nav.title.Some? ==>
              r == TextStatus(Lower(nav.title.value), Lower(nav.body.GetOr("")))
    ensures nav.Loaded? && ReportedStatus(nav.perfStatus) == DefaultStatus && nav.title.None? ==> r == DefaultStatus
  {
    match nav
    case TimedOut => TimeoutStatus
    case Loaded(perf, title, body) =>
      var s := ReportedStatus(perf);
      if s != DefaultStatus then s
      else if title.None? then DefaultStatus
      else TextStatus(Lower(title.value), Lower(body.GetOr("")))
  }

  /** A page the performance API did not report on and whose text has none of the markers counts as a success. */
  lemma PlainPageSucceeds(title: string, body: string)
    requires !NotFoundPage(Lower(title), Lower(body)) && !ForbiddenPage(Lower(title), Lower(body))
    requires !ServerErrorPage(Lower(title), Lower(body)) && !RateLimitedPage(Lower(body))
    ensures Http.HandleResponseCode(Some(PageStatus(Loaded(None, Some(title), Some(body))))).success
  {
  }

  /** A "not found" page is skipped, and any other page the text heuristic flags is retried with throttling or once. */
  lemma TextStatusHandling(title: string, body: string)
    ensures var h := Http.HandleResponseCode(Some(TextStatus(title, body)));
            && (NotFoundPage(title, body) ==> h.action == Http.Skip)
            && (!NotFoundPage(title, body) && TextStatus(title, body) != DefaultStatus ==> Http.IsRetryAction(h.action))
  {
  }

  /** What a worker puts on the result queue. */
  datatype WorkerResult =
    | SuccessResult(url: string, links: seq<string>, httpStatus: int)
    | HttpErrorResult(url: string, httpStatus: int, handling: Http.Handling, retryQueue: bool)
    | SkippedResult(url: string, reason: string)
    | ErrorResult(url: string, error: string)

  /** What a worker puts on the retry queue. */
  datatype RetryEntry = RetryEntry(url: string, retryAfter: Option<int>, action: Http.Action)

  /** The reason of the result for a URL that is not a web page. */
  const NonWebpageReason: string := "non-webpage-url"

  /** The retry entry for an exception while processing a URL. */
  function ErrorRetry(url: string): RetryEntry {
    RetryEntry(url, Some(30), Http.RetryOnce)
  }

  /** What one call of `process_url` puts on the two queues, and what it returns. */
  datatype Emitted = Emitted(results: seq<WorkerResult>, retries: seq<RetryEntry>, ok: bool)

  /** What link extraction and the content step after it produced: the links, or the message of the exception they raised. */
  datatype Extraction = Extracted(links: seq<string>) | Raised(error: string)

  /** `process_url` for one URL. */
  function ProcessUrl(url: string, nav: Navigation, links: Extraction, retryQueue: bool): (r: Emitted)
    ensures |r.results| == 1 && r.results[0].url == url && |r.retries| <= 1
    ensures r.ok <==> r.results[0].SuccessResult?
    ensures r.retries != [] ==> retryQueue && r.retries[0].url == url && Http.IsRetryAction(r.retries[0].action)
    ensures nav.Failed? ==> r.results == [ErrorResult(url, nav.error)]
    ensures r.results[0].ErrorResult? ==> r.retries == IfQueue(retryQueue, RetryEntry(url, Some(30), Http.RetryOnce))
    ensures r.results[0].SuccessResult? ==> r.retries == []
  {
    if nav.Failed? then
      Emitted([ErrorResult(url, nav.error)], if retryQueue then [ErrorRetry(url)] else [], false)
    else
      var status := PageStatus(nav);
      var h := Http.HandleResponseCode(Some(status));
      if !h.success then
        Emitted([HttpErrorResult(url, status, h, retryQueue)],
                 if Http.IsRetryAction(h.action) && retryQueue then [RetryEntry(url, h.retryAfter, h.action)] else [],
                 false)
      else if links.Raised? then
        Emitted([ErrorResult(url, links.error)], if retryQueue then [ErrorRetry(url)] else [], false)
      else
        Emitted([SuccessResult(url, links.links, status)], [], true)
  }

  /**
   * On a status the classifier does not accept, exactly one `http_error`
   * result carries the status and the classifier's verdict, and a retry
   * entry with the classifier's delay and action follows exactly when the
   * action is a retry and a retry queue exists.
   */
  lemma HttpErrorRouting(url: string, nav: Navigation, links: Extraction, retryQueue: bool)
    requires !nav.Failed? && !Http.HandleResponseCode(Some(PageStatus(nav))).success
    ensures var h := Http.HandleResponseCode(Some(PageStatus(nav)));
            var r := ProcessUrl(url, nav, links, retryQueue);
            && !r.ok
            && r.results == [HttpErrorResult(url, PageStatus(nav), h, retryQueue)]
            && (r.retries != [] <==> Http.IsRetryAction(h.action) && retryQueue)
            && (r.retries != [] ==> r.retries[0].retryAfter == h.retryAfter && r.retries[0].retryAfter.Some?)
  {
  }

  /** A page that loads with an accepted status and whose links are read is reported as a success with those links, and nothing is retried. */
  lemma SuccessRouting(url: string, nav: Navigation, links: seq<string>, retryQueue: bool)
    requires !nav.Failed? && Http.HandleResponseCode(Some(PageStatus(nav))).success
    ensures ProcessUrl(url, nav, Extracted(links), retryQueue) == Emitted([SuccessResult(url, links, PageStatus(nav))], [], true)
  {
  }

  /** A timed-out navigation is retried once after ten seconds (status 408). */
  lemma TimeoutRetriedOnce(url: string, links: Extraction)
    ensures ProcessUrl(url, TimedOut, links, true).retries == [RetryEntry(url, Some(10), Http.RetryOnce)]
  {
  }

  /** What happens in the loop body for one URL taken from the task queue. */
  datatype Attempt =
    /** The driver is set up when needed (`driverStarts` tells whether that succeeds) and `process_url` runs. */
    | Visit(driverStarts: bool, nav: Navigation, links: Extraction)
    /**
     * The WebDriver session dies ("invalid session id" and the like) while the
     * page is processed. As written, `process_url` catches this like any other
     * exception (see `StepAsWritten`); `Step` gives it the restart handling the
     * loop's session-error handler was written for.
     */
    | SessionError(error: string)
    /** Any other exception escapes to the loop. */
    | OtherError(error: string)

  /** One item taken from the task queue: the `None` exit signal, or a URL with its split form. */
  datatype Task = ExitSignal | Url(url: string, parts: Url.SplitUrl, attempt: Attempt)

  /** The retry entry for a session error while restarts remain, and for a failed driver set-up. */
  function RestartRetry(url: string): RetryEntry {
    RetryEntry(url, Some(5), Http.Retry)
  }

  /** The retry entry once the restarts are used up. */
  function GiveUpRetry(url: string): RetryEntry {
    RetryEntry(url, Some(60), Http.Retry)
  }

  /**
   * The state `worker_process` keeps across tasks in single-driver mode:
   * what it has put on the result, retry and task queues, the restart
   * counter, and whether a driver is running.
   */
  class WorkerLoop {
    const allowed: set<string>
    const maxRestarts: int
    const retryQueue: bool
    var results: seq<WorkerResult>
    var retries: seq<RetryEntry>
    var requeued: seq<string>
    var restarts: nat
    var driverReady: bool

    constructor (allowed: set<string>, maxRestarts: int, retryQueue: bool)
      ensures this.allowed == allowed && this.maxRestarts == maxRestarts && this.retryQueue == retryQueue
      ensures results == [] && retries == [] && requeued == [] && restarts == 0 && !driverReady
    {
      this.allowed, this.maxRestarts, this.retryQueue := allowed, maxRestarts, retryQueue;
      results, retries, requeued := [], [], [];
      restarts, driverReady := 0, false;
    }

    /**
     * One pass of the loop for one task. Returns whether the loop ends:
     * on the exit signal, and when a session error takes the restart
     * counter past its maximum.
     */
    method HandleTask(task: Task) returns (exit: bool)
      modifies this
      ensures exit <==> task.ExitSignal? || (task.Url? && Url.IsWebpageUrl(task.parts, allowed)
                                               && task.attempt.SessionError? && restarts > maxRestarts)
      ensures task.ExitSignal? ==> unchanged(this)
      ensures task.Url? && !Url.IsWebpageUrl(task.parts, allowed) ==>
                results == old(results) + [SkippedResult(task.url, NonWebpageReason)]
                && retries == old(retries) && requeued == old(requeued)
                && restarts == old(restarts) && driverReady == old(driverReady)
      ensures task.Url? && Url.IsWebpageUrl(task.parts, allowed) ==>
                StateOf() == Step(old(StateOf()), task.url, task.attempt, retryQueue, maxRestarts)
      ensures StateOf() == TaskStep(old(StateOf()), task, allowed, retryQueue, maxRestarts)
    {
      if task.ExitSignal? {
        return true;
      }
      if !Url.IsWebpageUrl(task.parts, allowed) {
        results := results + [SkippedResult(task.url, NonWebpageReason)];
        return false;
      }
      exit := RunAttempt(task.url, task.attempt);
    }

    /** The loop body for a URL that is a web page: `process_url` behind the driver set-up and the session-error handler. */
    method RunAttempt(url: string, a: Attempt) returns (exit: bool)
      modifies this
      ensures exit <==> a.SessionError? && restarts > maxRestarts
      ensures StateOf() == Step(old(StateOf()), url, a, retryQueue, maxRestarts)
    {
      match a {
        case Visit(driverStarts, nav, links) =>
          if !driverReady && !driverStarts {
            if retryQueue {
              retries := retries + [RestartRetry(url)];
            }
            return false;
          }
          driverReady := true;
          var e := ProcessUrl(url, nav, links, retryQueue);
          results, retries := results + e.results, retries + e.retries;
          return false;
        case SessionError(error) =>
          restarts := restarts + 1;
          driverReady := false;
          if restarts > maxRestarts {
            results := results + [ErrorResult(url, error)];
            if retryQueue {
              retries := retries + [GiveUpRetry(url)];
            }
            return true;
          }
          if retryQueue {
            retries := retries + [RestartRetry(url)];
          } else {
            requeued := requeued + [url];
          }
          return false;
        case OtherError(error) =>
          results := results + [ErrorResult(url, error)];
          if retryQueue {
            retries := retries + [ErrorRetry(url)];
          }
          return false;
      }
    }

    /** `HandleTask` seen from the loop: when it ends the loop, how far the restart counter moves, and the state it leaves. */
    method Take(task: Task) returns (exit: bool)
      modifies this
      ensures exit ==> task.ExitSignal? || restarts > maxRestarts
      ensures !exit ==> !task.ExitSignal?
      ensures restarts <= old(restarts) + 1
      ensures !exit && old(restarts) <= maxRestarts ==> restarts <= maxRestarts
      ensures StateOf() == TaskStep(old(StateOf()), task, allowed, retryQueue, maxRestarts)
    {
      exit := HandleTask(task);
    }

    /** The `i`-th pass of the loop: the state moves on by one task of the fold. */
    method Advance(tasks: seq<Task>, i: nat, ghost s0: LoopState) returns (exit: bool)
      requires i < |tasks| && StateOf() == Steps(s0, tasks[..i], allowed, retryQueue, maxRestarts)
      modifies this
      ensures StateOf() == Steps(s0, tasks[..i + 1], allowed, retryQueue, maxRestarts)
      ensures exit ==> tasks[i].ExitSignal? || restarts > maxRestarts
      ensures !exit ==> !tasks[i].ExitSignal?
      ensures restarts <= old(restarts) + 1
      ensures !exit && old(restarts) <= maxRestarts ==> restarts <= maxRestarts
    {
      StepsSnoc(s0, tasks, i, allowed, retryQueue, maxRestarts);
      exit := Take(tasks[i]);
    }

    function StateOf(): LoopState
      reads this
    {
      LoopState(results, retries, requeued, restarts, driverReady)
    }

    /** The loop over the tasks taken from the queue, until it exits or the tasks run out. */
    method Run(tasks: seq<Task>) returns (taken: nat)
      modifies this
      ensures taken <= |tasks|
      ensures taken < |tasks| ==> taken > 0 && (tasks[taken - 1].ExitSignal? || restarts > maxRestarts)
      ensures NoExitBefore(tasks, taken - 1)
      ensures old(restarts) <= maxRestarts ==> restarts <= maxRestarts + 1
      ensures restarts <= old(restarts) + taken
      ensures StateOf() == Steps(old(StateOf()), tasks[..taken], allowed, retryQueue, maxRestarts)
    {
      taken := 0;
      var exit := false;
      while taken < |tasks| && !exit
        invariant taken <= |tasks|
        invariant NoExitBefore(tasks, if exit then taken - 1 else taken)
        invariant exit ==> taken > 0 && (tasks[taken - 1].ExitSignal? || restarts > maxRestarts)
        invariant restarts <= old(restarts) + taken
        invariant old(restarts) <= maxRestarts && !exit ==> restarts <= maxRestarts
        invariant old(restarts) <= maxRestarts ==> restarts <= maxRestarts + 1
        invariant StateOf() == Steps(old(StateOf()), tasks[..taken], allowed, retryQueue, maxRestarts)
      {
        exit := Advance(tasks, taken, old(StateOf()));
        if !exit {
          NoExitExtend(tasks, taken);
        }
        taken := taken + 1;
      }
    }
  }

  /** One more task that is not the exit signal extends the run without one. */
  lemma NoExitExtend(tasks: seq<Task>, n: nat)
    requires n < |tasks| && NoExitBefore(tasks, n) && !tasks[n].ExitSignal?
    ensures NoExitBefore(tasks, n + 1)
  {
  }

  /** No task before position `n` is the exit signal. */
  predicate NoExitBefore(tasks: seq<Task>, n: int) {
    forall i :: 0 <= i < n && i < |tasks| ==> !tasks[i].ExitSignal?
  }

  /** The loop state as a value. */
  datatype LoopState = LoopState(results: seq<WorkerResult>, retries: seq<RetryEntry>, requeued: seq<string>,
                                 restarts: nat, driverReady: bool)

  /** `[x]` when a retry queue exists, nothing otherwise. */
  function IfQueue(retryQueue: bool, x: RetryEntry): seq<RetryEntry> {
    if retryQueue then [x] else []
  }

  /** The state after one task whose URL is a web page. */
  function Step(s: LoopState, url: string, a: Attempt, retryQueue: bool, maxRestarts: int): LoopState
  {
    match a
    case Visit(driverStarts, nav, links) =>
      if !s.driverReady && !driverStarts then s.(retries := s.retries + IfQueue(retryQueue, RestartRetry(url)))
      else
        var e := ProcessUrl(url, nav, links, retryQueue);
        LoopState(s.results + e.results, s.retries + e.retries, s.requeued, s.restarts, true)
    case SessionError(error) =>
      if s.restarts + 1 > maxRestarts then
        LoopState(s.results + [ErrorResult(url, error)], s.retries + IfQueue(retryQueue, GiveUpRetry(url)),
                  s.requeued, s.restarts + 1, false)
      else
        LoopState(s.results, s.retries + IfQueue(retryQueue, RestartRetry(url)),
                  s.requeued + (if retryQueue then [] else [url]), s.restarts + 1, false)
    case OtherError(error) =>
      LoopState(s.results + [ErrorResult(url, error)], s.retries + IfQueue(retryQueue, ErrorRetry(url)),
                s.requeued, s.restarts, s.driverReady)
  }

  /**
   * A task puts at most one result and at most one retry entry on the
   * queues, and a retry entry or a requeued URL is always for the task's
   * URL; the URL goes back on the task queue only after a session error
   * without a retry queue.
   */
  lemma StepEmitsAtMostOne(s: LoopState, url: string, a: Attempt, retryQueue: bool, maxRestarts: int)
    ensures var t := Step(s, url, a, retryQueue, maxRestarts);
            && s.results <= t.results && |t.results| <= |s.results| + 1
            && s.retries <= t.retries && |t.retries| <= |s.retries| + 1
            && (|t.retries| > |s.retries| ==> retryQueue && t.retries[|s.retries|].url == url)
            && (t.requeued != s.requeued ==> a.SessionError? && !retryQueue && t.requeued == s.requeued + [url])
            && (forall r :: r in t.results[|s.results|..] ==> r.url == url)
  {
  }

  /**
   * Each session error counts one restart; the one that takes the counter
   * past the maximum reports an error and, given a retry queue, asks for a
   * retry after sixty seconds, while an earlier one asks for a retry after
   * five seconds and reports nothing.
   */
  lemma SessionErrorRestarts(s: LoopState, url: string, error: string, retryQueue: bool, maxRestarts: int)
    ensures var t := Step(s, url, SessionError(error), retryQueue, maxRestarts);
            && t.restarts == s.restarts + 1 && !t.driverReady
            && (t.restarts > maxRestarts ==>
                  t.results == s.results + [ErrorResult(url, error)]
                  && t.retries == s.retries + IfQueue(retryQueue, RetryEntry(url, Some(60), Http.Retry)))
            && (t.restarts <= maxRestarts ==>
                  t.results == s.results && t.retries == s.retries + IfQueue(retryQueue, RetryEntry(url, Some(5), Http.Retry)))
  {
  }

  /** Only session errors move the restart counter. */
  lemma OnlySessionErrorsRestart(s: LoopState, url: string, a: Attempt, retryQueue: bool, maxRestarts: int)
    ensures Step(s, url, a, retryQueue, maxRestarts).restarts == s.restarts + (if a.SessionError? then 1 else 0)
  {
  }

  /** The state after one task taken from the queue, whatever it is. */
  function TaskStep(s: LoopState, task: Task, allowed: set<string>, retryQueue: bool, maxRestarts: int): LoopState {
    match task
    case ExitSignal => s
    case Url(url, parts, attempt) =>
      if !Url.IsWebpageUrl(parts, allowed) then s.(results := s.results + [SkippedResult(url, NonWebpageReason)])
      else Step(s, url, attempt, retryQueue, maxRestarts)
  }

  /** The state after the tasks in order. */
  function Steps(s: LoopState, tasks: seq<Task>, allowed: set<string>, retryQueue: bool, maxRestarts: int): LoopState {
    if tasks == [] then s
    else TaskStep(Steps(s, tasks[..|tasks| - 1], allowed, retryQueue, maxRestarts), tasks[|tasks| - 1],
                  allowed, retryQueue, maxRestarts)
  }

  lemma StepsSnoc(s: LoopState, tasks: seq<Task>, i: nat, allowed: set<string>, retryQueue: bool, maxRestarts: int)
    requires i < |tasks|
    ensures Steps(s, tasks[..i + 1], allowed, retryQueue, maxRestarts)
            == TaskStep(Steps(s, tasks[..i], allowed, retryQueue, maxRestarts), tasks[i], allowed, retryQueue, maxRestarts)
  {
    assert tasks[..i + 1][..i] == tasks[..i];
  }

  /**
   * Over any run of tasks, the queues only grow, by at most one result and
   * one retry entry per task, and the restart counter moves by at most one
   * per task.
   */
  lemma {:induction false} StepsBounded(s: LoopState, tasks: seq<Task>, allowed: set<string>, retryQueue: bool,
                                        maxRestarts: int)
    ensures var t := Steps(s, tasks, allowed, retryQueue, maxRestarts);
            && s.results <= t.results && |t.results| <= |s.results| + |tasks|
            && s.retries <= t.retries && |t.retries| <= |s.retries| + |tasks|
            && s.restarts <= t.restarts <= s.restarts + |tasks|
  {
    if tasks != [] {
      var mid := Steps(s, tasks[..|tasks| - 1], allowed, retryQueue, maxRestarts);
      StepsBounded(s, tasks[..|tasks| - 1], allowed, retryQueue, maxRestarts);
      match tasks[|tasks| - 1]
      case ExitSignal =>
      case Url(url, parts, attempt) =>
        if Url.IsWebpageUrl(parts, allowed) {
          StepEmitsAtMostOne(mid, url, attempt, retryQueue, maxRestarts);
        }
    }
  }

  // ---------------------------------------------------------------------------
  // The session error as written

  /**
   * One task as the source runs it: `process_url` catches the session error
   * like any other exception, reports an error result and asks for one retry
   * after thirty seconds; the restart counter and the dead driver stay.
   */
  function StepAsWritten(s: LoopState, url: string, a: Attempt, retryQueue: bool, maxRestarts: int): LoopState {
    match a
    case SessionError(error) =>
      LoopState(s.results + [ErrorResult(url, error)], s.retries + IfQueue(retryQueue, ErrorRetry(url)),
                s.requeued, s.restarts, s.driverReady)
    case _ => Step(s, url, a, retryQueue, maxRestarts)
  }

  /** The tasks of a run as the source handles them, each a URL with what happens to it. */
  function StepsAsWritten(s: LoopState, visits: seq<(string, Attempt)>, retryQueue: bool, maxRestarts: int): LoopState {
    if visits == [] then s
    else
      var last := visits[|visits| - 1];
      StepAsWritten(StepsAsWritten(s, visits[..|visits| - 1], retryQueue, maxRestarts), last.0, last.1,
                    retryQueue, maxRestarts)
  }

  /** As written, no run of tasks ever moves the restart counter or requeues a URL. */
  lemma {:induction false} AsWrittenNeverRestarts(s: LoopState, visits: seq<(string, Attempt)>, retryQueue: bool,
                                                  maxRestarts: int)
    ensures StepsAsWritten(s, visits, retryQueue, maxRestarts).restarts == s.restarts
    ensures StepsAsWritten(s, visits, retryQueue, maxRestarts).requeued == s.requeued
  {
    if visits != [] {
      AsWrittenNeverRestarts(s, visits[..|visits| - 1], retryQueue, maxRestarts);
    }
  }

  /**
   * The discrepancy on one input: a session that dies on a running driver,
   * with restarts to spare. The loop's handler would count a restart, drop the
   * driver and retry after five seconds; as written the driver is kept, nothing
   * is counted and the URL is retried once after thirty seconds.
   */
  lemma SessionErrorSwallowed(url: string, error: string)
    ensures var s := LoopState([], [], [], 0, true);
            var written := StepAsWritten(s, url, SessionError(error), true, 3);
            var intended := Step(s, url, SessionError(error), true, 3);
            && written == LoopState([ErrorResult(url, error)], [RetryEntry(url, Some(30), Http.RetryOnce)], [], 0, true)
            && intended == LoopState([], [RetryEntry(url, Some(5), Http.Retry)], [], 1, false)
  {
  }
  // ---------------------------------------------------------------------------
  // The shape of a queued task

  /** What the spider puts on the task queue: the `None` exit signal, or a `(url, depth)` pair. */
  datatype QueuedTask = Sentinel | Queued(url: string, depth: int)

  /** The message of the exception `urlparse` raises when it is handed a pair instead of a string. */
  const PairParseError: string := "'tuple' object has no attribute 'decode'"

  /**
   * One queued task as the worker loop handles it as written: the pair
   * itself goes to `is_webpage_url`, whose `urlparse` raises, and the loop's
   * catch-all reports an error and asks for one retry after thirty seconds.
   * (The result and the retry entry carry the whole pair as their URL; the
   * model records its URL part.)
   */
  function QueuedStepAsWritten(s: LoopState, t: QueuedTask, retryQueue: bool): LoopState {
    match t
    case Sentinel => s
    case Queued(url, _) =>
      s.(results := s.results + [ErrorResult(url, PairParseError)],
         retries := s.retries + IfQueue(retryQueue, ErrorRetry(url)))
  }

  /** A run of queued tasks handled as written. */
  function QueuedStepsAsWritten(s: LoopState, ts: seq<QueuedTask>, retryQueue: bool): LoopState {
    if ts == [] then s
    else QueuedStepAsWritten(QueuedStepsAsWritten(s, ts[..|ts| - 1], retryQueue), ts[|ts| - 1], retryQueue)
  }

  /**
   * As written, no queued page is ever visited: every result a run adds is
   * the parse error, every retry it adds is a retry_once after thirty
   * seconds, and the restart counter, the requeued URLs and the driver stay.
   */
  lemma {:induction false} QueuedPairsNeverVisited(s: LoopState, ts: seq<QueuedTask>, retryQueue: bool)
    ensures var t := QueuedStepsAsWritten(s, ts, retryQueue);
            && s.results <= t.results && s.retries <= t.retries
            && (forall i :: |s.results| <= i < |t.results| ==> t.results[i].ErrorResult? && t.results[i].error == PairParseError)
            && (forall i :: |s.retries| <= i < |t.retries| ==> t.retries[i].retryAfter == Some(30) && t.retries[i].action == Http.RetryOnce)
            && t.restarts == s.restarts && t.requeued == s.requeued && t.driverReady == s.driverReady
  {
    if ts != [] {
      var mid := QueuedStepsAsWritten(s, ts[..|ts| - 1], retryQueue);
      QueuedPairsNeverVisited(s, ts[..|ts| - 1], retryQueue);
      var t := QueuedStepAsWritten(mid, ts[|ts| - 1], retryQueue);
      assert forall i :: |s.results| <= i < |mid.results| ==> t.results[i] == mid.results[i];
      assert forall i :: |s.retries| <= i < |mid.retries| ==> t.retries[i] == mid.retries[i];
    }
  }

  /**
   * The evident intent: the worker unpacks the pair and processes its URL,
   * with the URL's split form and what happens to it as inputs.
   */
  function Unpack(t: QueuedTask, parts: Url.SplitUrl, a: Attempt): (r: Task)
    ensures r.ExitSignal? <==> t.Sentinel?
    ensures t.Queued? ==> r.url == t.url && r.parts == parts && r.attempt == a
  {
    match t
    case Sentinel => ExitSignal
    case Queued(url, _) => Url(url, parts, a)
  }

  /**
   * The discrepancy on one input: the pair `("https://a.example/", 0)` for a
   * page that loads cleanly on a running driver. As written the worker
   * reports the parse error and asks for a retry_once; unpacked, the page is
   * reported as a success with its links.
   */
  lemma QueuedPairFails(links: seq<string>, allowed: set<string>)
    ensures var s := LoopState([], [], [], 0, true);
            var t := Queued("https://a.example/", 0);
            var parts := Url.SplitUrl("https", "a.example", "/", "", "", "");
            var page := Visit(true, Loaded(None, Some(""), Some("")), Extracted(links));
            && QueuedStepAsWritten(s, t, true).results == [ErrorResult("https://a.example/", PairParseError)]
            && QueuedStepAsWritten(s, t, true).retries == [RetryEntry("https://a.example/", Some(30), Http.RetryOnce)]
            && TaskStep(s, Unpack(t, parts, page), allowed, true, 3).results
               == [SuccessResult("https://a.example/", links, DefaultStatus)]
  {
    PlainPageSucceeds("", "");
  }

  /**
   * Unpacked, a queued pair is handled as its URL: a non-webpage URL is
   * skipped, and a webpage URL that loads cleanly on a running driver is
   * reported as a success with its links, and nothing is retried.
   */
  lemma UnpackedPairVisited(s: LoopState, url: string, depth: int, parts: Url.SplitUrl, a: Attempt,
                            allowed: set<string>, retryQueue: bool, maxRestarts: int)
    ensures var r := TaskStep(s, Unpack(Queued(url, depth), parts, a), allowed, retryQueue, maxRestarts);
            && (!Url.IsWebpageUrl(parts, allowed) ==> r == s.(results := s.results + [SkippedResult(url, NonWebpageReason)]))
            && (Url.IsWebpageUrl(parts, allowed) ==> r == Step(s, url, a, retryQueue, maxRestarts))
            && (Url.IsWebpageUrl(parts, allowed) && s.driverReady && a.Visit? && a.links.Extracted? && !a.nav.Failed?
                && Http.HandleResponseCode(Some(PageStatus(a.nav))).success ==>
                  r.results == s.results + [SuccessResult(url, a.links.links, PageStatus(a.nav))] && r.retries == s.retries)
  {
    if Url.IsWebpageUrl(parts, allowed) && s.driverReady && a.Visit? && a.links.Extracted? && !a.nav.Failed?
       && Http.HandleResponseCode(Some(PageStatus(a.nav))).success {
      SuccessRouting(url, a.nav, a.links.links, retryQueue);
    }
  }
}
