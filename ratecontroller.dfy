/**
 * The adaptive rate controller (spider/core/rate_controller.py,
 * `CrawlRateController`): a state machine over the target worker count, the
 * delay between requests, a recovery mode with a severity level, a cool-down
 * after rate limiting, a bounded window of recent responses and a few
 * counters.
 *
 * Delays and times are `real`. Clock readings are the parameter `now`; one
 * call of a method reads the clock once.
 */
module RateController {
  import opened Wrappers
  import Http

  // ---------------------------------------------------------------------------
  // Values

  /** The `status` of a crawl result, as the crawler hands it over. */
  datatype ResultStatus = Success | HttpError | Skipped | Error | OtherStatus

  /**
   * The fields of a result that `register_response` reads. `httpStatus` is 0
   * when the result has none; `handling == None` is a missing handling entry.
   */
  datatype ResponseData = ResponseData(status: ResultStatus, httpStatus: int, handling: Option<Http.Handling>)

  /** An entry of `recent_responses`; `httpStatus` is 0 unless the response was an http_error. */
  datatype Summary = Summary(success: bool, httpStatus: int, rateLimited: bool)

  /** The `last_adjustment_reason` texts, one per branch that writes one. */
  datatype Reason =
    | InitialSettings | EmergencyReduction | RateLimitingDetected | HighServerErrorRate
    | CarefulRecoveryWorkers | CarefulRecoveryDelay | SteppingDownToLight | MaintainingRecovery
    | LightRecoveryWorkers | LightRecoveryDelay | ExitingRecovery | MaintainingLightRecovery
    | HighSuccessWorkers | HighSuccessDelay | OptimalPerformance | GoodSuccessRate
    | ModerateSuccessWorkers | ModerateSuccessDelay | LowSuccessRate
    | CooldownActive | NoAdjustmentNeeded | NoResponses

  datatype Stats = Stats(totalRequests: nat, successfulRequests: nat, rateLimitedRequests: nat,
                         serverErrors: nat, clientErrors: nat, adjustmentsMade: nat,
                         lastAdjustmentReason: Reason)

  const InitialStats := Stats(0, 0, 0, 0, 0, 0, InitialSettings)

  datatype Settings = Settings(workers: int, delay: real)

  datatype Limits = Limits(minWorkers: int, maxWorkers: int, minDelay: real, maxDelay: real)

  /** The bounds the controller is meant to keep: workers and delay inside their configured ranges. */
  predicate InBounds(s: Settings, lim: Limits) {
    0 <= lim.minWorkers <= s.workers <= lim.maxWorkers && 0.0 <= lim.minDelay <= s.delay <= lim.maxDelay
  }

  function MinR(a: real, b: real): real { if a <= b then a else b }
  function MaxR(a: real, b: real): real { if a >= b then a else b }
  function MinI(a: int, b: int): int { if a <= b then a else b }
  function MaxI(a: int, b: int): int { if a >= b then a else b }
  function AbsR(x: real): real { if x < 0.0 then -x else x }

  // ---------------------------------------------------------------------------
  // register_response, as functions of the response

  /** The rate-limit test of `register_response`: only http_error results can be rate limited. */
  predicate IsRateLimitedResponse(r: ResponseData) {
    && r.status == HttpError
    && (|| (r.handling.Some? && r.handling.value.action == Http.ThrottleAndRetry)
        || r.httpStatus == 429
        || (r.handling.Some? && r.handling.value.rateLimited))
  }

  function Summarize(r: ResponseData): (s: Summary)
    ensures s.success <==> r.status == Success
    ensures s.rateLimited ==> !s.success
    ensures r.status != HttpError ==> s.httpStatus == 0 && !s.rateLimited
    ensures r.status == HttpError ==> s.httpStatus == r.httpStatus
    ensures s.rateLimited <==>
      && r.status == HttpError
      && (r.httpStatus == 429
          || (r.handling.Some? && (r.handling.value.action == Http.ThrottleAndRetry || r.handling.value.rateLimited)))
  {
    Summary(r.status == Success, if r.status == HttpError then r.httpStatus else 0, IsRateLimitedResponse(r))
  }

  /**
   * For an http_error result classified by `handle_response_code`, the
   * controller's rate-limit test agrees with the classifier's action, except
   * that a 429 always counts.
   */
  lemma ClassifiedResponseRateLimited(code: int)
    ensures var h := Http.HandleResponseCode(Some(code));
      IsRateLimitedResponse(ResponseData(HttpError, code, Some(h))) <==> h.action == Http.ThrottleAndRetry
  {
  }

  /**
   * Appending to the window and keeping its last `size` entries. Python's
   * `lst[-0:]` is the whole list, so a window size of 0 bounds nothing.
   */
  function WindowAppend(w: seq<Summary>, x: Summary, size: nat): (r: seq<Summary>)
    ensures size > 0 ==> |r| == MinI(|w| + 1, size)
    ensures size == 0 ==> r == w + [x]
    ensures r != [] && r[|r| - 1] == x
    ensures r == (w + [x])[|w| + 1 - |r|..]
  {
    var a := w + [x];
    if size > 0 && |a| > size then a[|a| - size..] else a
  }

  // ---------------------------------------------------------------------------
  // The window statistics of adjust_rate_if_needed

  function SuccessCount(w: seq<Summary>): (n: nat)
    ensures n <= |w|
    ensures n == |w| <==> forall i :: 0 <= i < |w| ==> w[i].success
  {
    if w == [] then 0 else SuccessCount(w[..|w| - 1]) + (if w[|w| - 1].success then 1 else 0)
  }

  function RateLimitedCount(w: seq<Summary>): (n: nat)
    ensures n <= |w|
    ensures n == 0 <==> forall i :: 0 <= i < |w| ==> !w[i].rateLimited
  {
    if w == [] then 0 else RateLimitedCount(w[..|w| - 1]) + (if w[|w| - 1].rateLimited then 1 else 0)
  }

  predicate IsServerError(s: Summary) {
    !s.success && 400 <= s.httpStatus < 600
  }

  /** Failed entries with a 4xx or 5xx status (the source calls all of them server errors). */
  function ServerErrorCount(w: seq<Summary>): (n: nat)
    ensures n <= |w| - SuccessCount(w)
  {
    if w == [] then 0 else ServerErrorCount(w[..|w| - 1]) + (if IsServerError(w[|w| - 1]) then 1 else 0)
  }

  /** The window without its rate-limited entries, in order. */
  function WithoutRateLimited(w: seq<Summary>): (r: seq<Summary>)
    ensures |r| == |w| - RateLimitedCount(w)
    ensures RateLimitedCount(r) == 0
  {
    if w == [] then []
    else
      var rest := WithoutRateLimited(w[..|w| - 1]);
      if w[|w| - 1].rateLimited then rest else rest + [w[|w| - 1]]
  }

  /** Filtering keeps exactly the entries that are not rate limited. */
  lemma {:induction false} WithoutRateLimitedMembers(w: seq<Summary>, x: Summary)
    ensures x in WithoutRateLimited(w) <==> x in w && !x.rateLimited
  {
    if w != [] {
      WithoutRateLimitedMembers(w[..|w| - 1], x);
      assert w == w[..|w| - 1] + [w[|w| - 1]];
    }
  }

  /** A window with no rate-limited entry is left as it is, so filtering twice is filtering once. */
  lemma {:induction false} WithoutRateLimitedIdempotent(w: seq<Summary>)
    ensures WithoutRateLimited(WithoutRateLimited(w)) == WithoutRateLimited(w)
  {
    NoRateLimitedUnfiltered(WithoutRateLimited(w));
  }

  lemma {:induction false} NoRateLimitedUnfiltered(w: seq<Summary>)
    requires RateLimitedCount(w) == 0
    ensures WithoutRateLimited(w) == w
  {
    if w != [] {
      NoRateLimitedUnfiltered(w[..|w| - 1]);
      assert w == w[..|w| - 1] + [w[|w| - 1]];
    }
  }

  /** The counts `adjust_rate_if_needed` takes from the window. */
  datatype WindowCounts = WindowCounts(total: nat, successes: nat, rateLimited: nat, serverErrors: nat)

  function CountWindow(w: seq<Summary>): (c: WindowCounts)
    ensures c.total == |w| && c.successes <= c.total && c.rateLimited <= c.total
    ensures c.serverErrors <= c.total - c.successes
  {
    WindowCounts(|w|, SuccessCount(w), RateLimitedCount(w), ServerErrorCount(w))
  }

  /**
   * `count / total >= threshold` for a positive `total`. The source compares
   * floating-point quotients; for windows of fewer than 10^13 entries the two
   * comparisons agree on every threshold used here.
   */
  predicate RateAtLeast(count: nat, total: nat, threshold: real) {
    count as real >= threshold * total as real
  }

  // ---------------------------------------------------------------------------
  // The decisions

  /** The new settings of `force_worker_reduction`, by recovery level. */
  function ForcedSettings(level: int, s: Settings, lim: Limits): (r: Settings)
    ensures InBounds(s, lim) ==> InBounds(r, lim) && r.workers <= s.workers && r.delay >= s.delay
    ensures level >= 3 ==> r.workers == lim.minWorkers
    ensures level == 2 && InBounds(s, lim) ==> r.workers <= MaxI(lim.minWorkers, s.workers / 2)
    ensures level >= 3 ==> r.delay == MinR(lim.maxDelay, 3.0 * s.delay)
    ensures level == 2 ==> r.workers == MaxI(lim.minWorkers, s.workers / 2) && r.delay == MinR(lim.maxDelay, 2.0 * s.delay)
    ensures level < 2 ==> r.workers == MaxI(lim.minWorkers, s.workers - 1) && r.delay == MinR(lim.maxDelay, 1.5 * s.delay)
  {
    if level >= 3 then
      Settings(lim.minWorkers, MinR(lim.maxDelay, s.delay * 3.0))
    else if level == 2 then
      Settings(MaxI(lim.minWorkers, s.workers / 2), MinR(lim.maxDelay, s.delay * 2.0))
    else
      Settings(MaxI(lim.minWorkers, s.workers - 1), MinR(lim.maxDelay, s.delay * 1.5))
  }

  /** How a decision changes the recovery state. */
  datatype RecoveryChange = KeepRecovery | EnterLightRecovery | StepDownToLight | LeaveRecovery

  /**
   * The outcome of the analysis in `adjust_rate_if_needed` once the timing
   * gates have passed: keep everything, defer to `force_worker_reduction`, or
   * apply new settings.
   */
  datatype Decision = Hold(why: Reason) | Reduce | Apply(settings: Settings, recovery: RecoveryChange, reason: Reason)

  /** One more worker if below the maximum, else a shorter delay (by `divisor`, floored), else `otherwise`. */
  function ScaleUp(s: Settings, lim: Limits, delayAbove: real, divisor: real, workersWhy: Reason, delayWhy: Reason,
                   otherwise: Decision): (d: Decision)
    requires divisor >= 1.0
    ensures d != otherwise ==> d.Apply? && d.recovery == KeepRecovery
    ensures d.Apply? && d != otherwise && InBounds(s, lim) ==> InBounds(d.settings, lim)
    ensures d.Apply? && d != otherwise && InBounds(s, lim) ==> d.settings.workers >= s.workers && d.settings.delay <= s.delay
  {
    if s.workers < lim.maxWorkers then Apply(s.(workers := s.workers + 1), KeepRecovery, workersWhy)
    else if s.delay > delayAbove then Apply(s.(delay := MaxR(lim.minDelay, s.delay / divisor)), KeepRecovery, delayWhy)
    else otherwise
  }

  /** The recovery-mode branch of `adjust_rate_if_needed`. */
  function RecoveryDecision(c: WindowCounts, level: int, consecutive: nat, recoveryTime: real, s: Settings,
                            lim: Limits): (d: Decision)
    ensures !d.Reduce? && (d.Apply? ==> d.recovery != EnterLightRecovery)
    ensures d.Apply? && InBounds(s, lim) ==> InBounds(d.settings, lim)
    ensures d.Apply? && InBounds(s, lim) && (d.settings.workers > s.workers || d.settings.delay < s.delay) ==>
      if level >= 2 then RateAtLeast(c.successes, c.total, 0.98) && consecutive >= 30 && recoveryTime > 120.0
      else RateAtLeast(c.successes, c.total, 0.95) && consecutive >= 15
    ensures d.Apply? && d.recovery == StepDownToLight ==> level >= 2 && d.settings == s
    ensures d.Apply? && d.recovery == LeaveRecovery ==> level < 2 && d.settings == s
  {
    if level >= 2 then
      if RateAtLeast(c.successes, c.total, 0.98) && consecutive >= 30 && recoveryTime > 120.0 then
        ScaleUp(s, lim, lim.minDelay * 2.0, 1.1, CarefulRecoveryWorkers, CarefulRecoveryDelay,
                Apply(s, StepDownToLight, SteppingDownToLight))
      else Hold(MaintainingRecovery)
    else
      if RateAtLeast(c.successes, c.total, 0.95) && consecutive >= 15 then
        ScaleUp(s, lim, lim.minDelay, 1.2, LightRecoveryWorkers, LightRecoveryDelay,
                Apply(s, LeaveRecovery, ExitingRecovery))
      else Hold(MaintainingLightRecovery)
  }

  /** The branch by success rate outside recovery. */
  function NormalDecision(c: WindowCounts, s: Settings, lim: Limits): (d: Decision)
    ensures !d.Reduce? && (d.Apply? ==> d.recovery == KeepRecovery || d.recovery == EnterLightRecovery)
    ensures d.Apply? && InBounds(s, lim) ==> InBounds(d.settings, lim)
    ensures d.Apply? && InBounds(s, lim) && (d.settings.workers > s.workers || d.settings.delay < s.delay) ==>
      RateAtLeast(c.successes, c.total, 0.95)
    ensures RateAtLeast(c.successes, c.total, 0.8) && !RateAtLeast(c.successes, c.total, 0.95) ==>
      d == Hold(GoodSuccessRate)
    ensures d.Apply? && d.recovery == EnterLightRecovery <==> !RateAtLeast(c.successes, c.total, 0.5)
  {
    if RateAtLeast(c.successes, c.total, 0.95) then
      ScaleUp(s, lim, lim.minDelay, 1.2, HighSuccessWorkers, HighSuccessDelay, Hold(OptimalPerformance))
    else if RateAtLeast(c.successes, c.total, 0.8) then
      Hold(GoodSuccessRate)
    else if RateAtLeast(c.successes, c.total, 0.5) then
      if s.workers > lim.minWorkers + 1 then Apply(s.(workers := s.workers - 1), KeepRecovery, ModerateSuccessWorkers)
      else Apply(s.(delay := MinR(lim.maxDelay, s.delay * 1.2)), KeepRecovery, ModerateSuccessDelay)
    else
      Apply(Settings(MaxI(lim.minWorkers, s.workers - MaxI(1, s.workers / 3)), MinR(lim.maxDelay, s.delay * 1.5)),
            EnterLightRecovery, LowSuccessRate)
  }

  /**
   * The branch structure of `adjust_rate_if_needed` over the counts of a
   * non-empty window. `recoveryTime` is the time since recovery started.
   */
  function Decide(c: WindowCounts, inRecovery: bool, level: int, consecutive: nat, recoveryTime: real,
                  s: Settings, lim: Limits): (d: Decision)
    requires c.total > 0
    ensures d.Reduce? <==> c.rateLimited > 0
    ensures d.Apply? && InBounds(s, lim) ==> InBounds(d.settings, lim)
    ensures d.Apply? && d.recovery == EnterLightRecovery ==> !inRecovery
    ensures d.Apply? && (d.recovery == StepDownToLight || d.recovery == LeaveRecovery) ==> inRecovery
    ensures d.Apply? && InBounds(s, lim) && (d.settings.workers > s.workers || d.settings.delay < s.delay) ==>
      c.rateLimited == 0 && RateAtLeast(c.successes, c.total, 0.95)
  {
    if c.rateLimited > 0 then
      Reduce
    else if c.serverErrors as real > 0.2 * c.total as real then
      Apply(Settings(MaxI(lim.minWorkers, s.workers - 1), MinR(lim.maxDelay, s.delay * 1.3)),
            if inRecovery then KeepRecovery else EnterLightRecovery, HighServerErrorRate)
    else if inRecovery then
      RecoveryDecision(c, level, consecutive, recoveryTime, s, lim)
    else
      NormalDecision(c, s, lim)
  }

  /** The decision table outside recovery, for a window without rate-limited entries, row by row. */
  lemma NormalModeTable(c: WindowCounts, level: int, consecutive: nat, t: real, s: Settings, lim: Limits)
    requires c.total > 0 && c.rateLimited == 0
    ensures var d := Decide(c, false, level, consecutive, t, s, lim);
      var serverHeavy := c.serverErrors as real > 0.2 * c.total as real;
      && (serverHeavy ==> d == Apply(Settings(MaxI(lim.minWorkers, s.workers - 1), MinR(lim.maxDelay, s.delay * 1.3)),
                                     EnterLightRecovery, HighServerErrorRate))
      && (!serverHeavy && RateAtLeast(c.successes, c.total, 0.95) && s.workers < lim.maxWorkers ==>
            d == Apply(Settings(s.workers + 1, s.delay), KeepRecovery, HighSuccessWorkers))
      && (!serverHeavy && RateAtLeast(c.successes, c.total, 0.95) && s.workers >= lim.maxWorkers && s.delay > lim.minDelay ==>
            d == Apply(Settings(s.workers, MaxR(lim.minDelay, s.delay / 1.2)), KeepRecovery, HighSuccessDelay))
      && (!serverHeavy && RateAtLeast(c.successes, c.total, 0.95) && s.workers >= lim.maxWorkers && s.delay <= lim.minDelay ==>
            d == Hold(OptimalPerformance))
      && (!serverHeavy && RateAtLeast(c.successes, c.total, 0.8) && !RateAtLeast(c.successes, c.total, 0.95) ==>
            d == Hold(GoodSuccessRate))
      && (!serverHeavy && RateAtLeast(c.successes, c.total, 0.5) && !RateAtLeast(c.successes, c.total, 0.8) ==>
            d == if s.workers > lim.minWorkers + 1
                 then Apply(Settings(s.workers - 1, s.delay), KeepRecovery, ModerateSuccessWorkers)
                 else Apply(Settings(s.workers, MinR(lim.maxDelay, s.delay * 1.2)), KeepRecovery, ModerateSuccessDelay))
      && (!serverHeavy && !RateAtLeast(c.successes, c.total, 0.5) ==>
            d == Apply(Settings(MaxI(lim.minWorkers, s.workers - MaxI(1, s.workers / 3)), MinR(lim.maxDelay, s.delay * 1.5)),
                       EnterLightRecovery, LowSuccessRate))
  {
  }

  /** The decision table in recovery, for a window without rate-limited entries or many server errors, row by row. */
  lemma RecoveryModeTable(c: WindowCounts, level: int, consecutive: nat, t: real, s: Settings, lim: Limits)
    requires c.total > 0 && c.rateLimited == 0 && !(c.serverErrors as real > 0.2 * c.total as real)
    ensures var d := Decide(c, true, level, consecutive, t, s, lim);
      var careful := RateAtLeast(c.successes, c.total, 0.98) && consecutive >= 30 && t > 120.0;
      var light := RateAtLeast(c.successes, c.total, 0.95) && consecutive >= 15;
      && (level >= 2 && !careful ==> d == Hold(MaintainingRecovery))
      && (level >= 2 && careful && s.workers < lim.maxWorkers ==>
            d == Apply(Settings(s.workers + 1, s.delay), KeepRecovery, CarefulRecoveryWorkers))
      && (level >= 2 && careful && s.workers >= lim.maxWorkers && s.delay > lim.minDelay * 2.0 ==>
            d == Apply(Settings(s.workers, MaxR(lim.minDelay, s.delay / 1.1)), KeepRecovery, CarefulRecoveryDelay))
      && (level >= 2 && careful && s.workers >= lim.maxWorkers && s.delay <= lim.minDelay * 2.0 ==>
            d == Apply(s, StepDownToLight, SteppingDownToLight))
      && (level < 2 && !light ==> d == Hold(MaintainingLightRecovery))
      && (level < 2 && light && s.workers < lim.maxWorkers ==>
            d == Apply(Settings(s.workers + 1, s.delay), KeepRecovery, LightRecoveryWorkers))
      && (level < 2 && light && s.workers >= lim.maxWorkers && s.delay > lim.minDelay ==>
            d == Apply(Settings(s.workers, MaxR(lim.minDelay, s.delay / 1.2)), KeepRecovery, LightRecoveryDelay))
      && (level < 2 && light && s.workers >= lim.maxWorkers && s.delay <= lim.minDelay ==>
            d == Apply(s, LeaveRecovery, ExitingRecovery))
  {
  }

  // ---------------------------------------------------------------------------
  // Checkpoint form

  /** The saved `stats` dictionary; each key may be missing. */
  datatype SavedStats = SavedStats(totalRequests: Option<nat>, successfulRequests: Option<nat>,
                                   rateLimitedRequests: Option<nat>, serverErrors: Option<nat>,
                                   clientErrors: Option<nat>, adjustmentsMade: Option<nat>,
                                   lastAdjustmentReason: Option<Reason>)

  /** The dictionary of `to_checkpoint`; each key may be missing when it comes back. */
  datatype RateCheckpoint = RateCheckpoint(
    targetWorkers: Option<int>, currentDelay: Option<real>, lastAdjustmentTime: Option<real>,
    lastAdjustmentReason: Option<Reason>, inRecoveryMode: Option<bool>, throttlingActive: Option<bool>,
    recoveryLevel: Option<int>, stats: Option<SavedStats>)

  function SaveStats(st: Stats): SavedStats {
    SavedStats(Some(st.totalRequests), Some(st.successfulRequests), Some(st.rateLimitedRequests),
               Some(st.serverErrors), Some(st.clientErrors), Some(st.adjustmentsMade),
               Some(st.lastAdjustmentReason))
  }

  /** Copying the saved keys that are present over the current statistics. */
  function RestoreStats(st: Stats, saved: Option<SavedStats>): (r: Stats)
    ensures saved.None? ==> r == st
    ensures saved.Some? && saved.value == SaveStats(st) ==> r == st
    ensures saved.Some? ==>
      var v := saved.value;
      && (v.totalRequests.Some? ==> r.totalRequests == v.totalRequests.value)
      && (v.totalRequests.None? ==> r.totalRequests == st.totalRequests)
      && (v.successfulRequests.Some? ==> r.successfulRequests == v.successfulRequests.value)
      && (v.successfulRequests.None? ==> r.successfulRequests == st.successfulRequests)
      && (v.rateLimitedRequests.Some? ==> r.rateLimitedRequests == v.rateLimitedRequests.value)
      && (v.rateLimitedRequests.None? ==> r.rateLimitedRequests == st.rateLimitedRequests)
      && (v.serverErrors.Some? ==> r.serverErrors == v.serverErrors.value)
      && (v.serverErrors.None? ==> r.serverErrors == st.serverErrors)
      && (v.clientErrors.Some? ==> r.clientErrors == v.clientErrors.value)
      && (v.clientErrors.None? ==> r.clientErrors == st.clientErrors)
      && (v.adjustmentsMade.Some? ==> r.adjustmentsMade == v.adjustmentsMade.value)
      && (v.adjustmentsMade.None? ==> r.adjustmentsMade == st.adjustmentsMade)
      && (v.lastAdjustmentReason.Some? ==> r.lastAdjustmentReason == v.lastAdjustmentReason.value)
      && (v.lastAdjustmentReason.None? ==> r.lastAdjustmentReason == st.lastAdjustmentReason)
  {
    match saved
    case None => st
    case Some(v) =>
      Stats(v.totalRequests.GetOr(st.totalRequests), v.successfulRequests.GetOr(st.successfulRequests),
            v.rateLimitedRequests.GetOr(st.rateLimitedRequests), v.serverErrors.GetOr(st.serverErrors),
            v.clientErrors.GetOr(st.clientErrors), v.adjustmentsMade.GetOr(st.adjustmentsMade),
            v.lastAdjustmentReason.GetOr(st.lastAdjustmentReason))
  }

  /** Limits a range can be clamped into: the minimum at most the maximum, delays not negative. */
  predicate SaneLimits(lim: Limits) {
    lim.minWorkers <= lim.maxWorkers && 0.0 <= lim.minDelay <= lim.maxDelay
  }

  /**
   * Settings after `from_checkpoint`: the saved values clamped into range,
   * then made more cautious when throttling is restored as active.
   */
  function RestoredSettings(cp: RateCheckpoint, current: Settings, throttling: bool, lim: Limits): (r: Settings)
    ensures SaneLimits(lim) && (cp.targetWorkers.Some? || InBounds(current, lim)) ==>
      lim.minWorkers <= r.workers <= lim.maxWorkers
    ensures SaneLimits(lim) && (cp.currentDelay.Some? || InBounds(current, lim)) ==>
      lim.minDelay <= r.delay <= lim.maxDelay
    ensures !throttling && cp.targetWorkers.Some? && lim.minWorkers <= cp.targetWorkers.value <= lim.maxWorkers ==>
      r.workers == cp.targetWorkers.value
    ensures !throttling && cp.currentDelay.Some? && lim.minDelay <= cp.currentDelay.value <= lim.maxDelay ==>
      r.delay == cp.currentDelay.value
  {
    var w := if cp.targetWorkers.Some? then MaxI(lim.minWorkers, MinI(lim.maxWorkers, cp.targetWorkers.value))
             else current.workers;
    var d := if cp.currentDelay.Some? then MaxR(lim.minDelay, MinR(lim.maxDelay, cp.currentDelay.value))
             else current.delay;
    if throttling then Settings(MaxI(lim.minWorkers, w - 1), MinR(lim.maxDelay, d * 1.2))
    else Settings(w, d)
  }


  // ---------------------------------------------------------------------------
  // The recovery state and its transitions

  /**
   * The fields of the controller that track the server's health:
   * `_throttling_active`, `_recovery_mode`, `_recovery_start_time`,
   * `_consecutive_successes`, `_consecutive_failures`,
   * `_rate_limit_detected_time` and `_recovery_level`.
   */
  datatype Health = Health(throttling: bool, inRecovery: bool, recoveryStart: Option<real>, successes: nat,
                           failures: nat, detected: Option<real>, level: int)

  /** Recovery always has a start time; the level is never negative. */
  predicate HealthValid(h: Health) {
    (h.inRecovery ==> h.recoveryStart.Some?) && h.level >= 0
  }

  /** The statistics update of `register_response`. */
  function CountResponse(st: Stats, resp: ResponseData): (r: Stats)
    ensures r.totalRequests == st.totalRequests + 1
    ensures r.adjustmentsMade == st.adjustmentsMade && r.lastAdjustmentReason == st.lastAdjustmentReason
    ensures r.rateLimitedRequests == st.rateLimitedRequests + (if IsRateLimitedResponse(resp) then 1 else 0)
    ensures r.successfulRequests == st.successfulRequests + (if resp.status == Success then 1 else 0)
    ensures r.clientErrors == st.clientErrors +
      (if resp.status == HttpError && !IsRateLimitedResponse(resp) && 400 <= resp.httpStatus < 500 then 1 else 0)
    ensures r.serverErrors == st.serverErrors +
      (if resp.status == HttpError && !IsRateLimitedResponse(resp) && 500 <= resp.httpStatus < 600 then 1 else 0)
  {
    var st := st.(totalRequests := st.totalRequests + 1);
    if resp.status == HttpError then
      if IsRateLimitedResponse(resp) then st.(rateLimitedRequests := st.rateLimitedRequests + 1)
      else if 400 <= resp.httpStatus < 500 then st.(clientErrors := st.clientErrors + 1)
      else if 500 <= resp.httpStatus < 600 then st.(serverErrors := st.serverErrors + 1)
      else st
    else if resp.status == Success then st.(successfulRequests := st.successfulRequests + 1)
    else st
  }

  /**
   * The health update of `register_response`; `serverErrors` is the server
   * error counter after this response was counted.
   */
  function HealthAfter(h: Health, resp: ResponseData, serverErrors: nat, now: real): (r: Health)
    requires HealthValid(h)
    ensures HealthValid(r)
    ensures h.level <= 3 ==> r.level <= 3
    ensures IsRateLimitedResponse(resp) ==>
      && r.inRecovery && r.throttling && r.successes == 0 && r.failures == h.failures + 1 && r.detected == Some(now)
      && r.level == (if h.inRecovery then MinI(3, h.level + 1) else 2)
    ensures resp.status == Success ==> r.failures == 0 && r.detected == h.detected
    ensures resp.status == Success && !(h.inRecovery && h.successes + 1 >= 20) ==>
      r == h.(successes := h.successes + 1, failures := 0)
    ensures resp.status == Success && h.inRecovery && h.successes + 1 >= 20 ==>
      && r.successes == 0 && r.level == MaxI(0, h.level - 1)
      && (r.inRecovery <==> r.level != 0) && (r.throttling <==> h.throttling && r.level != 0)
    ensures !IsRateLimitedResponse(resp) && resp.status != Success ==>
      if resp.status == HttpError && 500 <= resp.httpStatus < 600 && serverErrors > 5 && !h.inRecovery
      then r == h.(inRecovery := true, recoveryStart := Some(now), level := 1)
      else r == h
  {
    if resp.status == HttpError then
      if IsRateLimitedResponse(resp) then
        var h := h.(failures := h.failures + 1, successes := 0, throttling := true, detected := Some(now));
        if !h.inRecovery then h.(inRecovery := true, recoveryStart := Some(now), level := 2)
        else h.(level := MinI(3, h.level + 1))
      else if 400 <= resp.httpStatus < 500 then h
      else if 500 <= resp.httpStatus < 600 then
        if serverErrors > 5 && !h.inRecovery then h.(inRecovery := true, recoveryStart := Some(now), level := 1)
        else h
      else h
    else if resp.status == Success then
      var h := h.(successes := h.successes + 1, failures := 0);
      if h.inRecovery && h.successes >= 20 then
        var h := h.(level := MaxI(0, h.level - 1), successes := 0);
        if h.level == 0 then h.(inRecovery := false, throttling := false) else h
      else h
    else h
  }

  /** Twenty successes in a row lower the recovery level by one; from level 1 they end recovery and throttling. */
  lemma {:induction false} SuccessRunEndsLightRecovery(h: Health, resp: ResponseData, serverErrors: nat, now: real)
    requires HealthValid(h) && h.inRecovery && h.level == 1 && h.successes == 19 && resp.status == Success
    ensures var r := HealthAfter(h, resp, serverErrors, now); !r.inRecovery && !r.throttling && r.level == 0
  {
  }

  /** Two rate-limited responses in a row, outside recovery or from level 1 up, reach the severe level 3 from any lower level. */
  lemma {:induction false} RepeatedRateLimitingIsSevere(h: Health, resp: ResponseData, now: real)
    requires HealthValid(h) && h.level <= 3 && IsRateLimitedResponse(resp)
    requires !h.inRecovery || h.level >= 1
    ensures var r1 := HealthAfter(h, resp, 0, now);
      var r2 := HealthAfter(r1, resp, 0, now);
      r2.level == 3 && r2.inRecovery && r2.throttling
  {
    var r1 := HealthAfter(h, resp, 0, now);
    assert r1.inRecovery && r1.level >= 2;
  }

  /** The recovery change a decision of `adjust_rate_if_needed` makes. */
  function ApplyRecovery(h: Health, rc: RecoveryChange, now: real): (r: Health)
    requires HealthValid(h)
    ensures HealthValid(r)
    ensures r.successes == h.successes && r.failures == h.failures && r.detected == h.detected
    ensures rc == EnterLightRecovery ==> r.inRecovery && r.level == 1 && r.recoveryStart == Some(now)
    ensures rc == StepDownToLight ==> r.level == 1 && r.inRecovery == h.inRecovery
    ensures rc == LeaveRecovery ==> !r.inRecovery && !r.throttling && r.level == h.level
    ensures rc == KeepRecovery ==> r == h
  {
    match rc
    case KeepRecovery => h
    case EnterLightRecovery => h.(inRecovery := true, recoveryStart := Some(now), level := 1)
    case StepDownToLight => h.(level := 1)
    case LeaveRecovery => h.(inRecovery := false, throttling := false)
  }

  /** The health part of `force_worker_reduction`: recovery and throttling on, recovery restarted now. */
  function ForcedHealth(h: Health, now: real): (r: Health)
    requires HealthValid(h)
    ensures HealthValid(r) && r.inRecovery && r.throttling && r.recoveryStart == Some(now)
    ensures r.level == h.level && r.successes == h.successes && r.failures == h.failures
  {
    h.(inRecovery := true, throttling := true, recoveryStart := Some(now))
  }

  /**
   * The health after `from_checkpoint`: saved flags and level where present
   * (level 1 otherwise), recovery restarted now and both streaks reset.
   */
  function RestoredHealth(h: Health, cp: RateCheckpoint, now: real): (r: Health)
    requires HealthValid(h) && (cp.recoveryLevel.None? || cp.recoveryLevel.value >= 0)
    ensures HealthValid(r) && r.recoveryStart == Some(now) && r.successes == 0 && r.failures == 0
    ensures r.inRecovery == cp.inRecoveryMode.GetOr(h.inRecovery)
    ensures r.throttling == cp.throttlingActive.GetOr(h.throttling)
    ensures r.level == cp.recoveryLevel.GetOr(1) && r.detected == h.detected
  {
    Health(cp.throttlingActive.GetOr(h.throttling), cp.inRecoveryMode.GetOr(h.inRecovery), Some(now), 0, 0,
           h.detected, cp.recoveryLevel.GetOr(1))
  }

  // ---------------------------------------------------------------------------
  // The controller

  /**
   * `CrawlRateController`. The seven health attributes of the Python object
   * (`_throttling_active`, `_recovery_mode`, `_recovery_start_time`, the two
   * streak counters, `_rate_limit_detected_time` and `_recovery_level`) are
   * held together in `health`; every method that changes one of them sets the
   * record as a whole.
   */
  class CrawlRateController {
    var targetWorkers: int
    const maxWorkers: int
    const minWorkers: int
    var currentDelay: real
    const minDelay: real
    const maxDelay: real
    const responseWindowSize: nat
    const adjustmentInterval: real
    const aggressiveThrottling: bool
    var recentResponses: seq<Summary>
    var lastAdjustmentTime: real
    var lastRateLimitAction: Option<real>
    const rateLimitCooldown: real
    var stats: Stats
    var health: Health

    /**
     * The health record is consistent, a non-zero window size bounds the
     * window, and the cool-down is 300 s.
     */
    ghost predicate Valid()
      reads this
    {
      && HealthValid(health)
      && (responseWindowSize > 0 ==> |recentResponses| <= responseWindowSize)
      && rateLimitCooldown == 300.0
    }

    function Bounds(): Limits
      reads this
    {
      Limits(minWorkers, maxWorkers, minDelay, maxDelay)
    }

    function Current(): Settings
      reads this
    {
      Settings(targetWorkers, currentDelay)
    }

    predicate Bounded()
      reads this
    {
      InBounds(Current(), Bounds())
    }

    constructor (initialWorkers: int, maxWorkers: int, minWorkers: int, initialDelay: real, minDelay: real,
                 maxDelay: real, responseWindowSize: nat, adjustmentInterval: real, aggressiveThrottling: bool,
                 now: real)
      ensures Valid()
      ensures targetWorkers == initialWorkers && this.maxWorkers == maxWorkers && this.minWorkers == minWorkers
      ensures currentDelay == initialDelay && this.minDelay == minDelay && this.maxDelay == maxDelay
      ensures this.responseWindowSize == responseWindowSize && this.adjustmentInterval == adjustmentInterval
      ensures this.aggressiveThrottling == aggressiveThrottling
      ensures recentResponses == [] && lastAdjustmentTime == now && lastRateLimitAction == None
      ensures stats == InitialStats
      ensures health == Health(false, false, None, 0, 0, None, 0)
    {
      targetWorkers := initialWorkers;
      this.maxWorkers := maxWorkers;
      this.minWorkers := minWorkers;
      currentDelay := initialDelay;
      this.minDelay := minDelay;
      this.maxDelay := maxDelay;
      this.responseWindowSize := responseWindowSize;
      this.adjustmentInterval := adjustmentInterval;
      this.aggressiveThrottling := aggressiveThrottling;
      recentResponses := [];
      lastAdjustmentTime := now;
      lastRateLimitAction := None;
      rateLimitCooldown := 300.0;
      stats := InitialStats;
      health := Health(false, false, None, 0, 0, None, 0);
    }

    /** The cool-down test shared by `should_adjust_now` and `adjust_rate_if_needed`. */
    predicate InCooldown(now: real)
      reads this
    {
      lastRateLimitAction.Some? && rateLimitCooldown - (now - lastRateLimitAction.value) > 0.0
    }

    function RecoveryElapsed(now: real): real
      reads this
    {
      if health.recoveryStart.Some? then now - health.recoveryStart.value else 0.0
    }

    /** `should_adjust_now`. */
    predicate ShouldAdjustNow(now: real)
      requires Valid()
      reads this
      ensures ShouldAdjustNow(now) ==> !InCooldown(now)
      ensures ShouldAdjustNow(now) && !health.inRecovery && !(health.throttling && stats.rateLimitedRequests > 0) ==>
        now - lastAdjustmentTime >= adjustmentInterval && |recentResponses| >= MinI(5, responseWindowSize)
      ensures ShouldAdjustNow(now) && health.inRecovery && !(health.throttling && stats.rateLimitedRequests > 0) ==>
        now - lastAdjustmentTime >= 5.0
    {
      if InCooldown(now) then false
      else if health.throttling && stats.rateLimitedRequests > 0 && health.detected.Some?
              && health.detected.value != 0.0 && now - health.detected.value < 10.0 then true
      else if health.inRecovery then
        now - lastAdjustmentTime >= MaxR(5.0, adjustmentInterval / (health.level + 1) as real)
      else
        now - lastAdjustmentTime >= adjustmentInterval && |recentResponses| >= MinI(5, responseWindowSize)
    }

    /** `register_response`. */
    method RegisterResponse(resp: ResponseData, now: real) returns (registered: bool)
      requires Valid()
      modifies this
      ensures Valid() && registered
      ensures stats == CountResponse(old(stats), resp)
      ensures health == HealthAfter(old(health), resp, stats.serverErrors, now)
      ensures recentResponses == WindowAppend(old(recentResponses), Summarize(resp), responseWindowSize)
      ensures Current() == old(Current())
      ensures lastAdjustmentTime == old(lastAdjustmentTime) && lastRateLimitAction == old(lastRateLimitAction)
    {
      var st := CountResponse(stats, resp);
      var h := HealthAfter(health, resp, st.serverErrors, now);
      var w := WindowAppend(recentResponses, Summarize(resp), responseWindowSize);
      Record(st, h, w);
      registered := true;
    }

    /** Stores the counters, the health state and the window that `register_response` computed. */
    method Record(st: Stats, h: Health, w: seq<Summary>)
      requires Valid() && HealthValid(h) && (responseWindowSize > 0 ==> |w| <= responseWindowSize)
      modifies this
      ensures Valid() && stats == st && health == h && recentResponses == w
      ensures Current() == old(Current())
      ensures lastAdjustmentTime == old(lastAdjustmentTime) && lastRateLimitAction == old(lastRateLimitAction)
    {
      stats, health, recentResponses := st, h, w;
    }

    /** `force_worker_reduction`. */
    method ForceWorkerReduction(reason: Reason, now: real) returns (workers: int, delay: real, why: Reason)
      requires Valid()
      modifies this
      ensures Valid()
      ensures Current() == ForcedSettings(old(health.level), old(Current()), Bounds())
      ensures old(Bounded()) ==> Bounded()
      ensures workers == targetWorkers && delay == currentDelay && why == reason
      ensures health == ForcedHealth(old(health), now)
      ensures lastRateLimitAction == Some(now) && lastAdjustmentTime == now
      ensures stats == old(stats).(adjustmentsMade := old(stats.adjustmentsMade) + 1, lastAdjustmentReason := reason)
      ensures recentResponses == WithoutRateLimited(old(recentResponses))
    {
      var s := ForcedSettings(health.level, Current(), Bounds());
      targetWorkers, currentDelay := s.workers, s.delay;
      health := ForcedHealth(health, now);
      lastRateLimitAction := Some(now);
      lastAdjustmentTime := now;
      stats := stats.(adjustmentsMade := stats.adjustmentsMade + 1, lastAdjustmentReason := reason);
      recentResponses := WithoutRateLimited(recentResponses);
      workers, delay, why := targetWorkers, currentDelay, reason;
    }

    /** `adjust_rate_if_needed`. */
    method AdjustRateIfNeeded(force: bool, now: real) returns (changed: bool, workers: int, delay: real, reason: Reason)
      requires Valid()
      modifies this
      ensures Valid()
      ensures old(Bounded()) ==> Bounded()
      ensures workers == targetWorkers && delay == currentDelay
      ensures !force && old(InCooldown(now)) ==> !changed && reason == CooldownActive && unchanged(this)
      ensures !force && !old(InCooldown(now)) && !old(ShouldAdjustNow(now)) ==>
        !changed && reason == NoAdjustmentNeeded && unchanged(this)
      ensures (force || old(ShouldAdjustNow(now))) && old(recentResponses) == [] ==>
        !changed && reason == NoResponses && unchanged(this)
      ensures (force || old(ShouldAdjustNow(now))) && old(recentResponses) != [] ==>
        DecisionApplied(Decide(CountWindow(old(recentResponses)), old(health.inRecovery), old(health.level),
                               old(health.successes), old(RecoveryElapsed(now)), old(Current()), Bounds()),
                        now, changed, reason)
    {
      if !force && InCooldown(now) {
        return false, targetWorkers, currentDelay, CooldownActive;
      }
      if !force && !ShouldAdjustNow(now) {
        return false, targetWorkers, currentDelay, NoAdjustmentNeeded;
      }
      if recentResponses == [] {
        return false, targetWorkers, currentDelay, NoResponses;
      }
      changed, workers, delay, reason := AdjustDecided(now);
    }

    /**
     * What a decision does to the controller: a reduction forced by rate
     * limiting, nothing, or new settings with the recovery change and one
     * more adjustment counted.
     */
    twostate predicate DecisionApplied(d: Decision, now: real, changed: bool, reason: Reason)
      requires old(HealthValid(health))
      reads this
    {
      match d
      case Reduce =>
        && changed && reason == RateLimitingDetected
        && Current() == ForcedSettings(old(health.level), old(Current()), Bounds())
        && health == ForcedHealth(old(health), now)
        && lastRateLimitAction == Some(now) && lastAdjustmentTime == now
        && recentResponses == WithoutRateLimited(old(recentResponses))
        && stats == old(stats).(adjustmentsMade := old(stats.adjustmentsMade) + 1,
                                lastAdjustmentReason := RateLimitingDetected)
      case Hold(why) =>
        !changed && reason == why && unchanged(this)
      case Apply(s, rc, why) =>
        && reason == why && Current() == s
        && changed == (s.workers != old(targetWorkers) || AbsR(old(currentDelay) - s.delay) > 0.1)
        && health == ApplyRecovery(old(health), rc, now)
        && lastAdjustmentTime == now && recentResponses == old(recentResponses)
        && lastRateLimitAction == old(lastRateLimitAction)
        && stats == old(stats).(adjustmentsMade := old(stats.adjustmentsMade) + 1, lastAdjustmentReason := why)
    }

    /** The part of `adjust_rate_if_needed` past the cooldown, interval and empty-window checks. */
    method AdjustDecided(now: real) returns (changed: bool, workers: int, delay: real, reason: Reason)
      requires Valid() && recentResponses != []
      modifies this
      ensures Valid()
      ensures old(Bounded()) ==> Bounded()
      ensures workers == targetWorkers && delay == currentDelay
      ensures DecisionApplied(Decide(CountWindow(old(recentResponses)), old(health.inRecovery), old(health.level),
                                     old(health.successes), old(RecoveryElapsed(now)), old(Current()), Bounds()),
                              now, changed, reason)
    {
      var decision := Decide(CountWindow(recentResponses), health.inRecovery, health.level, health.successes,
                             RecoveryElapsed(now), Current(), Bounds());
      match decision {
        case Reduce =>
          changed, workers, delay, reason := ReduceForRateLimiting(now);
        case Hold(why) =>
          return false, targetWorkers, currentDelay, why;
        case Apply(s, rc, why) =>
          changed := ApplyDecision(s, rc, why, now);
          workers, delay, reason := s.workers, s.delay, why;
      }
    }

    /** The rate-limited branch of `adjust_rate_if_needed`: `force_worker_reduction`, and the window filtered once more. */
    method ReduceForRateLimiting(now: real) returns (changed: bool, workers: int, delay: real, reason: Reason)
      requires Valid()
      modifies this
      ensures Valid()
      ensures old(Bounded()) ==> Bounded()
      ensures workers == targetWorkers && delay == currentDelay
      ensures DecisionApplied(Reduce, now, changed, reason)
    {
      workers, delay, reason := ForceWorkerReduction(RateLimitingDetected, now);
      WithoutRateLimitedIdempotent(old(recentResponses));
      recentResponses := WithoutRateLimited(recentResponses);
      changed := true;
    }

    /** The tail of `adjust_rate_if_needed` once new settings are chosen: store them, count the adjustment, report a change. */
    method ApplyDecision(s: Settings, rc: RecoveryChange, why: Reason, now: real) returns (changed: bool)
      requires Valid()
      modifies this
      ensures Valid()
      ensures Current() == s
      ensures changed == (s.workers != old(targetWorkers) || AbsR(old(currentDelay) - s.delay) > 0.1)
      ensures health == ApplyRecovery(old(health), rc, now)
      ensures lastAdjustmentTime == now && recentResponses == old(recentResponses)
      ensures lastRateLimitAction == old(lastRateLimitAction)
      ensures stats == old(stats).(adjustmentsMade := old(stats.adjustmentsMade) + 1, lastAdjustmentReason := why)
    {
      var h := ApplyRecovery(health, rc, now);
      var st := stats.(adjustmentsMade := stats.adjustmentsMade + 1, lastAdjustmentReason := why);
      changed := targetWorkers != s.workers || AbsR(currentDelay - s.delay) > 0.1;
      targetWorkers, currentDelay, health, lastAdjustmentTime, stats := s.workers, s.delay, h, now, st;
    }

    /** `get_current_settings`. */
    method GetCurrentSettings() returns (workers: int, delay: real, inRecovery: bool, level: int, throttling: bool)
      ensures workers == targetWorkers && delay == currentDelay && inRecovery == health.inRecovery
      ensures level == health.level && throttling == health.throttling
    {
      workers, delay := targetWorkers, currentDelay;
      inRecovery, level, throttling := health.inRecovery, health.level, health.throttling;
    }

    /** `to_checkpoint`. */
    function ToCheckpoint(): (cp: RateCheckpoint)
      reads this
      ensures cp.targetWorkers == Some(targetWorkers) && cp.currentDelay == Some(currentDelay)
      ensures cp.inRecoveryMode == Some(health.inRecovery) && cp.throttlingActive == Some(health.throttling)
      ensures cp.recoveryLevel == Some(health.level) && cp.stats == Some(SaveStats(stats))
      ensures cp.lastAdjustmentTime == Some(lastAdjustmentTime)
      ensures cp.lastAdjustmentReason == Some(stats.lastAdjustmentReason)
    {
      RateCheckpoint(Some(targetWorkers), Some(currentDelay), Some(lastAdjustmentTime),
                     Some(stats.lastAdjustmentReason), Some(health.inRecovery), Some(health.throttling),
                     Some(health.level), Some(SaveStats(stats)))
    }

    /**
     * `from_checkpoint`. A saved recovery level must not be negative (a value
     * `to_checkpoint` never writes); the method always succeeds.
     */
    method FromCheckpoint(cp: RateCheckpoint, now: real) returns (restored: bool)
      requires Valid()
      requires cp.recoveryLevel.None? || cp.recoveryLevel.value >= 0
      modifies this
      ensures Valid() && restored
      ensures health == RestoredHealth(old(health), cp, now)
      ensures Current() == RestoredSettings(cp, old(Current()), health.throttling, Bounds())
      ensures lastRateLimitAction == None
      ensures stats == RestoreStats(old(stats), cp.stats)
      ensures recentResponses == old(recentResponses) && lastAdjustmentTime == old(lastAdjustmentTime)
    {
      health := RestoredHealth(health, cp, now);
      var s := RestoredSettings(cp, Current(), health.throttling, Bounds());
      targetWorkers, currentDelay := s.workers, s.delay;
      lastRateLimitAction := None;
      stats := RestoreStats(stats, cp.stats);
      restored := true;
    }
  }

  /**
   * The checkpoint round trip: restoring what `to_checkpoint` saved, with
   * throttling inactive and the settings in range, gives back the settings, the
   * recovery mode and level and the statistics.
   */
  lemma CheckpointRoundTrip(s: Settings, mode: bool, level: int, st: Stats, lastAdj: real,
                            current: Settings, h: Health, now: real, lim: Limits)
    requires InBounds(s, lim) && HealthValid(h) && level >= 0
    ensures var cp := RateCheckpoint(Some(s.workers), Some(s.delay), Some(lastAdj), Some(st.lastAdjustmentReason),
                                     Some(mode), Some(false), Some(level), Some(SaveStats(st)));
      && RestoredSettings(cp, current, false, lim) == s
      && RestoredHealth(h, cp, now).inRecovery == mode && RestoredHealth(h, cp, now).level == level
      && !RestoredHealth(h, cp, now).throttling
      && RestoreStats(InitialStats, cp.stats) == st
  {
  }
}
