/**
 * Response classification (spider/utils/http.py): what the crawler does with
 * an HTTP status code, over the status classes of section 15 of RFC 9110
 * (429 is section 4 of RFC 6585), and the rate-limit detector over a status,
 * the response headers and the body.
 */
module Http {
  import opened Wrappers
  import opened Strings

  /** The `action` strings of the handling dictionary. */
  datatype Action = Process | Retry | RetryOnce | ThrottleAndRetry | Skip

  /** The handling dictionary without its human-readable `reason`. */
  datatype Handling = Handling(success: bool, action: Action, retryAfter: Option<int>, rateLimited: bool)

  predicate IsRetryAction(a: Action) {
    a == Retry || a == RetryOnce || a == ThrottleAndRetry
  }

  const ProcessHandling := Handling(true, Process, None, false)

  function Throttle(after: int): Handling {
    Handling(false, ThrottleAndRetry, Some(after), true)
  }

  function SkipHandling(): Handling {
    Handling(false, Skip, None, false)
  }

  /**
   * `handle_response_code`. `None` stands for both a missing and a non-integer
   * status; both are taken as success.
   */
  function HandleResponseCode(code: Option<int>): (r: Handling)
    ensures r.success <==> r.action == Process
    ensures r.rateLimited <==> r.action == ThrottleAndRetry
    ensures r.retryAfter.None? <==> (r.action == Process || r.action == Skip)
    ensures r.action == Process <==> (code.None? || 200 <= code.value < 400)
    ensures r.retryAfter.Some? ==> r.retryAfter.value > 0
  {
    match code
    case None => ProcessHandling
    case Some(c) =>
      if 200 <= c < 300 then ProcessHandling
      else if 300 <= c < 400 then ProcessHandling
      else if 400 <= c < 500 then
        if c == 429 then Throttle(60)
        else if c == 403 then Throttle(30)
        else if c == 430 then Throttle(60)
        else if c == 420 then Throttle(60)
        else if c == 401 then SkipHandling()
        else if c == 404 then SkipHandling()
        else if c in [418, 423, 425, 429, 430, 439, 440, 449] then Throttle(45)
        else Handling(false, RetryOnce, Some(10), false)
      else if 500 <= c < 600 then
        if c == 503 then Throttle(45)
        else Handling(false, Retry, Some(30), false)
      else SkipHandling()
  }

  /** The explicit rate-limit codes and their suggested waits. */
  lemma ThrottleCodes()
    ensures HandleResponseCode(Some(429)) == Throttle(60)
    ensures HandleResponseCode(Some(403)) == Throttle(30)
    ensures HandleResponseCode(Some(430)) == Throttle(60)
    ensures HandleResponseCode(Some(420)) == Throttle(60)
    ensures HandleResponseCode(Some(503)) == Throttle(45)
  {
  }

  /** The remaining client errors: 401 and 404 are skipped, a short list is throttled, the rest retried once. */
  lemma ClientErrorCodes(c: int)
    requires 400 <= c < 500 && c !in {429, 403, 430, 420}
    ensures c == 401 || c == 404 ==> HandleResponseCode(Some(c)) == SkipHandling()
    ensures c in {418, 423, 425, 439, 440, 449} ==> HandleResponseCode(Some(c)) == Throttle(45)
    ensures c !in {401, 404, 418, 423, 425, 439, 440, 449} ==>
      HandleResponseCode(Some(c)) == Handling(false, RetryOnce, Some(10), false)
  {
  }

  /** Server errors other than 503 are retried after 30 s; codes outside 200..599 are skipped. */
  lemma ServerAndUnknownCodes(c: int)
    ensures 500 <= c < 600 && c != 503 ==> HandleResponseCode(Some(c)) == Handling(false, Retry, Some(30), false)
    ensures (c < 200 || c >= 600) ==> HandleResponseCode(Some(c)) == SkipHandling()
  {
  }

  // ---------------------------------------------------------------------------
  // is_rate_limited

  /** Response headers in dictionary order; keys are distinct. */
  type Headers = seq<(string, string)>

  const RateLimitHeaders: seq<string> := [
    "x-rate-limit-remaining", "x-rate-limit-reset", "retry-after",
    "x-ratelimit-remaining", "ratelimit-remaining", "x-rate-limit-limit"
  ]

  const RateLimitPhrases: seq<string> := [
    "rate limit", "rate limited", "too many requests", "throttled",
    "quota exceeded", "usage limit", "limit exceeded", "too frequent"
  ]

  /** The value of the first header whose lower-cased name is `name`. */
  function FirstValue(headers: Headers, name: string): (r: Option<string>)
    ensures r.None? <==> forall i :: 0 <= i < |headers| ==> Lower(headers[i].0) != name
    ensures r.Some? ==> exists i :: 0 <= i < |headers| && Lower(headers[i].0) == name && headers[i].1 == r.value
                                    && forall j :: 0 <= j < i ==> Lower(headers[j].0) != name
  {
    if headers == [] then None
    else if Lower(headers[0].0) == name then Some(headers[0].1)
    else
      FirstValue(headers[1..], name)
  }

  predicate LowValue(v: string) {
    Strip(v) in ["0", "1", "2"]
  }

  /** The header rule for one listed header name. */
  predicate HeaderSignals(headers: Headers, name: string) {
    EndsWith(name, "remaining") && FirstValue(headers, name).Some? && LowValue(FirstValue(headers, name).value)
  }

  function AnyHeaderSignals(headers: Headers, names: seq<string>): (b: bool)
    ensures b <==> exists j :: 0 <= j < |names| && HeaderSignals(headers, names[j])
  {
    if names == [] then false
    else HeaderSignals(headers, names[0]) || AnyHeaderSignals(headers, names[1..])
  }

  function AnyPhrase(body: string, phrases: seq<string>): (b: bool)
    ensures b <==> exists j :: 0 <= j < |phrases| && Contains(body, phrases[j])
  {
    if phrases == [] then false
    else Contains(body, phrases[0]) || AnyPhrase(body, phrases[1..])
  }

  function AnyKeyContains(headers: Headers, sub: string): (b: bool)
    ensures b <==> exists i :: 0 <= i < |headers| && Contains(Lower(headers[i].0), sub)
  {
    if headers == [] then false
    else Contains(Lower(headers[0].0), sub) || AnyKeyContains(headers[1..], sub)
  }

  /**
   * `is_rate_limited`. `headers == []` stands for both a missing and an empty
   * dictionary, `body == None` for a missing or non-string body.
   */
  function IsRateLimited(code: Option<int>, headers: Headers, body: Option<string>): (b: bool)
    ensures code.Some? && code.value in {429, 420, 430} ==> b
    ensures headers == [] && (body.None? || body.value == []) ==> (b <==> code.Some? && code.value in {429, 420, 430})
  {
    if code.Some? && code.value in [429, 420, 430] then true
    else if headers != [] && AnyHeaderSignals(headers, RateLimitHeaders) then true
    else if body.Some? && body.value != [] && AnyPhrase(Lower(body.value), RateLimitPhrases) then true
    else if code == Some(403) && headers != [] && AnyKeyContains(headers, "limit") then true
    else false
  }

  /** 429, 420 and 430 are rate limiting whatever the headers and the body say. */
  lemma ExplicitCodesAreRateLimited(c: int, headers: Headers, body: Option<string>)
    requires c in {429, 420, 430}
    ensures IsRateLimited(Some(c), headers, body)
  {
  }

  /** The full decision, each rule stated on its own. */
  lemma {:induction false} IsRateLimitedCharacterised(code: Option<int>, headers: Headers, body: Option<string>)
    ensures IsRateLimited(code, headers, body) <==>
      || (code.Some? && code.value in {429, 420, 430})
      || (exists j :: 0 <= j < |RateLimitHeaders| && HeaderSignals(headers, RateLimitHeaders[j]))
      || (body.Some? && exists j :: 0 <= j < |RateLimitPhrases| && Contains(Lower(body.value), RateLimitPhrases[j]))
      || (code == Some(403) && exists i :: 0 <= i < |headers| && Contains(Lower(headers[i].0), "limit"))
  {
    if headers == [] {
      assert !AnyHeaderSignals(headers, RateLimitHeaders);
    }
    if body.Some? && body.value == [] {
      forall j | 0 <= j < |RateLimitPhrases| ensures !Contains(Lower(body.value), RateLimitPhrases[j]) {
        assert |RateLimitPhrases[j]| > 0;
        NothingInEmpty(RateLimitPhrases[j]);
      }
    }
  }

  lemma NothingInEmpty(sub: string)
    requires sub != []
    ensures !Contains([], sub)
  {
  }

  /** Only the three `...remaining` headers can fire the header rule. */
  lemma OnlyRemainingHeadersSignal(headers: Headers)
    ensures AnyHeaderSignals(headers, RateLimitHeaders) <==>
      || HeaderSignals(headers, "x-rate-limit-remaining")
      || HeaderSignals(headers, "x-ratelimit-remaining")
      || HeaderSignals(headers, "ratelimit-remaining")
  {
    var names := RateLimitHeaders;
    assert !HeaderSignals(headers, "x-rate-limit-reset") by {
      assert "x-rate-limit-reset"[9..] != "remaining";
    }
    assert !HeaderSignals(headers, "retry-after") by {
      assert "retry-after"[2..] != "remaining";
    }
    assert !HeaderSignals(headers, "x-rate-limit-limit") by {
      assert "x-rate-limit-limit"[9..] != "remaining";
    }
    assert AnyHeaderSignals(headers, names[5..]) == false;
    assert AnyHeaderSignals(headers, names[4..]) == HeaderSignals(headers, "ratelimit-remaining");
    assert AnyHeaderSignals(headers, names[3..]) ==
      (HeaderSignals(headers, "x-ratelimit-remaining") || HeaderSignals(headers, "ratelimit-remaining"));
    assert AnyHeaderSignals(headers, names[2..]) == AnyHeaderSignals(headers, names[3..]);
    assert AnyHeaderSignals(headers, names[1..]) == AnyHeaderSignals(headers, names[2..]);
  }

  /**
   * A `Retry-After` or reset header never triggers detection by itself: with an
   * ordinary status and no body, headers made only of those names give false.
   */
  lemma {:induction false} RetryAfterAloneNeverTriggers(c: int, headers: Headers)
    requires c !in {429, 420, 430, 403}
    requires forall i :: 0 <= i < |headers| ==> Lower(headers[i].0) in {"retry-after", "x-rate-limit-reset"}
    ensures !IsRateLimited(Some(c), headers, None)
  {
    OnlyRemainingHeadersSignal(headers);
    assert FirstValue(headers, "x-rate-limit-remaining").None?;
    assert FirstValue(headers, "x-ratelimit-remaining").None?;
    assert FirstValue(headers, "ratelimit-remaining").None?;
  }
}
