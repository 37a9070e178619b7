# spider-crawler core, modelled in Dafny

This project models the core of spider-crawler. spider-crawler is a Python web crawler. It drives headless browsers across one site, searches each page for keywords and can save pages as markdown. The model covers the parts that make decisions:

- **HTTP status handling.** What to do with each status code, and the rate-limit heuristic (`Http`, `http.dfy`).
- **URL handling.** URL normalisation, the webpage-extension test, and the link filter applied to a page's anchors (`Url`, `url.dfy`; string helpers in `Strings`, `strings.dfy`).
- **Rate controller.** The adaptive controller: its response window, health state, the recovery ladder and the normal-mode table, forced reductions and checkpoint round trips (`RateController`, `ratecontroller.dfy`).
- **Checkpoints.** The checkpoint manager's save gate, its timestamped file format and the pages threshold (`Checkpoint`, `checkpoint.dfy`).
- **The spider.** It fills the task queue, handles each kind of worker result, runs the retry and scheduled-retry queues, and saves and resumes checkpoints (`Crawler`, `crawler.dfy`). The `to_visit`/`pending_urls` entry shapes are in `Frontier`, `frontier.dfy`.
- **Worker pool.** Its process table, start/stop, and adjusting to a target count (`WorkerPool`, `workerpool.dfy`).
- **Worker.** The worker process's task loop and the URL processing routine (`Worker`, `worker.dfy`).
- **Browser pool.** Instance bookkeeping, release, growth, and one monitor pass with its crash removal and idle recycling (`BrowserPool`, `browserpool.dfy`).
- **Configuration.** Validation in `__post_init__`, the dictionary encoding and decoding, and loading (`Config`, `config.dfy`).
- **Content.** The content filter's selectors and description (`Filter`, `filter.dfy`), page categorisation (`Parser`, `parser.dfy`), keyword context extraction and search (`Extractor`, `extractor.dfy`), and markdown file naming (`Markdown`, `markdown.dfy`).

`Wrappers` (`wrappers.dfy`) holds the `Option` and `Result` types.

**Functions and classes.**

- Pure code is modelled as functions.
- Objects that the Python code updates in place are classes with `modifies`/`reads` frames. These are `CrawlRateController`, `CheckpointManager`, `Spider`, the worker pool, the worker loop, and the browser pool with its instances.
- Their methods are proved against specification functions of the old state. Examples: `CountResponse`, `HealthAfter` and `Decide` for the controller, `Refill` and `DueRetries` for the spider, `LaunchN` and `StopExcess` for the worker pool, and `WithoutIds` and `QueueWithoutAll` for the browser pool.

**Side effects become parameters.** The model does not perform I/O, read the time or call the browser:

- Every `time.time()` is a `now: real` parameter.
- A browser driver's success is a boolean `driverOk`.
- The sentence splitter, regex search and `urlparse` are function parameters (`split`, `find`, `mentions`, `parse`).
- `hashlib.md5` is a parameter `md5` that returns 32 hex digits.
- A loaded JSON document is a `Json` value.

**Source references.** The table cites lines of the Python sources, relative to the repository root. `spider/utils/url.py` defines `normalize_url` twice, at lines 21 and 1056. The two bodies are identical, and the second is the one bound at import time.

## Model

| member | source | states |
|---|---|---|
| Http.HandleResponseCode | spider/utils/http.py:10-159 | success exactly when the action is to process; rate limited exactly when the action is throttle-and-retry; a retry delay is given exactly for the retrying actions and is positive; processing happens exactly for a missing or non-integer code or 200..399 |
| Http.ThrottleCodes | spider/utils/http.py:58-141 | 429, 430 and 420 throttle for 60 s, 403 for 30 s, 503 for 45 s, all flagged as rate limiting |
| Http.ClientErrorCodes | spider/utils/http.py:94-130 | among the remaining 4xx codes, 401 and 404 are skipped, 418/423/425/439/440/449 throttle for 45 s, every other 4xx is retried once after 10 s |
| Http.ServerAndUnknownCodes | spider/utils/http.py:131-159 | 5xx other than 503 are retried after 30 s; codes below 200 or from 600 up are skipped |
| Http.FirstValue | spider/utils/http.py:189-195 | absent exactly when no header name lower-cases to the name; otherwise the value of the first header whose lower-cased name is the name |
| Http.AnyHeaderSignals | spider/utils/http.py:179-203 | true exactly when one of the listed headers passes the "remaining is 0, 1 or 2" rule |
| Http.AnyPhrase | spider/utils/http.py:205-220 | true exactly when the body contains one of the phrases |
| Http.AnyKeyContains | spider/utils/http.py:222-226 | true exactly when some header name, lower-cased, contains the text |
| Http.ExplicitCodesAreRateLimited | spider/utils/http.py:175-176 | 429, 420 and 430 are rate limiting whatever the headers and the body |
| Http.IsRateLimited | spider/utils/http.py:162-228 | 429, 420 and 430 are always rate limiting; with no headers and an empty or missing body no other code is |
| Http.IsRateLimitedCharacterised | spider/utils/http.py:162-228 | `is_rate_limited` holds exactly when one of its four rules fires: an explicit code, a low "remaining" header, a rate-limit phrase in the lower-cased body, or a 403 with a header name containing "limit" |
| Http.NothingInEmpty | spider/utils/http.py:206 | an empty body contains no phrase, so the body rule never fires on it |
| Http.OnlyRemainingHeadersSignal | spider/utils/http.py:180-201 | of the listed headers only the three ending in "remaining" can signal; "retry-after" and the reset headers never do |
| Http.RetryAfterAloneNeverTriggers | spider/utils/http.py:162-228 | a response with an ordinary code, no body and only Retry-After/reset headers is never taken as rate limiting |
| Url.NormalizePath | spider/utils/url.py:39-46 | never empty and starts with "/"; "" and "/" become "/"; a relative path gets a leading "/"; exactly one trailing "/" is dropped from any other path ending in "/"; nothing else changes |
| Url.NormalizeUrl | spider/utils/url.py:21-55 | the result starts with `scheme://netloc` followed by the normalised path, whose first character is "/" |
| Url.NormalizeUrlOptionalParts | spider/utils/url.py:21-55 | `;params` never matter; the whole result in each case: `scheme://netloc` + normalised path, then "?" + query when the query is kept and non-empty, then "#" + fragment when the fragment is kept and non-empty |
| Url.NormalizePathIdempotent | spider/utils/url.py:39-46 | normalising a normalised path changes nothing, for every path not ending in "//" |
| Url.SlashPrefixKeepsEnd | spider/utils/url.py:41 | prefixing "/" to a relative path never creates a trailing "//" |
| Url.DropTrailingSlash | spider/utils/url.py:42 | dropping the one trailing slash of a path not ending in "//" leaves a path that starts with "/" and has no trailing slash |
| Url.NormalizePathNotIdempotent | spider/utils/url.py:39-46 | the exception: "/a//" normalises to "/a/" and then to "/a" |
| Url.LastIndex | spider/utils/url.py:105 | the last position of the character, or -1 when it does not occur |
| Url.Extension | spider/utils/url.py:105-106 | `os.path.splitext`'s extension: empty exactly when no "." of the last path segment follows a non-dot character of that segment; otherwise the suffix from the last "." of the last segment, which has a non-dot character before it in the segment |
| Url.IsWebpageUrl | spider/utils/url.py:58-187 | empty, root and slash-terminated paths and URLs with a query or fragment are webpages; otherwise a URL is refused exactly when its lower-cased extension is excluded and neither a webpage extension nor an allowed one |
| Url.AllowedExtensionsMonotone | spider/utils/url.py:83-84 | allowing more extensions never turns a webpage into a non-webpage |
| Url.CleanHref | spider/utils/url.py:226-234 | dropped exactly when the href is empty or starts with `javascript:` or "#"; a kept link is a prefix of the href without "#" or "?"; the part cut off starts with "#", "?" or a "/" that ends the href or comes just before "#" or "?"; a link not cut at a "/" does not end in "/" |
| Url.DomainMatch | spider/utils/url.py:245-258 | with subdomains allowed, a link matches exactly when its host without "www." is the base domain or ends in "." plus it; without, exactly when its host equals the current page's host, ignoring "www." |
| Url.SubdomainMatches | spider/utils/url.py:249-253 | with subdomains allowed, any host ending in "." plus the base domain matches |
| Url.PageLinks | spider/utils/url.py:190-269 | the link set is no larger than the anchor list |
| Url.Pick | spider/utils/url.py:226-265 | one anchor gives a link exactly when its cleaned href is that link and the link passes the webpage, domain and path-prefix tests |
| Url.CollectMembers | spider/utils/url.py:223-265 | the anchor loop collects a link exactly when some anchor gives it |
| Url.PageLinksStep | spider/utils/url.py:223-265 | one more anchor adds exactly the link it yields, if any |
| Url.PageLinksMembers | spider/utils/url.py:190-269 | a URL is collected exactly when some anchor's cleaned href is that URL and passes the webpage, domain and path-prefix tests |
| Url.PageLinksClean | spider/utils/url.py:226-265 | every collected link has no "#" or "?", is a webpage URL and lies under the path prefix when one is set |
| Markdown.WithUrlHeader | spider/content/markdown.py:39-43 | with a URL the text is "# Page from: " + url + two newlines + the converted text; without one the converted text alone |
| Markdown.Sanitize | spider/content/markdown.py:79 | same length; letters, digits, "_" and "-" kept, every other character replaced by "_" |
| Markdown.LongName | spider/content/markdown.py:78-86 | the path without trailing slashes sanitised character by character, then "__" and the sanitised query when there is one, then ".md"; nothing but safe characters before ".md" |
| Markdown.FileName | spider/content/markdown.py:73-92 | "index.md" for an empty or root path; the long name when at most 250 characters; otherwise 240 characters, 10 hex digits and ".md"; at most 253 characters, always ending in ".md" |
| Markdown.TrailingSlashesIgnored | spider/content/markdown.py:78 | a trailing slash does not change the file name of a non-root path |
| Markdown.OnlySlashesGiveHiddenName | spider/content/markdown.py:74-86 | the path "//" is not the root and yields the hidden name ".md" |
| Markdown.PathJoin | spider/content/markdown.py:95 | `os.path.join`: an absolute second part replaces the first; the result ends with the second part |
| Markdown.FilePath | spider/content/markdown.py:59-95 | the file path ends with the file name |
| Markdown.JoinLayout | spider/content/markdown.py:95 | joining a directory, a segment without "/" and a relative name puts exactly one "/" between the parts |
| Markdown.FileNameRelative | spider/content/markdown.py:73-92 | the file name is never empty and never absolute |
| Markdown.FilePathLayout | spider/content/markdown.py:59-95 | the saved file is `<domain>_files/<category>/<file name>` |
| Filter.GroupSelectors | spider/content/filter.py:47-69 | eleven menu selectors, five for each other group |
| Filter.NewFilter | spider/content/filter.py:19-35 | a group is included exactly when its flag is set; no custom selectors becomes the empty list |
| Filter.DefaultFilter | spider/content/filter.py:19-20 | by default only headers are included and there are no custom selectors |
| Filter.Piece | spider/content/filter.py:47-69 | a group contributes no selectors exactly when it is included |
| Filter.ExcludedSelectors | spider/content/filter.py:37-74 | the list's length is the sum of the excluded groups' selectors plus the custom ones, and the custom selectors come last |
| Filter.ExcludedGroupPlacement | spider/content/filter.py:44-74 | each excluded group's selectors appear contiguously, in the fixed order menus, headers, footers, sidebars |
| Filter.ExcludedMembers | spider/content/filter.py:37-74 | a selector is excluded exactly when it belongs to an excluded group or is a custom selector |
| Filter.KeepingMoreRemovesLess | spider/content/filter.py:37-74 | including more groups never excludes a selector that was kept |
| Filter.IncludedGroups | spider/content/filter.py:100-109 | exactly the given groups that are included |
| Filter.IncludedGroupsAppend | spider/content/filter.py:100-109 | filtering a concatenation concatenates the filtered parts, so the given order is kept |
| Filter.Describe | spider/content/filter.py:98-115 | the "Excludes" text exactly when no group is included; otherwise "ContentFilter(Includes: ", the included groups' names in the order headers, menus, footers, sidebars joined with ", ", and ")" |
| Filter.EveryGroupDescribed | spider/content/filter.py:102-109 | every group occurs in the order the description checks them |
| Filter.DescriptionOrderKept | spider/content/filter.py:100-109 | filtering that order keeps exactly the included groups, in the order headers, menus, footers, sidebars |
| Filter.DescribedNames | spider/content/filter.py:100-113 | the names of the included groups in that order are the names the description lists |
| Extractor.CollapseSpaces | spider/content/extractor.py:31 | every whitespace run becomes one space: no whitespace but " " remains, no two whitespace characters are adjacent, empty exactly when the text is, the first character kept or turned into " ", and the non-whitespace characters kept, in order |
| Extractor.Cleaned | spider/content/extractor.py:35 | no more sentences than pieces; the kept sentences are exactly the stripped pieces that are non-empty |
| Extractor.Sentences | spider/content/extractor.py:26-35 | the sentences are exactly the non-empty stripped pieces the splitter returns for the collapsed, stripped text |
| Extractor.FirstMention | spider/content/extractor.py:41-51 | the first sentence mentioning the keyword, or none exactly when no sentence does |
| Extractor.StripJoined | spider/content/extractor.py:60 | stripping "prev keyword next" gives the parts joined by single spaces, an empty neighbour leaving no extra space |
| Extractor.ExtractContextSpec | spider/content/extractor.py:14-62 | the context is empty exactly when no sentence mentions the keyword; otherwise it is the mentioning sentence with its neighbours joined by spaces |
| Extractor.ExtractContext | spider/content/extractor.py:14-62 | the context is empty exactly when no sentence mentions the keyword; a non-empty context has no surrounding whitespace |
| Extractor.NeighboursJoined | spider/content/extractor.py:54-60 | the previous and next sentences (empty at the ends) joined with the hit is non-empty and stripped |
| Extractor.SpacedHoldsMiddle | spider/content/extractor.py:60 | the joined context contains the keyword sentence |
| Extractor.ContextHoldsMention | spider/content/extractor.py:46-62 | when some sentence mentions the keyword, the context contains the first such sentence |
| Extractor.PySlice | spider/content/extractor.py:117-121 | Python slicing with clamped ends: the plain slice when in range |
| Extractor.Chunk | spider/content/extractor.py:117-121 | for a match inside the text, exactly the slice from 300 characters before it to 300 after, clamped to the text |
| Extractor.Kept | spider/content/extractor.py:100-104 | a text is kept exactly when it is an element text longer than one character |
| Extractor.Contexts | spider/content/extractor.py:115-124 | one context per match |
| Extractor.RowFor | spider/content/extractor.py:126-131 | a match yields one row for the keyword with its context exactly when the context is non-empty and mentions the keyword, and no row otherwise |
| Extractor.RowsFor | spider/content/extractor.py:115-131 | at most one row per match; a row is produced exactly when it is for the page and the keyword, has one of the contexts and is reportable |
| Extractor.Candidates | spider/content/extractor.py:112-131 | a row is a candidate exactly when one of the keywords yields it; every candidate is for one of the keywords and reportable |
| Extractor.Dedup | spider/content/extractor.py:133-136 | the same rows without repeats, first occurrences in order |
| Extractor.DedupAppend | spider/content/extractor.py:134-136 | appending a row already seen leaves the deduplicated list unchanged; a new one is appended |
| Extractor.CandidatesStep | spider/content/extractor.py:112-115 | each further keyword appends its rows |
| Extractor.MatchContext | spider/content/extractor.py:117-124 | the context of one match extends the per-match contexts by one |
| Extractor.ScanMatches | spider/content/extractor.py:115-136 | the `seen_entries` loop over one keyword's matches leaves the results equal to the deduplicated candidates so far, with `seen` holding exactly them |
| Extractor.SearchPageForKeywords | spider/content/extractor.py:65-138 | the results are the deduplicated candidate rows: distinct, each for one of the keywords, with a non-empty context mentioning it |
| Parser.Terms | spider/content/parser.py:46-53 | every category term is non-empty |
| Parser.FirstUrlMatch | spider/content/parser.py:29-40 | the first category whose URL segments occur in the path, none exactly when none does |
| Parser.UrlCategory | spider/content/parser.py:25-40 | a URL category is never "misc", is one of the six scored categories, and is absent exactly when no segment occurs in the lower-cased path |
| Parser.DocMatchesDoctor | spider/content/parser.py:33 | substring matching: "/Doctor" is categorised as documentation |
| Parser.CountTerms | spider/content/parser.py:58 | the loop's score is the total count of the terms in the text |
| Parser.AddHeaderBonus | spider/content/parser.py:63-66 | a header adds 5 to each category with a term in it and leaves the others |
| Parser.CategoryScores | spider/content/parser.py:55-66 | each category's score is its term count plus 5 per h1/h2 header naming one of its terms |
| Parser.FirstMax | spider/content/parser.py:69 | the first index of a maximal score, as Python's `max` picks it |
| Parser.ContentCategory | spider/content/parser.py:43-76 | "misc" exactly when no score exceeds 5; otherwise the first best-scored category |
| Parser.DeterminePageCategory | spider/content/parser.py:14-76 | the URL category when one matches; otherwise the content category |
| RateController.Summarize | spider/core/rate_controller.py:99-127 | a window entry is a success exactly for a "success" result; only http_error results carry their status code; an entry is rate limited exactly when it is an http_error with status 429 or with a classification that says throttle-and-retry or rate limiting |
| RateController.ClassifiedResponseRateLimited | spider/core/rate_controller.py:123-125 | for an http_error result classified by `handle_response_code`, the controller counts it as rate limited exactly when the classifier says throttle-and-retry |
| RateController.WindowAppend | spider/core/rate_controller.py:187-190 | the new entry is last and the window is the last `size` entries of the old window plus it; a size of 0 keeps everything, as `lst[-0:]` does |
| RateController.SuccessCount | spider/core/rate_controller.py:309 | at most the window's length, and equal to it exactly when every entry succeeded |
| RateController.RateLimitedCount | spider/core/rate_controller.py:310 | zero exactly when no entry is rate limited |
| RateController.ServerErrorCount | spider/core/rate_controller.py:311-313 | only failed entries with a 4xx or 5xx status count, so never more than the failures |
| RateController.WithoutRateLimited | spider/core/rate_controller.py:275 | the filtered window drops exactly the rate-limited entries |
| RateController.WithoutRateLimitedMembers | spider/core/rate_controller.py:275 | an entry survives the filter exactly when it was in the window and is not rate limited |
| RateController.WithoutRateLimitedIdempotent | spider/core/rate_controller.py:275-330 | filtering twice, as `adjust_rate_if_needed` does after `force_worker_reduction`, equals filtering once |
| RateController.NoRateLimitedUnfiltered | spider/core/rate_controller.py:275 | a window without rate-limited entries is unchanged by the filter |
| RateController.CountWindow | spider/core/rate_controller.py:304-313 | the counts of a window: successes and rate-limited entries at most the total, server errors at most the failures |
| RateController.ForcedSettings | spider/core/rate_controller.py:243-256 | severe: minimum workers and three times the delay; moderate: half the workers (at least the minimum) and twice the delay; otherwise one worker fewer (at least the minimum) and 1.5 times the delay; every delay capped at the maximum; in range stays in range |
| RateController.ScaleUp | spider/core/rate_controller.py:359-411 | one more worker below the maximum, else a shorter delay floored at the minimum, else the fallback; it never leaves the range and never slows down |
| RateController.RecoveryDecision | spider/core/rate_controller.py:351-394 | in recovery the crawl speeds up only after 98 % success, 30 successes and 120 s at moderate or severe level, or 95 % and 15 successes at light level; a level step-down or leaving recovery keeps the settings |
| RateController.NormalDecision | spider/core/rate_controller.py:397-439 | outside recovery only a 95 % success rate speeds up, 80-95 % holds, and light recovery is entered exactly below 50 % |
| RateController.Decide | spider/core/rate_controller.py:304-443 | a reduction exactly when the window has rate-limited entries; applied settings stay in range; speeding up needs no rate limiting and 95 % success; recovery is entered only from outside it and left only from inside |
| RateController.NormalModeTable | spider/core/rate_controller.py:335-439 | outside recovery and with no rate-limited entry, each row of the table with its full settings and reason: >20 % server errors cut a worker and multiply the delay by 1.3; ≥95 % success adds a worker, or at the maximum divides the delay by 1.2 down to the minimum, or holds; 80-95 % holds; 50-80 % cuts a worker above minimum plus one, else multiplies the delay by 1.2; below 50 % cuts a third of the workers, multiplies the delay by 1.5 and enters light recovery |
| RateController.RecoveryModeTable | spider/core/rate_controller.py:351-394 | in recovery, with no rate-limited entry and at most 20 % server errors, each row with its full settings and reason: at moderate or severe level, with 98 % success, 30 successes and 120 s, a worker is added, else the delay divided by 1.1 down to the minimum while above twice the minimum, else the level steps down to light, otherwise it holds; at light level, with 95 % and 15 successes, a worker is added, else the delay divided by 1.2 down to the minimum, else recovery ends, otherwise it holds |
| RateController.RestoreStats | spider/core/rate_controller.py:562-567 | each of the seven saved keys that is present overwrites its statistic and each absent one leaves it; no saved statistics, or the statistics just saved, leave them as they are |
| RateController.RestoredSettings | spider/core/rate_controller.py:517-559 | with ordered limits, restored settings are clamped into range; they equal the saved ones when those are in range and throttling is off |
| RateController.CountResponse | spider/core/rate_controller.py:95-162 | one more request; rate-limited, success, client-error and server-error counters each grow exactly for their kind of result |
| RateController.HealthAfter | spider/core/rate_controller.py:130-183 | rate limiting turns on throttling and recovery at moderate level, or raises the level up to severe; a success resets failures, and 20 in a row in recovery step the level down, leaving recovery at 0; more than 5 server errors start light recovery |
| RateController.SuccessRunEndsLightRecovery | spider/core/rate_controller.py:170-183 | the 20th consecutive success at light level ends recovery and throttling |
| RateController.RepeatedRateLimitingIsSevere | spider/core/rate_controller.py:130-146 | two rate-limited responses in a row reach severe recovery with throttling on |
| RateController.ApplyRecovery | spider/core/rate_controller.py:341-439 | entering light recovery starts it at level 1 now; stepping down sets level 1; leaving turns recovery and throttling off; otherwise nothing changes |
| RateController.ForcedHealth | spider/core/rate_controller.py:260-262 | a forced reduction puts the controller in recovery with throttling, starting now, and keeps the level |
| RateController.RestoredHealth | spider/core/rate_controller.py:530-547 | recovery mode and throttling as saved (else unchanged), the level as saved (else 1), counters reset, recovery restarted now |
| RateController.CrawlRateController.constructor | spider/core/rate_controller.py:18-77 | the limits and settings as given, an empty window, the last adjustment now, zeroed statistics, no recovery |
| RateController.CrawlRateController.ShouldAdjustNow | spider/core/rate_controller.py:194-223 | never during the 300 s cool-down; outside recovery and recent rate limiting only after the interval with at least min(5, window) responses; in recovery at least 5 s after the last adjustment |
| RateController.CrawlRateController.RegisterResponse | spider/core/rate_controller.py:82-192 | the statistics, health and window become their specification functions of the old state and the response; the settings are untouched |
| RateController.CrawlRateController.ForceWorkerReduction | spider/core/rate_controller.py:225-277 | the settings become the forced settings for the current level, stay in range, recovery is forced, the cool-down starts now and rate-limited entries leave the window |
| RateController.CrawlRateController.AdjustRateIfNeeded | spider/core/rate_controller.py:279-453 | nothing changes during the cool-down, when no adjustment is due or with an empty window; otherwise the outcome is `Decide` on the window's counts: a forced reduction, a hold, or the new settings with their recovery change; settings stay in range |
| RateController.CrawlRateController.GetCurrentSettings | spider/core/rate_controller.py:455-469 | the current workers, delay, recovery mode, level and throttling |
| RateController.CrawlRateController.ToCheckpoint | spider/core/rate_controller.py:579-596 | all eight keys present: target workers, delay, last adjustment time and reason, recovery mode, throttling, level, and the statistics |
| RateController.CrawlRateController.FromCheckpoint | spider/core/rate_controller.py:505-577 | health, settings and statistics become their restored forms; the cool-down is cleared; it always succeeds |
| RateController.CheckpointRoundTrip | spider/core/rate_controller.py:505-596 | restoring what `to_checkpoint` wrote, with throttling off and settings in range, gives back the settings, recovery mode and level, and statistics |
| RateController.CrawlRateController.Record | spider/core/rate_controller.py:96-190 | the statistics, health and window `register_response` computed are stored; the settings and timestamps stay |
| RateController.CrawlRateController.AdjustDecided | spider/core/rate_controller.py:307-453 | once the window is non-empty, the controller changes as the decision for the window, health and settings says, and stays in range when it was |
| RateController.CrawlRateController.ReduceForRateLimiting | spider/core/rate_controller.py:324-332 | a rate-limited window forces the reduction, counts one adjustment and leaves the window without rate-limited entries |
| RateController.CrawlRateController.ApplyDecision | spider/core/rate_controller.py:335-453 | the chosen settings and recovery change are stored, one adjustment is counted with its reason, and a change is reported exactly when the workers differ or the delay moves by more than 0.1 |
| Checkpoint.Stamped | spider/core/checkpoint.py:57-58 | the saved dictionary gains the save time and version "1.0" and is otherwise unchanged |
| Checkpoint.Validate | spider/core/checkpoint.py:101-132 | a file is accepted exactly when it was written and has a checkpoint time, "visited", "to_visit" and "pages_visited"; what is accepted is what was written |
| Checkpoint.SaveLoadRoundTrip | spider/core/checkpoint.py:35-132 | loading what a save wrote gives back the stamped data whenever the three required keys were present |
| Checkpoint.UnstampedIsRefused | spider/core/checkpoint.py:109-111 | a file without a checkpoint time is refused |
| Checkpoint.PagesThreshold | spider/core/checkpoint.py:52 | the threshold is the larger of 10 and 5 % of the page count |
| Checkpoint.CheckpointManager.constructor | spider/core/checkpoint.py:22-33 | the file and interval as given; no save yet, at time 0 and 0 pages |
| Checkpoint.CheckpointManager.LoadCheckpoint | spider/core/checkpoint.py:94-132 | data is returned only from a written file with the required keys, and nothing exactly when there is no such file |
| Checkpoint.CheckpointManager.SaveCheckpoint | spider/core/checkpoint.py:35-92 | an unforced save inside the interval with too few new pages changes nothing; otherwise the data is stamped, and it is saved exactly when the write succeeds, moving the save time and page count, after which loading returns the stamped data |
| Checkpoint.CheckpointManager.ShouldSaveCheckpoint | spider/core/checkpoint.py:134-155 | true exactly when the interval has passed since the last save, or the pages since it reach both 10 and 5 % of the count at that save |
| Checkpoint.CheckpointManager.SaveRefused | spider/core/checkpoint.py:50-53 | never for a forced save; otherwise exactly when the interval has not passed and the new pages fall short of 10 or of 5 % of the current count |
| Checkpoint.ForceBypassesGate | spider/core/checkpoint.py:50 | a forced save is never refused by the gate |
| Checkpoint.PredicateAndGateDisagree | spider/core/checkpoint.py:50-53 | `should_save_checkpoint` takes 5 % of the last saved count, `save_checkpoint` 5 % of the current one: at 1000 saved and 1052 now the first says save and the second refuses |
| Checkpoint.IntervalElapsedSaves | spider/core/checkpoint.py:147-148 | once the interval has passed both the predicate and the gate let the save through |
| Checkpoint.EnoughPagesTrigger | spider/core/checkpoint.py:151-153 | enough new pages since the last save trigger the predicate whatever the time |
| Config.Dotted | spider/cli/config.py:101-105 | every extension that starts with "." is kept, every other one e becomes "." + e, and nothing else appears |
| Config.NormalizedExtensions | spider/cli/config.py:101-105 | `None` stays `None` and an empty set stays empty (it is falsy); a non-empty set becomes its `Dotted` form |
| Config.ClampedRate | spider/cli/config.py:82-92 | after the three clamps the minimum workers is at most the maximum and the minimum delay at most the initial and maximum delays; each value changes only when its check fails |
| Config.InitialWorkersFor | spider/cli/config.py:95-98 | the midpoint of the worker range, inside it |
| Config.ValidatedRate | spider/cli/config.py:82-98 | the initial workers lie between the minimum and maximum, the delays are ordered, the rest is the clamped settings |
| Config.Validated | spider/cli/config.py:67-105 | an invalid URL is refused; missing keywords are refused outside markdown mode; otherwise only the rate settings and extensions change |
| Config.PostInit | spider/cli/config.py:67-105 | `__post_init__` yields the validated configuration or its error |
| Config.InitialDelayMayExceedMax | spider/cli/config.py:86-92 | the clamps run in order, so an initial delay below the minimum that is raised to it can end above a smaller maximum |
| Config.DottedIdempotent | spider/cli/config.py:101-105 | dotted extensions are left as they are |
| Config.ValidatedIdempotent | spider/cli/config.py:67-105 | validating a validated configuration changes nothing |
| Config.SetToList | spider/cli/config.py:160-161 | the list holds exactly the set's elements, once each |
| Config.ExtensionsValue | spider/cli/config.py:160-161 | a non-empty set becomes a list of its elements; `None` stays null |
| Config.ToDict | spider/cli/config.py:149-163 | every field is present with its encoded value and no other key appears |
| Config.GetStr | spider/cli/config.py:166-184 | a missing field gets the dataclass default and a string is taken as it is; the read succeeds exactly in those two cases, and a failure names the field (see Left out) |
| Config.GetOptStr | spider/cli/config.py:166-184 | a missing field is `None`; a present one is read exactly when it is a string or null, and the result encodes back to it; a failure names the field |
| Config.GetInt | spider/cli/config.py:166-184 | a missing field gets its default and an integer is taken as it is; the read succeeds exactly in those two cases, and a failure names the field |
| Config.GetOptInt | spider/cli/config.py:166-184 | a missing field is `None`; a present one is read exactly when it is an integer or null, and the result encodes back to it; a failure names the field |
| Config.GetReal | spider/cli/config.py:166-184 | a missing field gets its default, a float is taken and an integer is taken as a float; the read succeeds exactly in those cases, and a failure names the field |
| Config.GetBool | spider/cli/config.py:166-184 | a missing field gets its default and a boolean is taken as it is; the read succeeds exactly in those two cases, and a failure names the field |
| Config.GetList | spider/cli/config.py:166-184 | a missing field is empty and a list is taken as it is; the read succeeds exactly in those two cases, and a failure names the field |
| Config.GetExtensions | spider/cli/config.py:180-181 | a list becomes the set of its elements, a set is taken, a missing or null field is `None`; the read succeeds exactly when the field is absent or one of those, and a failure names the field |
| Config.DecodeBasics | spider/cli/config.py:166-184 | succeeds exactly when each of the URL, output file, keywords, page limit and path prefix is absent or of its declared type; a failure is a type error naming such a field |
| Config.DecodeBrowser | spider/cli/config.py:166-184 | succeeds exactly when each of the headless flag, driver path and restart limit is absent or of its declared type; a failure is a type error naming such a field |
| Config.DecodeCheckpoint | spider/cli/config.py:166-184 | succeeds exactly when each of the resume flag and checkpoint interval is absent or of its declared type; a failure is a type error naming such a field |
| Config.DecodeRate | spider/cli/config.py:166-184 | succeeds exactly when each of the nine rate-control fields is absent or of its declared type; a failure is a type error naming such a field |
| Config.DecodeWorkers | spider/cli/config.py:166-184 | succeeds exactly when each of the three worker counts is absent or an integer; a failure is a type error naming such a field |
| Config.DecodeDelays | spider/cli/config.py:166-184 | succeeds exactly when each of the three delays is absent or a number; a failure is a type error naming such a field |
| Config.DecodeRateFlags | spider/cli/config.py:166-184 | succeeds exactly when the two rate flags are absent or booleans and the window size absent or an integer; a failure is a type error naming such a field |
| Config.DecodeContent | spider/cli/config.py:166-184 | succeeds exactly when each of the four inclusion flags and the excluded selectors is absent or of its declared type; a failure is a type error naming such a field |
| Config.DecodeDomain | spider/cli/config.py:166-184 | succeeds exactly when each of the subdomain flag and the allowed extensions is absent or of its declared type; a failure is a type error naming such a field |
| Config.DecodeModes | spider/cli/config.py:166-184 | succeeds exactly when each of the three mode flags is absent or of its declared type; a failure is a type error naming such a field |
| Config.FromDict | spider/cli/config.py:166-184 | an unknown key is refused, then a missing URL; never a file error; a type error names a field that is not readable; with every field readable the result is a configuration, an invalid URL or missing keywords; a decoded configuration is already validated |
| Config.DecodeEncodedBasics | spider/cli/config.py:149-184 | the basic fields come back from the dictionary unchanged |
| Config.DecodeEncodedBrowser | spider/cli/config.py:149-184 | the browser fields come back unchanged |
| Config.DecodeEncodedCheckpoint | spider/cli/config.py:149-184 | the checkpoint fields come back unchanged |
| Config.EncodedWorkers | spider/cli/config.py:149-184 | the three worker counts come back unchanged |
| Config.EncodedDelays | spider/cli/config.py:149-184 | the three delays come back unchanged |
| Config.EncodedRateFlags | spider/cli/config.py:149-184 | the rate flags and window size come back unchanged |
| Config.DecodeEncodedRate | spider/cli/config.py:149-184 | the rate settings come back unchanged |
| Config.EncodedInclusions | spider/cli/config.py:149-184 | the four inclusion flags come back unchanged |
| Config.DecodeEncodedContent | spider/cli/config.py:149-184 | the content settings come back unchanged |
| Config.DecodeEncodedDomain | spider/cli/config.py:149-184 | the domain settings come back unchanged, the extension set through its list form |
| Config.ExtensionsDecode | spider/cli/config.py:149-184 | the value written for the extension set, a list for a non-empty set, reads back as the same set |
| Config.DecodeEncodedModes | spider/cli/config.py:149-184 | the mode flags come back unchanged |
| Config.DecodeEncoded | spider/cli/config.py:149-184 | decoding a configuration's dictionary validates it again |
| Config.DictRoundTrip | spider/cli/config.py:149-184 | `from_dict(to_dict(c))` gives back a validated configuration `c` |
| Config.LoadConfig | spider/cli/config.py:219-250 | a missing file gives the not-found error and invalid JSON the JSON error, exactly; a document without "url" is refused; otherwise the result is `from_dict` of the document |
| Frontier.AsPair | spider/core/crawler.py:402-406 | a pair is kept; a bare URL becomes the pair with depth 0 |
| Frontier.AllPairsAppend | spider/core/crawler.py:413 | a frontier of pairs stays one when pairs are appended |
| Frontier.Normalize | spider/core/crawler.py:837-853 | each entry becomes its pair form, in order |
| Frontier.NormalizeFixesPairs | spider/core/crawler.py:837-853 | a frontier of pairs is unchanged by the conversion, so converting twice equals converting once |
| Frontier.NormalizeAppend | spider/core/crawler.py:837-853 | the conversion works entry by entry across concatenation |
| Frontier.IndexOf | spider/core/crawler.py:492-493 | the first position of the entry, or the length when it is absent |
| Frontier.RemoveFirst | spider/core/crawler.py:493 | `list.remove`: exactly the first occurrence is taken out, the rest kept in order |
| Frontier.RemovePendingAsWritten | spider/core/crawler.py:492-493 | the handlers test and remove the bare URL: only a bare entry can be removed, and then exactly one |
| Frontier.PendingRemovalNeverMatches | spider/core/crawler.py:413-493 | pending URLs are stored as (url, depth) pairs, so the handlers' removal never removes anything |
| Frontier.PendingRemovalCounterexample | spider/core/crawler.py:492-493 | the pending pair ("a", 0) survives a success result for "a" |
| Frontier.IndexOfUrl | spider/core/crawler.py:492-493 | the first position of a URL in a list of URLs, or the length when it is absent; used for the pending entries and for the keys of `retry_status` |
| Frontier.RemovePending | spider/core/crawler.py:492-493 | the corrected removal drops the first entry for the URL and changes nothing when there is none |
| Frontier.UrlCount | spider/core/crawler.py:492-493 | the number of entries for a URL is at most the frontier's length |
| Frontier.UrlCountAppend | spider/core/crawler.py:413 | counts add up across concatenation |
| Frontier.UrlCountPositive | spider/core/crawler.py:492 | the count is positive exactly when some entry is for the URL |
| Frontier.RemovePendingRemovesOne | spider/core/crawler.py:492-493 | the corrected removal takes out exactly one entry for a pending URL |
| Frontier.RemovePendingKeepsPairs | spider/core/crawler.py:413 | the pending list holds only `(url, depth)` pairs (line 413 appends nothing else), and the corrected removal keeps it so |
| Frontier.CorrectedRemovalClearsUrl | spider/core/crawler.py:492-493 | after the corrected removal, a success for "a" leaves no pending ("a", 0) |
| Crawler.Dispatch | spider/core/crawler.py:397-417 | the popped entries that are sent: only unvisited ones, as pairs, never more than were popped |
| Crawler.DispatchAppend | spider/core/crawler.py:397-417 | dispatching is entry by entry, so it distributes over concatenation |
| Crawler.DispatchKeepsUnvisited | spider/core/crawler.py:409-416 | every popped unvisited entry is sent |
| Crawler.Budget | spider/core/crawler.py:394 | at least one URL, and at least twice the target workers minus the pending count |
| Crawler.Refill | spider/core/crawler.py:385-425 | the sent entries are the dispatched prefix of the frontier, within the budget; a round that sends nothing pops the whole frontier |
| Crawler.SkippedPrefix | spider/core/crawler.py:423-425 | after a round that sent nothing, the next round dispatches from where it stopped |
| Crawler.RefillDrainsVisited | spider/core/crawler.py:423-425 | when nothing is sent, every frontier URL was already visited |
| Crawler.EnqueueLinks | spider/core/crawler.py:540-545 | new links are queued at the next depth only when not yet cached; the cache gains exactly the links, existing depths unchanged |
| Crawler.EnqueueLinksOnce | spider/core/crawler.py:540-545 | no URL is queued twice, and every uncached link is queued |
| Crawler.Pow | spider/core/crawler.py:714 | powers of a positive base are positive |
| Crawler.RetryDecision | spider/core/crawler.py:694-743 | dropped exactly at the retry limit; a second retry-once is dropped; otherwise scheduled exactly when the back-off delay is positive, that delay being retry_after × 1.5^count |
| Crawler.BackoffGrows | spider/core/crawler.py:714 | each further retry waits 1.5 times as long |
| Crawler.RetryOnceRetriesOnce | spider/core/crawler.py:707-714 | a retry-once URL is scheduled once and dropped the second time |
| Crawler.Lookup | spider/core/crawler.py:788 | `retry_status.get(url)`: nothing exactly when the URL has no entry |
| Crawler.LookupUnique | spider/core/crawler.py:725 | with distinct keys, the first index of a URL among the schedule's keys is its only entry, and lookup finds that entry |
| Crawler.Put | spider/core/crawler.py:725-730 | assignment keeps keys distinct, replaces an existing entry in place, or appends a new one |
| Crawler.PutLookup | spider/core/crawler.py:725-730 | after assignment the URL maps to the new information and every other URL is unaffected |
| Crawler.DueRetries | spider/core/crawler.py:763-771 | exactly the scheduled entries whose retry time has come, in dictionary order |
| Crawler.Urls | spider/core/crawler.py:774-775 | the URLs of the due entries, in order |
| Crawler.Unscheduled | spider/core/crawler.py:810 | the due URLs' entries are marked unscheduled and nothing else changes |
| Crawler.DueRetriesDistinct | spider/core/crawler.py:763-771 | the due list has no URL twice |
| Crawler.DueStep | spider/core/crawler.py:774-810 | requeueing the next due URL marks it unscheduled and extends the frontier by it when it can be requeued |
| Crawler.LookupUnscheduled | spider/core/crawler.py:810 | URLs that were not due keep their retry information |
| Crawler.RequeueAll | spider/core/crawler.py:774-802 | the frontier keeps its prefix and gains only bare due URLs that are unvisited and not pending |
| Crawler.RequeueAllNoNewDuplicates | spider/core/crawler.py:794-802 | requeueing never adds the same bare URL twice |
| Crawler.CacheVisited | spider/core/crawler.py:331-332 | every visited URL is cached at depth 0 |
| Crawler.CacheEntries | spider/core/crawler.py:335-340 | the cache gains exactly the frontier's URLs; URLs not in the frontier keep their depth |
| Crawler.CacheEntriesLastWins | spider/core/crawler.py:335-340 | a URL's cached depth is that of its last frontier entry |
| Crawler.ResumedFrontier | spider/core/crawler.py:297-318 | the resumed frontier is the pending entries then the saved ones, all as pairs |
| Crawler.SavedData | spider/core/crawler.py:837-870 | the checkpoint holds the visited list, the frontier and pending URLs as pairs, the page count, the retry counts and the controller's checkpoint |
| Crawler.SaveResumeRoundTrip | spider/core/crawler.py:279-870 | what a save writes passes validation, and resuming from it restores the visited list and page count and puts the pending entries before the frontier |
| Crawler.MarkVisited | spider/core/crawler.py:600-601 | the URL is visited afterwards, appended only when it was not |
| Crawler.SerializeEntries | spider/core/crawler.py:837-844 | the serialising loop yields the pair form of each entry |
| Crawler.PopAndDispatch | spider/core/crawler.py:397-417 | one round pops min(budget, frontier) entries and sends the unvisited ones |
| Crawler.FilledInOneRound | spider/core/crawler.py:385-425 | a round that sends something, or empties the frontier, is a complete fill |
| Crawler.FilledByRetry | spider/core/crawler.py:423-425 | a round that sends nothing followed by a complete fill of the rest is a complete fill |
| Crawler.BuildUrlCache | spider/core/crawler.py:328-340 | the rebuilt cache maps visited URLs to 0, then each frontier entry to its depth |
| Crawler.Spider.constructor | spider/core/crawler.py:36-160 | the start URL queued at depth 0 and cached, nothing visited or pending, at most three retries, the controller's settings shared |
| Crawler.Spider.AddStartUrlIfIdle | spider/core/crawler.py:209-218 | the start URL is queued again only when the frontier and pending list are empty and it was not visited |
| Crawler.Spider.FillTaskQueue | spider/core/crawler.py:385-449 | the frontier, pending list and task queue end as a complete fill from the old ones; nothing else changes |
| Crawler.Spider.HandleSuccess | spider/core/crawler.py:481-578 | the URL is appended to the visited list and counted; links are queued one depth further unless the maximum depth forbids it; the first pending entry for the URL is removed (the corrected removal, see Findings) |
| Crawler.Spider.HandleHttpError | spider/core/crawler.py:579-624 | the URL is marked visited unless the action retries; throttle-and-retry forces a controller adjustment, whose settings are adopted only when they changed; the controller stays in range |
| Crawler.Spider.ForceAdjustment | spider/core/crawler.py:604-620 | the forced adjustment changes only the shared settings, and keeps the controller in range |
| Crawler.Spider.HandleSkipped | spider/core/crawler.py:625-647 | the URL is marked visited; its first pending entry is removed (corrected, see Findings); nothing else changes |
| Crawler.Spider.HandleError | spider/core/crawler.py:648-668 | an error result only removes the first pending entry for the URL (corrected, see Findings) |
| Crawler.Spider.HandlePage | spider/core/crawler.py:988-995 | each status goes to its handler: success counts a page and visits it, skipped marks it visited, an error leaves the visited list, other statuses change nothing |
| Crawler.Spider.ProcessResult | spider/core/crawler.py:913-1012 | worker notices change nothing; a page result is registered with the controller, handled, and stops the crawl exactly when the page limit is reached |
| Crawler.Spider.ProcessPage | spider/core/crawler.py:984-1008 | one page result: the page count moves only on success, and the crawl stops exactly at the page limit |
| Crawler.Spider.ProcessRetryItem | spider/core/crawler.py:688-746 | the retry count, visited list, retry schedule and frontier change as `RetryDecision` says |
| Crawler.Spider.ScheduleRetry | spider/core/crawler.py:720-730 | the schedule becomes `Put` of the URL's new entry, one entry per URL is kept, and no other field changes |
| Crawler.Spider.RequeueUrl | spider/core/crawler.py:777-810 | a retry whose id still matches a scheduled entry is unscheduled and requeued when its URL is nowhere in the crawl; any other call changes nothing |
| Crawler.Spider.CheckScheduledRetries | spider/core/crawler.py:751-776 | every due retry is unscheduled and its URL requeued in order; nothing else changes |
| Crawler.Spider.RequeueDue | spider/core/crawler.py:774-775 | one iteration of the due loop extends the unscheduled and requeued prefixes by one URL |
| Crawler.Spider.Resume | spider/core/crawler.py:279-383 | without a checkpoint nothing changes; otherwise the visited list, page count, frontier, cache, retry counts and controller settings are restored, and the pending list emptied |
| Crawler.Spider.RestoreRate | spider/core/crawler.py:343-351 | the controller is restored from its checkpoint and the spider adopts its settings |
| Crawler.Spider.CheckpointData | spider/core/crawler.py:836-870 | the saved state holds the visited list, the page count and the retry counts as they are, the frontier and pending list with every entry as a `(url, depth)` pair (bare URLs at depth 0), the controller's checkpoint, and no save time yet |
| Crawler.Spider.SaveCheckpoint | spider/core/crawler.py:825-893 | a refused save returns false; past the gate the save succeeds exactly when the write succeeds, and then loading gives back the stamped crawl state; a refused or failed save changes nothing |
| Worker.TextStatus | spider/workers/worker.py:652-674 | the tests run in the source's order: 404 exactly for a not-found title or body; otherwise 403 exactly for forbidden wording; otherwise 500 exactly for server-error wording; otherwise 429 exactly for rate-limit wording in the body; 200 exactly when no test matches |
| Worker.PageStatus | spider/workers/worker.py:626-681 | a timeout gives 408; a non-zero status from the performance API is kept; only a still-200 page with a readable title is classified by its lowercased text |
| Worker.PlainPageSucceeds | spider/workers/worker.py:629-674 | a loaded page with no status reported and no error wording in its title or body is handled as a success |
| Worker.TextStatusHandling | spider/workers/worker.py:652-674 | a page that reads as not found is skipped; any other error wording leads to a retry action |
| Worker.ProcessUrl | spider/workers/worker.py:598-785 | exactly one result, for the URL, per call; success exactly when that result is a success, and then no retry entry; a failed navigation (the catch-all at lines 768-785) gives one error result with the error text and, with a retry queue, a retry_once after 30 seconds, which every error result comes with; otherwise at most one retry entry, only with a retry queue, for the URL and with a retry action |
| Worker.HttpErrorRouting | spider/workers/worker.py:684-708 | a non-success classification emits one http_error result carrying the status and handling, fails the call, and queues a retry with the classifier's delay exactly when the action is a retry action and a retry queue exists |
| Worker.SuccessRouting | spider/workers/worker.py:684-766 | an accepted status with readable links emits one success result with those links and the status, no retry, and returns true |
| Worker.TimeoutRetriedOnce | spider/workers/worker.py:679-708 | a navigation timeout is retried once after 10 seconds |
| Worker.WorkerLoop.constructor | spider/workers/worker.py:239-279 | empty queues, no restarts and no driver yet |
| Worker.WorkerLoop.HandleTask | spider/workers/worker.py:340-575 | the exit signal ends the loop and changes nothing; a non-webpage URL adds one skipped result and nothing else; a web page moves the loop state as the step function says; the loop ends exactly on the exit signal or when a session error takes the restarts past the maximum |
| Worker.WorkerLoop.RunAttempt | spider/workers/worker.py:392-575 | for a web page the loop state becomes the step function's, with the intended session-error handling (see Findings); the loop ends exactly after a session error past the restart limit |
| Worker.WorkerLoop.Run | spider/workers/worker.py:281-575 | the loop state after the run is `Steps`, the task step folded over the tasks taken, in order; before the stopping task none was an exit signal; the loop stops early only on the exit signal or past the restart limit; the restart counter moves at most once per task taken and goes at most one past the maximum |
| Worker.StepsBounded | spider/workers/worker.py:281-575 | over any run of tasks the result and retry queues only grow, by at most one entry per task each, and the restart counter moves by at most one per task |
| Worker.StepEmitsAtMostOne | spider/workers/worker.py:392-575 | one task adds at most one result and at most one retry entry, both for the task's URL; the URL goes back on the task queue only after a session error without a retry queue |
| Worker.SessionErrorRestarts | spider/workers/worker.py:497-543 | the intended handling of a dead session, which the source never reaches (see Findings): a session error counts one restart and drops the driver; past the maximum it reports an error and queues a 60-second retry, otherwise a 5-second retry or a requeue |
| Worker.OnlySessionErrorsRestart | spider/workers/worker.py:500-575 | only a session error moves the restart counter, by exactly one |
| Worker.AsWrittenNeverRestarts | spider/workers/worker.py:768-785 | as written, where `process_url` catches the dead-session error itself, no run of tasks ever moves the restart counter or puts a URL back on the task queue |
| Worker.SessionErrorSwallowed | spider/workers/worker.py:497-543 | a session dying during navigation with restarts to spare: as written an error result, a retry_once after 30 seconds, no restart and the driver kept; as intended no result, a 5-second retry, one restart and the driver dropped |
| Worker.QueuedPairsNeverVisited | spider/workers/worker.py:284-574 | as written, where the `(url, depth)` pair itself reaches `is_webpage_url`, every result a run of queued tasks adds is the parse error, every retry a retry_once after 30 seconds, and the restart counter, requeued URLs and driver stay |
| Worker.Unpack | spider/core/crawler.py:416 | the intended reading of a queued task: the exit signal stays the exit signal, and a pair becomes its URL with the URL's split form and what happens to it |
| Worker.QueuedPairFails | spider/workers/worker.py:346-348 | the pair `("https://a.example/", 0)` for a page that loads cleanly: as written a parse-error result and a retry_once after 30 seconds; unpacked, a success result with the page's links |
| Worker.UnpackedPairVisited | spider/workers/worker.py:346-357 | unpacked, a queued pair is handled as its URL: a non-webpage URL is skipped, a webpage URL takes the worker step, and one that loads cleanly on a running driver is a success with its links and no retry |
| WorkerPool.AliveOf | spider/workers/manager.py:187 | the alive workers are a sub-list of the tracked ones |
| WorkerPool.AliveOfMembers | spider/workers/manager.py:187 | a worker is in the alive list exactly when it is tracked and its process is alive |
| WorkerPool.AliveOfIncreasing | spider/workers/manager.py:187 | filtering keeps the ids increasing |
| WorkerPool.Ids | spider/workers/manager.py:114-146 | the ids handed out by a run of launches are exactly the next `n` ids |
| WorkerPool.Launched | spider/workers/manager.py:143-146 | the process table after launches: the new ids alive, every other entry unchanged |
| WorkerPool.StopEach | spider/workers/manager.py:201-203 | stopping each given worker in turn gives the table where exactly those workers are no longer alive |
| WorkerPool.Stopped | spider/workers/manager.py:166-167 | the table keeps its keys; a worker stays alive exactly when it was alive and was not stopped |
| WorkerPool.LastN | spider/workers/manager.py:198 | `alive_workers[-excess:]`: the last `excess` entries, or all of them when there are fewer |
| WorkerPool.AliveAfterStop | spider/workers/manager.py:198-206 | after stopping some workers, the alive list is the old alive list without them |
| WorkerPool.StopLastKeepsFirst | spider/workers/manager.py:193-206 | stopping the last `excess` alive workers leaves exactly the first ones alive, in order |
| WorkerPool.AliveOfTwice | spider/workers/manager.py:206 | an already filtered list is unchanged by filtering again |
| WorkerPool.AliveOfFresh | spider/workers/manager.py:145-146 | a newly launched worker is appended to the alive list |
| WorkerPool.LaunchNShape | spider/workers/manager.py:97-98 | `n` launches advance the next id by `n` and append exactly the ids from the old next id on |
| WorkerPool.LaunchNTable | spider/workers/manager.py:143-146 | `n` launches add exactly those ids to the process map and mark them alive |
| WorkerPool.LaunchNFacts | spider/workers/manager.py:209-214 | `n` launches keep the roster well formed and add exactly `n` alive workers |
| WorkerPool.StopExcessFacts | spider/workers/manager.py:193-206 | stopping the excess keeps the roster well formed, keeps the first alive workers in order, and leaves alive minus excess of them |
| WorkerPool.AdjustMeetsTarget | spider/workers/manager.py:177-214 | for a non-negative target, the alive count after `adjust_worker_count` equals the target, whichever branch runs |
| WorkerPool.Pool.constructor | spider/workers/manager.py:24-84 | no workers, an empty process map, next id 0, not running |
| WorkerPool.Pool.StartNewWorker | spider/workers/manager.py:107-149 | the id returned is the old next id; the worker is appended and recorded alive; the next id advances by one |
| WorkerPool.Pool.Start | spider/workers/manager.py:86-105 | running, target and delay copied from the rate controller, and exactly the target number of workers launched |
| WorkerPool.Pool.Stop | spider/workers/manager.py:151-175 | one exit sentinel per tracked worker, every tracked worker stopped, both worker lists emptied |
| WorkerPool.Pool.StopWorkers | spider/workers/manager.py:193-206 | the roster becomes the one with the last `excess` alive workers stopped and only alive workers kept |
| WorkerPool.Pool.StartWorkers | spider/workers/manager.py:209-214 | the roster becomes the one after `n` launches |
| WorkerPool.Pool.AdjustWorkerCount | spider/workers/manager.py:177-214 | the roster becomes the adjusted roster for the current target; nothing else changes |
| WorkerPool.Pool.GetWorkerStatus | spider/workers/manager.py:263-277 | the alive count of the tracked workers, the next id as the total created, and the shared target, active count and delay |
| BrowserPool.Browser.constructor | spider/browser/pool.py:26-41 | a new instance is idle, without a task or errors, active now |
| BrowserPool.Browser.AssignTask | spider/browser/pool.py:95-112 | succeeds exactly from idle, then busy with the task recorded; otherwise nothing changes |
| BrowserPool.Browser.Release | spider/browser/pool.py:114-141 | success counts a URL and makes the instance idle without a task; failure counts an error and crashes it exactly at three errors, keeping its task |
| BrowserPool.Recorded | spider/browser/pool.py:312-318 | success counts one more URL and success and forgives one failure; failure counts one more failure and takes back one success; neither counter goes below zero |
| BrowserPool.SuccessRun | spider/browser/pool.py:312-315 | a run of successes adds its length to both counters and forgives as many failures |
| BrowserPool.SuccessRunOpensGates | spider/browser/pool.py:312-315 | a run of successes at least as long as the threshold and the failure count opens the counter conditions of the growth test |
| BrowserPool.GrowthTestOverRationals | spider/browser/pool.py:348-380 | the growth test holds exactly when below target, the interval has elapsed, enough successes, failures not above half the successes (as exact fractions) and no idle instance |
| BrowserPool.Snapshot | spider/browser/pool.py:401-407 | what the monitor reads of each instance: id, status and last activity, in pool order |
| BrowserPool.IdleCount | spider/browser/pool.py:377-378 | the number of idle instances is zero exactly when none is idle |
| BrowserPool.CrashedIds | spider/browser/pool.py:401-403 | exactly the ids of the crashed instances |
| BrowserPool.IdleCandidates | spider/browser/pool.py:404-407 | exactly the idle instances idle longer than the maximum, in pool order |
| BrowserPool.Classify | spider/browser/pool.py:397-407 | the single scan yields exactly the crashed ids and the over-idle candidates |
| BrowserPool.InsertByIdle | spider/browser/pool.py:423 | insertion adds exactly the one element |
| BrowserPool.InsertByIdleOrdered | spider/browser/pool.py:423 | insertion keeps the list ordered longest idle first |
| BrowserPool.SortByIdle | spider/browser/pool.py:423 | the sorted candidates are a permutation of the candidates, longest idle first |
| BrowserPool.Recycled | spider/browser/pool.py:419-426 | as many candidates as the excess, or all of them when fewer, every one of them a candidate |
| BrowserPool.RecycledLongestIdle | spider/browser/pool.py:419-426 | at most `excess` candidates are recycled, all of them candidates, none idle for less time than a candidate that is kept |
| BrowserPool.IdsOf | spider/browser/pool.py:232-240 | the ids of the instances, in pool order |
| BrowserPool.WithoutIds | spider/browser/pool.py:415 | the instances without the given ids: every kept instance was there and every instance with another id is kept |
| BrowserPool.WithoutIdsIncreasing | spider/browser/pool.py:415 | removal keeps the ids increasing |
| BrowserPool.WithoutIdsBelow | spider/browser/pool.py:415 | removal keeps every id below the next id |
| BrowserPool.WithoutCrashed | spider/browser/pool.py:410-415 | removing the scanned crashed ids leaves no crashed instance |
| BrowserPool.DrainAsWritten | spider/browser/pool.py:432-438 | the queue loop as written ends only with an empty queue |
| BrowserPool.DrainAsWrittenDiverges | spider/browser/pool.py:432-438 | while another instance is queued, the loop as written does not end, however many steps it is given |
| BrowserPool.QueueWithout | spider/browser/pool.py:432-438 | the queue without the recycled instance: every other queued instance kept, nothing added |
| BrowserPool.Drain | spider/browser/pool.py:432-438 | one pass over the queue as it was puts back exactly the other instances, in order |
| BrowserPool.QueueWithoutAll | spider/browser/pool.py:426-438 | the queue without every recycled instance, every other queued instance kept |
| BrowserPool.DrainAll | spider/browser/pool.py:426-438 | draining for each recycled instance in turn gives the queue without all of them |
| BrowserPool.CheckInterval | spider/browser/pool.py:385-393 | after the first sleep the interval never exceeds the configured one, never exceeds 15 plus 5 per sleep, and never falls below 15 when the configured one is at least 15 |
| BrowserPool.CheckIntervalRamp | spider/browser/pool.py:385-393 | after `k` sleeps the monitor's interval is 15 plus 5 per sleep, capped at the configured interval |
| BrowserPool.Pool.constructor | spider/browser/pool.py:151-209 | minimum size one, the target as configured, and one instance created when the driver starts and the capacity allows |
| BrowserPool.Pool.CreateBrowser | spider/browser/pool.py:211-247 | refused at capacity or when the driver fails; otherwise a new idle instance with the next id is appended and queued |
| BrowserPool.Pool.ReleaseBrowser | spider/browser/pool.py:296-346 | a missing instance is refused; otherwise the counters are recorded and the instance released; an idle one is queued again and the id counter stays; a crashed one is removed, and a replacement is created while below the minimum, which joins the pool and the available queue and advances the id counter |
| BrowserPool.Pool.DropCrashed | spider/browser/pool.py:324-337 | the crashed instance leaves the pool; below the minimum one replacement is appended to the pool and to the available queue and the id counter advances by one; otherwise the queue and the counter stay |
| BrowserPool.Pool.ShouldGrowPool | spider/browser/pool.py:348-380 | true exactly when below target, the growth interval elapsed, enough successes, failures at most half the successes and no idle instance; the test leaves the pool unchanged |
| BrowserPool.Pool.RemoveCrashed | spider/browser/pool.py:397-415 | the crashed instances leave the pool, none remains crashed, and the over-idle candidates of the scan are returned |
| BrowserPool.Pool.RemoveCrashedIds | spider/browser/pool.py:410-415 | exactly the scanned crashed instances leave the pool and none remains crashed |
| BrowserPool.Pool.Recycle | spider/browser/pool.py:418-443 | above the minimum size, the longest-idle candidates up to the excess leave the pool and the available queue; otherwise nothing is recycled |
| BrowserPool.Pool.RemoveInstances | spider/browser/pool.py:426-438 | the recycled instances leave both the pool and the available queue |
| BrowserPool.Pool.Grow | spider/browser/pool.py:445-456 | growth happens exactly when the growth test holds: the minimum rises by one, the success count restarts and exactly one instance is added, at the end of the pool and of the available queue, when capacity and driver allow; otherwise nothing changes |
| BrowserPool.Pool.ApplyGrowth | spider/browser/pool.py:445-456 | the minimum rises by one, the growth time is now, the success count restarts, and exactly one instance is appended to the pool and the available queue when capacity and driver allow |
| BrowserPool.Pool.Replenish | spider/browser/pool.py:458-461 | with a working driver the pool is topped up to exactly the larger of its size and its minimum within capacity; without one nothing changes; existing instances are kept in order and the new ones queued as available in order |
| BrowserPool.Pool.MonitorPass | spider/browser/pool.py:395-461 | after one pass no instance is crashed; the recycled instances are exactly the longest-idle candidates up to the excess over the minimum; the instances neither crashed nor recycled stay first, in order, and the available queue is the old one without the recycled instances followed by the new ones; growth happens exactly when the growth test holds on the pool left after recycling, raising the minimum; without a driver nothing is added, with one the pool holds at least its minimum within capacity |
| BrowserPool.Pool.RemoveAndRecycle | spider/browser/pool.py:397-443 | the scan removes the crashed instances and recycles the longest-idle candidates up to the excess over the minimum; the pool becomes exactly the remaining instances and the available queue loses exactly the recycled ones; the growth state is untouched |
| BrowserPool.Pool.GrowAndReplenish | spider/browser/pool.py:445-461 | growth exactly when the growth test holds; the pool keeps its instances in order and gains, with a working driver, exactly enough to reach the grown size or the minimum within capacity, each new one queued as available; without a driver nothing is added |
| BrowserPool.SnapshotFrame | spider/browser/pool.py:401-407 | the monitor's reading of instances that have not changed is the same as before |

## Left out

- **Threads, processes and timers.** Manager proxies, `multiprocessing.Queue`, signal handlers, `checkpoint_loop`'s sleeping and `_check_startup_progress` are not modelled. Queues are sequences, and the time is a `now` parameter. Each `threading.Timer` that re-queues a retry is modelled only through its entry in the `retry_status` map, which `Crawler.Spider.CheckScheduledRetries` processes once the entry is due.
- **Process supervision.** `Worker.start`/`stop` (spawn, join, terminate), `WorkerPool._monitor_workers` and the `worker_process` receive loop (idle timeouts, PROBE puts) are not modelled. A worker process is an id with an `alive` flag, and the worker loop receives its tasks as a sequence.
- **Worker-pool no-op.** `WorkerPool._process_retry_queue` (spider/workers/manager.py:257-261) does nothing, so it has no counterpart.
- **Browser engines and foreign libraries.** The driver modules, navigation, stealth patches, `hash_page_content` and the Playwright variants are not modelled. So are `BrowserInstance.is_healthy` and `reset`, and `BrowserPool.get_browser` (a blocking queue read with a timeout) and `stop`. Whether a driver starts is a boolean `driverOk`, and quitting a driver has no effect in the model.
- **Browser-pool mode of the worker.** The branch of `worker_process` that borrows instances from a `BrowserPool` is never entered as the source stands. `initial_single_browser_period` starts true (spider/workers/worker.py:242), so the pool is not created at line 246. The switch at line 452 needs `urls_processed >= 3`, but the counter is set to 0 at line 243 and never increased. The worker loop is therefore modelled in its one-driver mode. Session errors arrive as an input (`Attempt`), not from a live driver.
- **Driver-dependent link extraction.** The DOM walk, BeautifulSoup, clicking and regex route scraping in `get_page_links`, `get_spa_links` and the Playwright variants are not modelled. Only the filter applied to each anchor is; `urlparse`, `urljoin` and `os.path.splitext` are given decompositions.
- **HTML and markdown libraries.** html2text arrives as its output. The regular expressions behind the sentence splitter and the whole-word search are the parameters `split`, `mentions` and `find`, and BeautifulSoup's text and heading extraction arrive as strings. `extract_headings`, `extract_meta_data` and `get_page_content_stats` are not modelled.
- **Search failures.** The `except` path of `search_page_for_keywords`, which returns an empty list when parsing raises, is not modelled, because nothing in the model raises.
- **Lower-casing.** Lower-casing is ASCII only, while Python's `str.lower` also folds non-ASCII letters. Category terms, header names and rate-limit phrases are ASCII, so only the text being searched could differ.
- **White space.** `Strings.IsSpace` covers the white-space code points below 256 only. Python's `\s` and `str.strip` also match U+1680, U+2000 to U+200A, U+2028, U+2029, U+202F, U+205F and U+3000, so `Strings.Strip`, `Extractor.CollapseSpaces` and `Extractor.Sentences` keep those characters where Python removes or collapses them.
- **Floating point.** Delays, rates and thresholds are exact reals. One visible difference: `0.05 * 300` is `15.000000000000002` in Python but `15` here, so `Checkpoint.PagesThreshold` can admit a save one page earlier than Python does when pages × 0.05 lands on a whole number. The window success rates are compared as exact fractions; Python's float division can round a rate that sits exactly on 0.95, 0.8 or 0.5.
- **Statistics.** `calculate_readability`, the ratios `get_statistics` derives and `markdown_stats` are not modelled.
- **File and JSON I/O.** The temporary-file write, fsync and rename in `save_checkpoint`, the JSON codec, the CSV of results and the reload of `seen_results` are not modelled, and neither are `save_config` and reading the configuration file. The checkpoint store holds decoded values with explicit `Pair`/`Bare` entries. After a real JSON round trip, `(url, depth)` tuples come back as lists, which the `isinstance(item, tuple)` test at spider/core/crawler.py:302 would not recognise; the model does not reproduce Python/JSON typing.
- **Command line and entry points.** spider/cli/argument_parser.py, `_override_config_from_args`, spider/__main__.py, spider/__init__.py, packaging and all logging output are not modelled.
- RateController.CrawlRateController.FromCheckpoint: requires a saved recovery level of at least 0; Python accepts any integer, and a negative level would later divide by zero in `should_adjust_now`.
- Crawler.Spider.RestoreRate: requires the same non-negative recovery level, for the same reason.
- Crawler.Spider.Resume: requires the loaded checkpoint's controller state to carry a non-negative recovery level, for the same reason.
- GetStr (`Config.GetStr`): a present value of another type is a type error here, while Python's `cls(**config)` (spider/cli/config.py:166-184) stores any value unchecked. The model gives each field one value type instead of Python's dynamic values.
- GetOptStr (`Config.GetOptStr`): a present value of another type is a type error here, while Python's `cls(**config)` (spider/cli/config.py:166-184) stores any value unchecked. The model gives each field one value type instead of Python's dynamic values.
- GetInt (`Config.GetInt`): a present value of another type is a type error here, while Python's `cls(**config)` (spider/cli/config.py:166-184) stores any value unchecked. The model gives each field one value type instead of Python's dynamic values.
- GetOptInt (`Config.GetOptInt`): a present value of another type is a type error here, while Python's `cls(**config)` (spider/cli/config.py:166-184) stores any value unchecked. The model gives each field one value type instead of Python's dynamic values.
- GetReal (`Config.GetReal`): a present value of another type is a type error here, while Python's `cls(**config)` (spider/cli/config.py:166-184) stores any value unchecked. The model gives each field one value type instead of Python's dynamic values.
- GetBool (`Config.GetBool`): a present value of another type is a type error here, while Python's `cls(**config)` (spider/cli/config.py:166-184) stores any value unchecked. The model gives each field one value type instead of Python's dynamic values.
- GetList (`Config.GetList`): a present value of another type is a type error here, while Python's `cls(**config)` (spider/cli/config.py:166-184) stores any value unchecked. The model gives each field one value type instead of Python's dynamic values.
- GetExtensions (`Config.GetExtensions`): a present value of another type is a type error here, while Python's `cls(**config)` (spider/cli/config.py:166-184) stores any value unchecked; for instance `"allowed_extensions": "abc"` becomes `{".a", ".b", ".c"}` in Python, because `__post_init__` iterates over the string. The model gives each field one value type instead of Python's dynamic values.
- DecodeBasics (`Config.DecodeBasics`): a present value of another type is a type error here, while Python's `cls(**config)` (spider/cli/config.py:166-184) stores any value unchecked. The model gives each field one value type instead of Python's dynamic values.
- DecodeBrowser (`Config.DecodeBrowser`): a present value of another type is a type error here, while Python's `cls(**config)` (spider/cli/config.py:166-184) stores any value unchecked. The model gives each field one value type instead of Python's dynamic values.
- DecodeCheckpoint (`Config.DecodeCheckpoint`): a present value of another type is a type error here, while Python's `cls(**config)` (spider/cli/config.py:166-184) stores any value unchecked. The model gives each field one value type instead of Python's dynamic values.
- DecodeRate (`Config.DecodeRate`): a present value of another type is a type error here, while Python's `cls(**config)` (spider/cli/config.py:166-184) stores any value unchecked. The model gives each field one value type instead of Python's dynamic values.
- DecodeWorkers (`Config.DecodeWorkers`): a present value of another type is a type error here, while Python's `cls(**config)` (spider/cli/config.py:166-184) stores any value unchecked. The model gives each field one value type instead of Python's dynamic values.
- DecodeDelays (`Config.DecodeDelays`): a present value of another type is a type error here, while Python's `cls(**config)` (spider/cli/config.py:166-184) stores any value unchecked. The model gives each field one value type instead of Python's dynamic values.
- DecodeRateFlags (`Config.DecodeRateFlags`): a present value of another type is a type error here, while Python's `cls(**config)` (spider/cli/config.py:166-184) stores any value unchecked. The model gives each field one value type instead of Python's dynamic values.
- DecodeContent (`Config.DecodeContent`): a present value of another type is a type error here, while Python's `cls(**config)` (spider/cli/config.py:166-184) stores any value unchecked. The model gives each field one value type instead of Python's dynamic values.
- DecodeDomain (`Config.DecodeDomain`): a present value of another type is a type error here, while Python's `cls(**config)` (spider/cli/config.py:166-184) stores any value unchecked. The model gives each field one value type instead of Python's dynamic values.
- DecodeModes (`Config.DecodeModes`): a present value of another type is a type error here, while Python's `cls(**config)` (spider/cli/config.py:166-184) stores any value unchecked. The model gives each field one value type instead of Python's dynamic values.
- FromDict (`Config.FromDict`): a present value of another type is a type error here, while Python's `cls(**config)` (spider/cli/config.py:166-184) stores any value unchecked and fails later, or not at all, depending on how the value is used. The model gives each field one value type instead of Python's dynamic values.
- LoadConfig (`Config.LoadConfig`): a present value of another type is a type error here, while Python's `cls(**config)` (spider/cli/config.py:166-184) stores any value unchecked, through `Config.FromDict`. The model gives each field one value type instead of Python's dynamic values.
- RunAttempt (`Worker.WorkerLoop.RunAttempt`): follows the intended session-error handling (`Worker.Step`), which the source never reaches because `process_url` catches the error first (see Findings); the behaviour as written is `Worker.StepAsWritten`.
- HandleTask (`Worker.WorkerLoop.HandleTask`): follows the same intended session-error handling, for the same reason.
- Run (`Worker.WorkerLoop.Run`): follows the same intended session-error handling, for the same reason.
- SessionErrorRestarts (`Worker.SessionErrorRestarts`): states the handler at spider/workers/worker.py:497-543, which the source never runs (see Findings).
- **Source inconsistencies the model sidesteps.**
  - spider/core/crawler.py passes `spider=`, `use_undetected=`, `browser_engine=` and `browser_type=` to `WorkerPool`, whose constructor does not accept them. The model builds the pool from the target alone.
  - Worker success results never carry `depth`, so the crawler's `result.get("depth", 0)` is always 0. `Crawler.Spider.HandleSuccess` takes the depth as a parameter and is proved for any depth.
  - The worker puts retries on `WorkerPool.retry_queue`, while `Spider._process_retry_queue` reads `Spider.retry_queue`. `Crawler.Spider.ProcessRetryItem` handles one retry item, whichever queue it came from.

## Findings

| source | as written | input that shows it | evidently intended | confidence | as-written member | corrected member |
|---|---|---|---|---|---|---|
| spider/core/crawler.py:492-493 | the result handlers test and remove the bare URL, but `pending_urls` only ever holds `(url, depth)` tuples (line 413), so nothing is ever removed (the same test is at lines 595, 638 and 661) | pending list `[("a", 0)]` and a success result for "a": `("a", 0)` stays pending | remove the pending entry for the processed URL, whatever its depth | not executed | Frontier.PendingRemovalCounterexample | Frontier.RemovePendingRemovesOne |
| spider/browser/pool.py:432-438 | to drop a recycled browser from the available queue, the loop takes each instance and puts back every other one, until the queue is empty | available queue `[b1, b2]` while recycling `b1`: `b2` is taken and put back forever | take each instance queued at the start once, and put back the ones that are not being recycled | not executed | BrowserPool.DrainAsWrittenDiverges | BrowserPool.Drain |
| spider/workers/worker.py:497-543 | `process_url` catches every exception itself (lines 768-785), so a dead session is reported as an ordinary error with a retry_once after 30 seconds; the restart handler is never reached, the restart count never moves and the dead driver is kept for the next URL. The handler is also guarded by `if not use_browser_pool` (line 499), which is false under the default `use_browser_pool=True` (lines 45 and 142) | a session that dies while a page loads, with a running driver, no restart yet and a maximum of 3: an error result, a retry_once after 30 seconds, restart count 0, driver kept | count one restart, drop the driver and retry the URL after 5 seconds (past the maximum: an error result, a 60-second retry and the end of the loop) | not executed | Worker.SessionErrorSwallowed | Worker.SessionErrorRestarts |
| spider/workers/worker.py:348 | the spider puts `(url, depth)` pairs on the task queue (spider/core/crawler.py:416), but the worker hands the task itself to `is_webpage_url`; `urlparse` raises on a pair ("'tuple' object has no attribute 'decode'"), and the catch-all at lines 561-574 reports an error and asks for a retry_once, so no queued page is ever loaded | the task `("https://a.example/", 0)` for a page that loads cleanly: an error result and a retry_once after 30 seconds instead of a success | unpack the pair and process its URL | not executed | Worker.QueuedPairFails | Worker.UnpackedPairVisited |

The spider's result handlers use the corrected pending removal (`Frontier.RemovePending`). The monitor pass drains the queue with `BrowserPool.DrainAll`, which is built on `BrowserPool.Drain`. The as-written versions, `Frontier.RemovePendingAsWritten` and `BrowserPool.DrainAsWritten`, are kept beside them with the lemmas that show the difference. The worker loop uses the intended session-error handling (`Worker.Step`); the as-written step is `Worker.StepAsWritten`, and `Worker.AsWrittenNeverRestarts` shows that as written no run of tasks ever counts a restart. The worker loop receives each task as its URL (`Worker.Unpack`); handled as written (`Worker.QueuedStepAsWritten`), no queued pair is ever visited (`Worker.QueuedPairsNeverVisited`).
