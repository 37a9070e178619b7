/**
 * The crawler configuration (spider/cli/config.py): the `Configuration`
 * dataclass, the validation and clamping its `__post_init__` performs, the
 * `to_dict` / `from_dict` conversions and the required-field check of
 * `load_config`.
 *
 * The dataclass is a value here, and `__post_init__` is a method that
 * reassigns the fields of a local copy one after another, in the source's
 * order; `Validated` states its outcome in closed form. `urlparse` is a
 * parameter. A decoded JSON object is a map from keys to a small set of JSON
 * values, with Python's set of extensions as one more kind of value because
 * `to_dict` may leave an empty set in place.
 */
module Config {
  import opened Wrappers
  import opened Strings
  import U = Url
  import RateController

  /** The fields of `Configuration`, in declaration order: the keys of `to_dict`. */
  datatype Field =
    | Url | OutputFile | Keywords | MaxPages | PathPrefix
    | Headless | WebdriverPath | MaxRestarts
    | Resume | CheckpointInterval
    | MinWorkers | MaxWorkers | InitialWorkers | MinDelay | MaxDelay | InitialDelay
    | AdaptiveRateControl | AggressiveThrottling | ResponseWindowSize
    | IncludeHeaders | IncludeMenus | IncludeFooters | IncludeSidebars | ExcludeSelectors
    | AllowSubdomains | AllowedExtensions
    | SpaMode | MarkdownMode | IncludeAllContent

  // The dataclass fields, grouped as the source's comments group them.

  datatype Basics = Basics(url: string, outputFile: string, keywords: seq<string>,
                           maxPages: Option<int>, pathPrefix: Option<string>)

  datatype BrowserSettings = BrowserSettings(headless: bool, webdriverPath: Option<string>, maxRestarts: int)

  datatype CheckpointSettings = CheckpointSettings(resume: bool, checkpointInterval: int)

  datatype RateSettings = RateSettings(
    minWorkers: int, maxWorkers: int, initialWorkers: int,
    minDelay: real, maxDelay: real, initialDelay: real,
    adaptiveRateControl: bool, aggressiveThrottling: bool, responseWindowSize: int)

  datatype ContentSettings = ContentSettings(
    includeHeaders: bool, includeMenus: bool, includeFooters: bool, includeSidebars: bool,
    excludeSelectors: seq<string>)

  datatype DomainSettings = DomainSettings(allowSubdomains: bool, allowedExtensions: Option<set<string>>)

  datatype Modes = Modes(spaMode: bool, markdownMode: bool, includeAllContent: bool)

  datatype Configuration = Configuration(
    basics: Basics, browser: BrowserSettings, checkpoint: CheckpointSettings,
    rate: RateSettings, content: ContentSettings, domain: DomainSettings, modes: Modes)

  /** The exceptions construction and loading can raise. */
  datatype ConfigError =
    | InvalidUrl            // ValueError from __post_init__
    | KeywordsRequired      // ValueError from __post_init__
    | MissingUrl            // KeyError in load_config, TypeError in the constructor
    | UnexpectedField       // TypeError: an unknown keyword argument
    | WrongType(field: Field)
    | FileNotFound
    | InvalidJson

  // ---------------------------------------------------------------------------
  // __post_init__

  /** The set comprehension that gives every extension a leading ".". */
  function Dotted(exts: set<string>): (r: set<string>)
    ensures forall e :: e in exts && StartsWith(e, ".") ==> e in r
    ensures forall e :: e in exts && !StartsWith(e, ".") ==> "." + e in r
    ensures forall e :: e in r ==> StartsWith(e, ".") && (e in exts || (e[1..] in exts && !StartsWith(e[1..], ".")))
  {
    var r := set e | e in exts :: if StartsWith(e, ".") then e else "." + e;
    forall e | e in r
      ensures StartsWith(e, ".") && (e in exts || (e[1..] in exts && !StartsWith(e[1..], ".")))
    {
      var x :| x in exts && e == (if StartsWith(x, ".") then x else "." + x);
      if !StartsWith(x, ".") {
        assert e[1..] == x;
      }
    }
    r
  }

  /** `allowed_extensions` after `__post_init__`: only a non-empty set is rewritten. */
  function NormalizedExtensions(exts: Option<set<string>>): (r: Option<set<string>>)
    ensures r.None? <==> exts.None?
    ensures r == Some({}) <==> exts == Some({})
    ensures r.Some? ==> forall e :: e in r.value ==> StartsWith(e, ".")
    ensures exts.Some? && exts.value != {} ==> r == Some(Dotted(exts.value))
  {
    if exts.Some? && exts.value != {} then
      var d := Dotted(exts.value);
      assert var e :| e in exts.value; (if StartsWith(e, ".") then e else "." + e) in d;
      Some(d)
    else exts
  }

  /** The rate-control bounds after `__post_init__`, before initial_workers is recomputed. */
  function ClampedRate(r: RateSettings): (s: RateSettings)
    ensures s.minWorkers <= s.maxWorkers
    ensures s.minDelay <= s.initialDelay && s.minDelay <= s.maxDelay
    ensures s.minWorkers == r.minWorkers || s.minWorkers == r.maxWorkers
    ensures r.minWorkers <= r.maxWorkers ==> s.minWorkers == r.minWorkers
    ensures r.minDelay <= r.initialDelay ==> s.initialDelay == r.initialDelay
    ensures r.minDelay <= r.maxDelay ==> s.minDelay == r.minDelay
    ensures s.(minWorkers := r.minWorkers, minDelay := r.minDelay, initialDelay := r.initialDelay) == r
  {
    r.(minWorkers := RateController.MinI(r.minWorkers, r.maxWorkers),
       initialDelay := RateController.MaxR(r.initialDelay, r.minDelay),
       minDelay := RateController.MinR(r.minDelay, r.maxDelay))
  }

  /** initial_workers as `__post_init__` recomputes it from the clamped bounds. */
  function InitialWorkersFor(minW: int, maxW: int): (r: int)
    requires minW <= maxW
    ensures minW <= r <= maxW
    ensures r == (minW + maxW) / 2
  {
    RateController.MinI(maxW, RateController.MaxI(minW, (minW + maxW) / 2))
  }

  /** The rate-control group after `__post_init__`. */
  function ValidatedRate(r: RateSettings): (s: RateSettings)
    ensures s.minWorkers <= s.initialWorkers <= s.maxWorkers
    ensures s.minDelay <= s.initialDelay && s.minDelay <= s.maxDelay
    ensures s.(initialWorkers := r.initialWorkers) == ClampedRate(r)
  {
    var t := ClampedRate(r);
    t.(initialWorkers := InitialWorkersFor(t.minWorkers, t.maxWorkers))
  }

  predicate UrlValid(url: string, parse: string -> U.SplitUrl) {
    parse(url).scheme != [] && parse(url).netloc != []
  }

  /**
   * The outcome of `__post_init__` in closed form: the two validation errors,
   * otherwise the configuration with its rate-control group clamped and the
   * extensions dotted, every other field as given.
   */
  function Validated(c: Configuration, parse: string -> U.SplitUrl): (r: Result<Configuration, ConfigError>)
    ensures r == Err(InvalidUrl) <==> !UrlValid(c.basics.url, parse)
    ensures r == Err(KeywordsRequired) <==> UrlValid(c.basics.url, parse) && c.basics.keywords == [] && !c.modes.markdownMode
    ensures r.Ok? ==>
      && r.value.rate.minWorkers <= r.value.rate.initialWorkers <= r.value.rate.maxWorkers
      && r.value.rate.minDelay <= r.value.rate.initialDelay
      && r.value.rate.minDelay <= r.value.rate.maxDelay
      && (r.value.domain.allowedExtensions.Some? ==>
            forall e :: e in r.value.domain.allowedExtensions.value ==> StartsWith(e, "."))
    ensures r.Ok? ==> r.value.(rate := c.rate, domain := c.domain) == c
    ensures r.Ok? ==> r.value.domain.allowSubdomains == c.domain.allowSubdomains
  {
    if !UrlValid(c.basics.url, parse) then Err(InvalidUrl)
    else if c.basics.keywords == [] && !c.modes.markdownMode then Err(KeywordsRequired)
    else
      Ok(c.(rate := ValidatedRate(c.rate),
            domain := c.domain.(allowedExtensions := NormalizedExtensions(c.domain.allowedExtensions))))
  }

  /** `__post_init__`: the checks and reassignments in the source's order. */
  method PostInit(c: Configuration, parse: string -> U.SplitUrl) returns (r: Result<Configuration, ConfigError>)
    ensures r == Validated(c, parse)
  {
    var parsed := parse(c.basics.url);
    if parsed.scheme == [] || parsed.netloc == [] {
      return Err(InvalidUrl);
    }
    if c.basics.keywords == [] && !c.modes.markdownMode {
      return Err(KeywordsRequired);
    }
    var rate := c.rate;
    if rate.minWorkers > rate.maxWorkers {
      rate := rate.(minWorkers := rate.maxWorkers);
    }
    if rate.initialDelay < rate.minDelay {
      rate := rate.(initialDelay := rate.minDelay);
    }
    if rate.minDelay > rate.maxDelay {
      rate := rate.(minDelay := rate.maxDelay);
    }
    rate := rate.(initialWorkers := RateController.MinI(rate.maxWorkers,
                    RateController.MaxI(rate.minWorkers, (rate.minWorkers + rate.maxWorkers) / 2)));
    assert rate == ValidatedRate(c.rate);
    var exts := c.domain.allowedExtensions;
    if exts.Some? && exts.value != {} {
      exts := Some(set e | e in exts.value :: if StartsWith(e, ".") then e else "." + e);
    }
    assert exts == NormalizedExtensions(c.domain.allowedExtensions);
    return Ok(c.(rate := rate, domain := c.domain.(allowedExtensions := exts)));
  }

  /** Because initial_delay is raised before min_delay is lowered, initial_delay can end above max_delay. */
  lemma InitialDelayMayExceedMax(c: Configuration, parse: string -> U.SplitUrl)
    requires UrlValid(c.basics.url, parse) && c.modes.markdownMode
    requires c.rate.initialDelay < c.rate.minDelay && c.rate.maxDelay < c.rate.minDelay
    ensures Validated(c, parse).Ok?
    ensures Validated(c, parse).value.rate.initialDelay > Validated(c, parse).value.rate.maxDelay
  {
  }

  lemma DottedIdempotent(exts: set<string>)
    requires forall e :: e in exts ==> StartsWith(e, ".")
    ensures Dotted(exts) == exts
  {
    forall e | e in Dotted(exts) ensures e in exts {
      var x :| x in exts && e == (if StartsWith(x, ".") then x else "." + x);
    }
  }

  /** Running `__post_init__` on its own result changes nothing. */
  lemma ValidatedIdempotent(c: Configuration, parse: string -> U.SplitUrl)
    requires Validated(c, parse).Ok?
    ensures Validated(Validated(c, parse).value, parse) == Validated(c, parse)
  {
    var d := Validated(c, parse).value;
    assert ClampedRate(d.rate) == d.rate.(initialWorkers := ClampedRate(d.rate).initialWorkers);
    if d.domain.allowedExtensions.Some? && d.domain.allowedExtensions.value != {} {
      DottedIdempotent(d.domain.allowedExtensions.value);
    }
  }

  // ---------------------------------------------------------------------------
  // to_dict / from_dict

  /** The values a field can hold once `asdict` or the JSON decoder has produced it. */
  datatype Value =
    | Str(s: string) | Int(i: int) | Real(x: real) | Bool(b: bool) | Null
    | StrList(items: seq<string>) | StrSet(elems: set<string>)

  /**
   * A dictionary of keyword arguments: for each field name the value stored
   * under it, if any, and the keys that name no field at all.
   */
  datatype Dict = Dict(entry: Field -> Option<Value>, unknownKeys: set<string>)

  /** `list(s)`: the elements of a set in some iteration order, each once. */
  ghost function SetToList(s: set<string>): (r: seq<string>)
    ensures |r| == |s|
    ensures forall x :: x in r <==> x in s
    decreases |s|
  {
    if s == {} then []
    else
      var x :| x in s;
      [x] + SetToList(s - {x})
  }

  function OptStr(o: Option<string>): Value {
    if o.Some? then Str(o.value) else Null
  }

  function OptInt(o: Option<int>): Value {
    if o.Some? then Int(o.value) else Null
  }

  /** `allowed_extensions` in `to_dict`: a non-empty set becomes a list, anything else stays. */
  ghost function ExtensionsValue(o: Option<set<string>>): (r: Value)
    ensures o.Some? && o.value != {} ==> r.StrList? && (set x | x in r.items) == o.value
    ensures o.None? <==> r.Null?
  {
    if o.None? then Null
    else if o.value != {} then StrList(SetToList(o.value))
    else StrSet(o.value)
  }

  /** The value `asdict` stores under each field name. */
  ghost function Encode(c: Configuration, f: Field): Value {
    match f
    case Url => Str(c.basics.url)
    case OutputFile => Str(c.basics.outputFile)
    case Keywords => StrList(c.basics.keywords)
    case MaxPages => OptInt(c.basics.maxPages)
    case PathPrefix => OptStr(c.basics.pathPrefix)
    case Headless => Bool(c.browser.headless)
    case WebdriverPath => OptStr(c.browser.webdriverPath)
    case MaxRestarts => Int(c.browser.maxRestarts)
    case Resume => Bool(c.checkpoint.resume)
    case CheckpointInterval => Int(c.checkpoint.checkpointInterval)
    case MinWorkers => Int(c.rate.minWorkers)
    case MaxWorkers => Int(c.rate.maxWorkers)
    case InitialWorkers => Int(c.rate.initialWorkers)
    case MinDelay => Real(c.rate.minDelay)
    case MaxDelay => Real(c.rate.maxDelay)
    case InitialDelay => Real(c.rate.initialDelay)
    case AdaptiveRateControl => Bool(c.rate.adaptiveRateControl)
    case AggressiveThrottling => Bool(c.rate.aggressiveThrottling)
    case ResponseWindowSize => Int(c.rate.responseWindowSize)
    case IncludeHeaders => Bool(c.content.includeHeaders)
    case IncludeMenus => Bool(c.content.includeMenus)
    case IncludeFooters => Bool(c.content.includeFooters)
    case IncludeSidebars => Bool(c.content.includeSidebars)
    case ExcludeSelectors => StrList(c.content.excludeSelectors)
    case AllowSubdomains => Bool(c.domain.allowSubdomains)
    case AllowedExtensions => ExtensionsValue(c.domain.allowedExtensions)
    case SpaMode => Bool(c.modes.spaMode)
    case MarkdownMode => Bool(c.modes.markdownMode)
    case IncludeAllContent => Bool(c.modes.includeAllContent)
  }

  /** `to_dict`: every field under its own name, a non-empty extension set as a list. */
  ghost function ToDict(c: Configuration): (d: Dict)
    ensures d.unknownKeys == {}
    ensures forall f :: d.entry(f) == Some(Encode(c, f))
  {
    Dict(f => Some(Encode(c, f)), {})
  }

  // Reading one keyword argument: an absent key takes the dataclass default.

  /** The kinds of value the model reads for each field: the field's declared type. */
  predicate Accepts(f: Field, v: Value) {
    match f
    case Url | OutputFile => v.Str?
    case Keywords | ExcludeSelectors => v.StrList?
    case MaxPages => v.Int? || v.Null?
    case PathPrefix | WebdriverPath => v.Str? || v.Null?
    case MaxRestarts | CheckpointInterval | MinWorkers | MaxWorkers | InitialWorkers | ResponseWindowSize => v.Int?
    case MinDelay | MaxDelay | InitialDelay => v.Real? || v.Int?
    case AllowedExtensions => v.StrList? || v.StrSet? || v.Null?
    case Headless | Resume | AdaptiveRateControl | AggressiveThrottling | IncludeHeaders | IncludeMenus
       | IncludeFooters | IncludeSidebars | AllowSubdomains | SpaMode | MarkdownMode | IncludeAllContent => v.Bool?
  }

  /** The field is absent or holds a value of its type. */
  predicate Readable(d: Dict, f: Field) {
    d.entry(f).None? || Accepts(f, d.entry(f).value)
  }

  function GetStr(d: Dict, f: Field, default: string): (r: Result<string, ConfigError>)
    ensures r.Err? ==> r.error == WrongType(f)
    ensures r.Ok? <==> d.entry(f).None? || d.entry(f).value.Str?
    ensures d.entry(f).Some? && d.entry(f).value.Str? ==> r == Ok(d.entry(f).value.s)
    ensures d.entry(f).None? ==> r == Ok(default)
  {
    if d.entry(f).None? then Ok(default)
    else if d.entry(f).value.Str? then Ok(d.entry(f).value.s)
    else Err(WrongType(f))
  }

  function GetOptStr(d: Dict, f: Field): (r: Result<Option<string>, ConfigError>)
    ensures r.Err? ==> r.error == WrongType(f)
    ensures d.entry(f).Some? ==> (r.Ok? <==> d.entry(f).value.Str? || d.entry(f).value.Null?)
    ensures d.entry(f).Some? && r.Ok? ==> OptStr(r.value) == d.entry(f).value
    ensures d.entry(f).None? ==> r == Ok(None)
  {
    if d.entry(f).None? then Ok(None)
    else match d.entry(f).value
      case Str(s) => Ok(Some(s))
      case Null => Ok(None)
      case _ => Err(WrongType(f))
  }

  function GetInt(d: Dict, f: Field, default: int): (r: Result<int, ConfigError>)
    ensures r.Err? ==> r.error == WrongType(f)
    ensures r.Ok? <==> d.entry(f).None? || d.entry(f).value.Int?
    ensures d.entry(f).Some? && d.entry(f).value.Int? ==> r == Ok(d.entry(f).value.i)
    ensures d.entry(f).None? ==> r == Ok(default)
  {
    if d.entry(f).None? then Ok(default)
    else if d.entry(f).value.Int? then Ok(d.entry(f).value.i)
    else Err(WrongType(f))
  }

  function GetOptInt(d: Dict, f: Field): (r: Result<Option<int>, ConfigError>)
    ensures r.Err? ==> r.error == WrongType(f)
    ensures d.entry(f).Some? ==> (r.Ok? <==> d.entry(f).value.Int? || d.entry(f).value.Null?)
    ensures d.entry(f).Some? && r.Ok? ==> OptInt(r.value) == d.entry(f).value
    ensures d.entry(f).None? ==> r == Ok(None)
  {
    if d.entry(f).None? then Ok(None)
    else match d.entry(f).value
      case Int(i) => Ok(Some(i))
      case Null => Ok(None)
      case _ => Err(WrongType(f))
  }

  /** A JSON number for a float field may be written without a fraction. */
  function GetReal(d: Dict, f: Field, default: real): (r: Result<real, ConfigError>)
    ensures r.Err? ==> r.error == WrongType(f)
    ensures r.Ok? <==> d.entry(f).None? || d.entry(f).value.Real? || d.entry(f).value.Int?
    ensures d.entry(f).Some? && d.entry(f).value.Real? ==> r == Ok(d.entry(f).value.x)
    ensures d.entry(f).Some? && d.entry(f).value.Int? ==> r == Ok(d.entry(f).value.i as real)
    ensures d.entry(f).None? ==> r == Ok(default)
  {
    if d.entry(f).None? then Ok(default)
    else match d.entry(f).value
      case Real(x) => Ok(x)
      case Int(i) => Ok(i as real)
      case _ => Err(WrongType(f))
  }

  function GetBool(d: Dict, f: Field, default: bool): (r: Result<bool, ConfigError>)
    ensures r.Err? ==> r.error == WrongType(f)
    ensures r.Ok? <==> d.entry(f).None? || d.entry(f).value.Bool?
    ensures d.entry(f).Some? && d.entry(f).value.Bool? ==> r == Ok(d.entry(f).value.b)
    ensures d.entry(f).None? ==> r == Ok(default)
  {
    if d.entry(f).None? then Ok(default)
    else if d.entry(f).value.Bool? then Ok(d.entry(f).value.b)
    else Err(WrongType(f))
  }

  function GetList(d: Dict, f: Field): (r: Result<seq<string>, ConfigError>)
    ensures r.Err? ==> r.error == WrongType(f)
    ensures r.Ok? <==> d.entry(f).None? || d.entry(f).value.StrList?
    ensures d.entry(f).Some? && d.entry(f).value.StrList? ==> r == Ok(d.entry(f).value.items)
    ensures d.entry(f).None? ==> r == Ok([])
  {
    if d.entry(f).None? then Ok([])
    else if d.entry(f).value.StrList? then Ok(d.entry(f).value.items)
    else Err(WrongType(f))
  }

  /** `from_dict` turns a list of extensions back into a set. */
  function GetExtensions(d: Dict): (r: Result<Option<set<string>>, ConfigError>)
    ensures r.Err? ==> r.error == WrongType(AllowedExtensions)
    ensures d.entry(AllowedExtensions).Some? && d.entry(AllowedExtensions).value.StrList? ==>
      r == Ok(Some(set x | x in d.entry(AllowedExtensions).value.items))
    ensures d.entry(AllowedExtensions).Some? && d.entry(AllowedExtensions).value.StrSet? ==>
      r == Ok(Some(d.entry(AllowedExtensions).value.elems))
    ensures d.entry(AllowedExtensions).None? || d.entry(AllowedExtensions).value.Null? ==> r == Ok(None)
    ensures r.Ok? <==> Readable(d, AllowedExtensions)
  {
    if d.entry(AllowedExtensions).None? then Ok(None)
    else match d.entry(AllowedExtensions).value
      case StrList(items) => Ok(Some(set x | x in items))
      case StrSet(elems) => Ok(Some(elems))
      case Null => Ok(None)
      case _ => Err(WrongType(AllowedExtensions))
  }

  // The keyword arguments of the constructor, one group at a time, with the dataclass defaults.

  function DecodeBasics(d: Dict): (r: Result<Basics, ConfigError>)
    ensures r.Err? ==> r.error.WrongType? && !Readable(d, r.error.field)
    ensures r.Ok? <==> Readable(d, Url) && Readable(d, OutputFile) && Readable(d, Keywords) && Readable(d, MaxPages) && Readable(d, PathPrefix)
  {
    var url :- GetStr(d, Url, "");
    var outputFile :- GetStr(d, OutputFile, "keyword_report.csv");
    var keywords :- GetList(d, Keywords);
    var maxPages :- GetOptInt(d, MaxPages);
    var pathPrefix :- GetOptStr(d, PathPrefix);
    Ok(Basics(url, outputFile, keywords, maxPages, pathPrefix))
  }

  function DecodeBrowser(d: Dict): (r: Result<BrowserSettings, ConfigError>)
    ensures r.Err? ==> r.error.WrongType? && !Readable(d, r.error.field)
    ensures r.Ok? <==> Readable(d, Headless) && Readable(d, WebdriverPath) && Readable(d, MaxRestarts)
  {
    var headless :- GetBool(d, Headless, true);
    var webdriverPath :- GetOptStr(d, WebdriverPath);
    var maxRestarts :- GetInt(d, MaxRestarts, 3);
    Ok(BrowserSettings(headless, webdriverPath, maxRestarts))
  }

  function DecodeCheckpoint(d: Dict): (r: Result<CheckpointSettings, ConfigError>)
    ensures r.Err? ==> r.error.WrongType? && !Readable(d, r.error.field)
    ensures r.Ok? <==> Readable(d, Resume) && Readable(d, CheckpointInterval)
  {
    var resume :- GetBool(d, Resume, false);
    var checkpointInterval :- GetInt(d, CheckpointInterval, 10);
    Ok(CheckpointSettings(resume, checkpointInterval))
  }

  function DecodeRate(d: Dict): (r: Result<RateSettings, ConfigError>)
    ensures r.Err? ==> r.error.WrongType? && !Readable(d, r.error.field)
    ensures r.Ok? <==> Readable(d, MinWorkers) && Readable(d, MaxWorkers) && Readable(d, InitialWorkers) && Readable(d, MinDelay) && Readable(d, MaxDelay) && Readable(d, InitialDelay) && Readable(d, AdaptiveRateControl) && Readable(d, AggressiveThrottling) && Readable(d, ResponseWindowSize)
  {
    var (minWorkers, maxWorkers, initialWorkers) :- DecodeWorkers(d);
    var (minDelay, maxDelay, initialDelay) :- DecodeDelays(d);
    var (adaptiveRateControl, aggressiveThrottling, responseWindowSize) :- DecodeRateFlags(d);
    Ok(RateSettings(minWorkers, maxWorkers, initialWorkers, minDelay, maxDelay, initialDelay,
                    adaptiveRateControl, aggressiveThrottling, responseWindowSize))
  }

  function DecodeWorkers(d: Dict): (r: Result<(int, int, int), ConfigError>)
    ensures r.Err? ==> r.error.WrongType? && !Readable(d, r.error.field)
    ensures r.Ok? <==> Readable(d, MinWorkers) && Readable(d, MaxWorkers) && Readable(d, InitialWorkers)
  {
    var minWorkers :- GetInt(d, MinWorkers, 1);
    var maxWorkers :- GetInt(d, MaxWorkers, 8);
    var initialWorkers :- GetInt(d, InitialWorkers, 4);
    Ok((minWorkers, maxWorkers, initialWorkers))
  }

  function DecodeDelays(d: Dict): (r: Result<(real, real, real), ConfigError>)
    ensures r.Err? ==> r.error.WrongType? && !Readable(d, r.error.field)
    ensures r.Ok? <==> Readable(d, MinDelay) && Readable(d, MaxDelay) && Readable(d, InitialDelay)
  {
    var minDelay :- GetReal(d, MinDelay, 0.5);
    var maxDelay :- GetReal(d, MaxDelay, 30.0);
    var initialDelay :- GetReal(d, InitialDelay, 1.0);
    Ok((minDelay, maxDelay, initialDelay))
  }

  function DecodeRateFlags(d: Dict): (r: Result<(bool, bool, int), ConfigError>)
    ensures r.Err? ==> r.error.WrongType? && !Readable(d, r.error.field)
    ensures r.Ok? <==> Readable(d, AdaptiveRateControl) && Readable(d, AggressiveThrottling) && Readable(d, ResponseWindowSize)
  {
    var adaptiveRateControl :- GetBool(d, AdaptiveRateControl, true);
    var aggressiveThrottling :- GetBool(d, AggressiveThrottling, false);
    var responseWindowSize :- GetInt(d, ResponseWindowSize, 20);
    Ok((adaptiveRateControl, aggressiveThrottling, responseWindowSize))
  }

  function DecodeContent(d: Dict): (r: Result<ContentSettings, ConfigError>)
    ensures r.Err? ==> r.error.WrongType? && !Readable(d, r.error.field)
    ensures r.Ok? <==> Readable(d, IncludeHeaders) && Readable(d, IncludeMenus) && Readable(d, IncludeFooters) && Readable(d, IncludeSidebars) && Readable(d, ExcludeSelectors)
  {
    var includeHeaders :- GetBool(d, IncludeHeaders, false);
    var includeMenus :- GetBool(d, IncludeMenus, false);
    var includeFooters :- GetBool(d, IncludeFooters, false);
    var includeSidebars :- GetBool(d, IncludeSidebars, false);
    var excludeSelectors :- GetList(d, ExcludeSelectors);
    Ok(ContentSettings(includeHeaders, includeMenus, includeFooters, includeSidebars, excludeSelectors))
  }

  function DecodeDomain(d: Dict): (r: Result<DomainSettings, ConfigError>)
    ensures r.Err? ==> r.error.WrongType? && !Readable(d, r.error.field)
    ensures r.Ok? <==> Readable(d, AllowSubdomains) && Readable(d, AllowedExtensions)
  {
    var allowSubdomains :- GetBool(d, AllowSubdomains, false);
    var allowedExtensions :- GetExtensions(d);
    Ok(DomainSettings(allowSubdomains, allowedExtensions))
  }

  function DecodeModes(d: Dict): (r: Result<Modes, ConfigError>)
    ensures r.Err? ==> r.error.WrongType? && !Readable(d, r.error.field)
    ensures r.Ok? <==> Readable(d, SpaMode) && Readable(d, MarkdownMode) && Readable(d, IncludeAllContent)
  {
    var spaMode :- GetBool(d, SpaMode, false);
    var markdownMode :- GetBool(d, MarkdownMode, false);
    var includeAllContent :- GetBool(d, IncludeAllContent, false);
    Ok(Modes(spaMode, markdownMode, includeAllContent))
  }

  /**
   * `from_dict`: an unknown key or a missing url is a TypeError of the
   * constructor; otherwise the fields are read and `__post_init__` runs.
   */
  function FromDict(d: Dict, parse: string -> U.SplitUrl): (r: Result<Configuration, ConfigError>)
    ensures d.unknownKeys != {} ==> r == Err(UnexpectedField)
    ensures d.unknownKeys == {} && d.entry(Url).None? ==> r == Err(MissingUrl)
    ensures r.Err? ==> !r.error.FileNotFound? && !r.error.InvalidJson?
    ensures r.Ok? ==> UrlValid(r.value.basics.url, parse) && Validated(r.value, parse) == r
    ensures r.Err? && r.error.WrongType? ==> !Readable(d, r.error.field)
    ensures d.unknownKeys == {} && d.entry(Url).Some? && (forall f :: Readable(d, f)) ==>
      r.Ok? || r == Err(InvalidUrl) || r == Err(KeywordsRequired)
  {
    if d.unknownKeys != {} then Err(UnexpectedField)
    else if d.entry(Url).None? then Err(MissingUrl)
    else
      var basics :- DecodeBasics(d);
      var browser :- DecodeBrowser(d);
      var checkpoint :- DecodeCheckpoint(d);
      var rate :- DecodeRate(d);
      var content :- DecodeContent(d);
      var domain :- DecodeDomain(d);
      var modes :- DecodeModes(d);
      var c := Configuration(basics, browser, checkpoint, rate, content, domain, modes);
      if Validated(c, parse).Ok? then
        ValidatedIdempotent(c, parse);
        Validated(c, parse)
      else
        Validated(c, parse)
  }

  lemma DecodeEncodedBasics(c: Configuration)
    ensures DecodeBasics(ToDict(c)) == Ok(c.basics)
  {
  }

  lemma DecodeEncodedBrowser(c: Configuration)
    ensures DecodeBrowser(ToDict(c)) == Ok(c.browser)
  {
  }

  lemma DecodeEncodedCheckpoint(c: Configuration)
    ensures DecodeCheckpoint(ToDict(c)) == Ok(c.checkpoint)
  {
  }

  lemma EncodedWorkers(c: Configuration)
    ensures GetInt(ToDict(c), MinWorkers, 1) == Ok(c.rate.minWorkers)
    ensures GetInt(ToDict(c), MaxWorkers, 8) == Ok(c.rate.maxWorkers)
    ensures GetInt(ToDict(c), InitialWorkers, 4) == Ok(c.rate.initialWorkers)
  {
  }

  lemma EncodedDelays(c: Configuration)
    ensures GetReal(ToDict(c), MinDelay, 0.5) == Ok(c.rate.minDelay)
    ensures GetReal(ToDict(c), MaxDelay, 30.0) == Ok(c.rate.maxDelay)
    ensures GetReal(ToDict(c), InitialDelay, 1.0) == Ok(c.rate.initialDelay)
  {
  }

  lemma EncodedRateFlags(c: Configuration)
    ensures GetBool(ToDict(c), AdaptiveRateControl, true) == Ok(c.rate.adaptiveRateControl)
    ensures GetBool(ToDict(c), AggressiveThrottling, false) == Ok(c.rate.aggressiveThrottling)
    ensures GetInt(ToDict(c), ResponseWindowSize, 20) == Ok(c.rate.responseWindowSize)
  {
  }

  lemma DecodeEncodedRate(c: Configuration)
    ensures DecodeRate(ToDict(c)) == Ok(c.rate)
  {
    EncodedWorkers(c);
    EncodedDelays(c);
    EncodedRateFlags(c);
  }

  lemma EncodedInclusions(c: Configuration)
    ensures GetBool(ToDict(c), IncludeHeaders, false) == Ok(c.content.includeHeaders)
    ensures GetBool(ToDict(c), IncludeMenus, false) == Ok(c.content.includeMenus)
    ensures GetBool(ToDict(c), IncludeFooters, false) == Ok(c.content.includeFooters)
    ensures GetBool(ToDict(c), IncludeSidebars, false) == Ok(c.content.includeSidebars)
  {
  }

  lemma DecodeEncodedContent(c: Configuration)
    ensures DecodeContent(ToDict(c)) == Ok(c.content)
  {
    EncodedInclusions(c);
    assert GetList(ToDict(c), ExcludeSelectors) == Ok(c.content.excludeSelectors);
  }

  /** `set(list(s)) == s`: the extension set survives the detour through a list. */
  lemma DecodeEncodedDomain(c: Configuration)
    ensures DecodeDomain(ToDict(c)) == Ok(c.domain)
  {
    var d := ToDict(c);
    assert GetBool(d, AllowSubdomains, false) == Ok(c.domain.allowSubdomains);
    ExtensionsDecode(d, c.domain.allowedExtensions);
  }

  /** The value `to_dict` writes for the extension set reads back as that set. */
  lemma ExtensionsDecode(d: Dict, o: Option<set<string>>)
    requires d.entry(AllowedExtensions) == Some(ExtensionsValue(o))
    ensures GetExtensions(d) == Ok(o)
  {
    if o.Some? && o.value != {} {
      assert (set x | x in ExtensionsValue(o).items) == o.value;
    }
  }

  lemma DecodeEncodedModes(c: Configuration)
    ensures DecodeModes(ToDict(c)) == Ok(c.modes)
  {
    var d := ToDict(c);
    assert GetBool(d, SpaMode, false) == Ok(c.modes.spaMode);
    assert GetBool(d, MarkdownMode, false) == Ok(c.modes.markdownMode);
    assert GetBool(d, IncludeAllContent, false) == Ok(c.modes.includeAllContent);
  }

  /** Reading back what `to_dict` wrote gives the same field values, then `__post_init__` runs. */
  lemma DecodeEncoded(c: Configuration, parse: string -> U.SplitUrl)
    ensures FromDict(ToDict(c), parse) == Validated(c, parse)
  {
    DecodeEncodedBasics(c);
    DecodeEncodedBrowser(c);
    DecodeEncodedCheckpoint(c);
    DecodeEncodedRate(c);
    DecodeEncodedContent(c);
    DecodeEncodedDomain(c);
    DecodeEncodedModes(c);
  }

  /** `from_dict(to_dict(c)) == c` for every configuration `__post_init__` produced. */
  lemma DictRoundTrip(c: Configuration, parse: string -> U.SplitUrl)
    requires Validated(c, parse).Ok?
    ensures FromDict(ToDict(Validated(c, parse).value), parse) == Validated(c, parse)
  {
    DecodeEncoded(Validated(c, parse).value, parse);
    ValidatedIdempotent(c, parse);
  }

  // ---------------------------------------------------------------------------
  // load_config

  /** What reading the configuration file yields: nothing, undecodable text, or a JSON object. */
  datatype FileContent = Missing | Malformed | Json(obj: Dict)

  /** `load_config`: a missing file, bad JSON or an object without "url" is refused before construction. */
  function LoadConfig(file: FileContent, parse: string -> U.SplitUrl): (r: Result<Configuration, ConfigError>)
    ensures file.Missing? <==> r == Err(FileNotFound)
    ensures file.Malformed? <==> r == Err(InvalidJson)
    ensures file.Json? && file.obj.entry(Url).None? ==> r == Err(MissingUrl)
    ensures file.Json? && file.obj.entry(Url).Some? ==> r == FromDict(file.obj, parse)
  {
    match file
    case Missing => Err(FileNotFound)
    case Malformed => Err(InvalidJson)
    case Json(obj) =>
      if obj.entry(Url).None? then Err(MissingUrl)
      else FromDict(obj, parse)
  }
}
