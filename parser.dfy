/**
 * Page categorisation (spider/content/parser.py, `determine_page_category`).
 *
 * The page arrives as the path of its URL, its visible text and the texts of
 * its h1/h2 headings, which BeautifulSoup would extract. A URL pattern decides
 * first; only when none matches are the category terms counted in the text.
 */
module Parser {
  import opened Wrappers
  import opened Strings

  datatype Category = Products | Solutions | Documentation | Blog | Faq | Help | Misc

  /** The categories in the order they are tested and scored. */
  const Scored: seq<Category> := [Products, Solutions, Documentation, Blog, Faq, Help]

  function Name(c: Category): string {
    match c
    case Products => "products"
    case Solutions => "solutions"
    case Documentation => "documentation"
    case Blog => "blog"
    case Faq => "faq"
    case Help => "help"
    case Misc => "misc"
  }

  /** The path fragments that place a URL in a category. */
  function Segments(c: Category): seq<string> {
    match c
    case Products => ["/product", "/products"]
    case Solutions => ["/solution", "/solutions"]
    case Documentation => ["/doc", "/docs", "/documentation", "/guide", "/guides", "/manual"]
    case Blog => ["/blog", "/news", "/article", "/articles"]
    case Faq => ["/faq", "/faqs", "/question", "/questions"]
    case Help => ["/help", "/support", "/troubleshoot"]
    case Misc => []
  }

  /** The words counted in the page text for a category. */
  function Terms(c: Category): (r: seq<string>)
    ensures forall k :: 0 <= k < |r| ==> r[k] != []
  {
    match c
    case Products => ["product", "feature", "capability", "buy", "purchase", "pricing", "edition", "license"]
    case Solutions => ["solution", "service", "approach", "methodology", "framework", "platform", "integrate"]
    case Documentation =>
      ["documentation", "guide", "reference", "manual", "tutorial", "instruction", "implementation"]
    case Blog => ["blog", "post", "article", "news", "update", "published", "author", "date"]
    case Faq => ["faq", "question", "answer", "frequently asked", "common question", "troubleshoot"]
    case Help => ["help", "support", "contact us", "assistance", "ticket", "troubleshoot"]
    case Misc => []
  }

  /** `any(p in s for p in patterns)`. */
  predicate AnyIn(s: string, patterns: seq<string>) {
    exists k :: 0 <= k < |patterns| && Contains(s, patterns[k])
  }

  // ---------------------------------------------------------------------------
  // URL-based categorisation

  /** The index of the first category among `cats` one of whose segments occurs in `path`. */
  function FirstUrlMatch(path: string, cats: seq<Category>): (r: Option<nat>)
    ensures r.Some? ==> r.value < |cats| && AnyIn(path, Segments(cats[r.value]))
    ensures r.Some? ==> forall j :: 0 <= j < r.value ==> !AnyIn(path, Segments(cats[j]))
    ensures r.None? <==> forall j :: 0 <= j < |cats| ==> !AnyIn(path, Segments(cats[j]))
  {
    if cats == [] then None
    else if AnyIn(path, Segments(cats[0])) then Some(0)
    else
      var rest := FirstUrlMatch(path, cats[1..]);
      assert forall j :: 0 < j < |cats| ==> cats[j] == cats[1..][j - 1];
      match rest
      case None => None
      case Some(i) => Some(i + 1)
  }

  /** The category the lowercased URL path alone decides, if any. */
  function UrlCategory(path: string): (r: Option<Category>)
    ensures r.Some? ==> r.value != Misc
    ensures r.Some? ==>
      exists i :: 0 <= i < |Scored| && Scored[i] == r.value
        && AnyIn(Lower(path), Segments(Scored[i]))
        && forall j :: 0 <= j < i ==> !AnyIn(Lower(path), Segments(Scored[j]))
    ensures r.None? <==> forall j :: 0 <= j < |Scored| ==> !AnyIn(Lower(path), Segments(Scored[j]))
  {
    match FirstUrlMatch(Lower(path), Scored)
    case None => None
    case Some(i) => Some(Scored[i])
  }

  /** Segments are substrings, not path components: "/doctor" is documentation. */
  lemma DocMatchesDoctor()
    ensures UrlCategory("/Doctor") == Some(Documentation)
  {
    assert Lower("/Doctor") == "/doctor";
    DoctorSegments();
    ThirdCategoryMatches("/doctor");
  }

  /** Of the first three categories' segments, only documentation's "/doc" occurs in "/doctor". */
  lemma DoctorSegments()
    ensures !AnyIn("/doctor", Segments(Products)) && !AnyIn("/doctor", Segments(Solutions))
    ensures AnyIn("/doctor", Segments(Documentation))
  {
    ContainsAt("/doctor", "/doc", 0);
    forall k | 0 <= k < 2 ensures !Contains("/doctor", Segments(Products)[k]) {
      NotInDoctor(Segments(Products)[k]);
    }
    forall k | 0 <= k < 2 ensures !Contains("/doctor", Segments(Solutions)[k]) {
      NotInDoctor(Segments(Solutions)[k]);
    }
    assert Contains("/doctor", Segments(Documentation)[0]);
  }

  /** A path matching documentation but neither products nor solutions is found at the third place. */
  lemma ThirdCategoryMatches(p: string)
    requires !AnyIn(p, Segments(Products)) && !AnyIn(p, Segments(Solutions)) && AnyIn(p, Segments(Documentation))
    ensures FirstUrlMatch(p, Scored) == Some(2)
  {
    assert Scored[2..][0] == Documentation;
    assert FirstUrlMatch(p, Scored[2..]) == Some(0);
    assert Scored[1..][0] == Solutions && Scored[1..][1..] == Scored[2..];
    assert FirstUrlMatch(p, Scored[1..]) == Some(1);
  }

  /** "/doctor" holds no fragment that starts with a slash and a letter other than 'd'. */
  lemma NotInDoctor(sub: string)
    requires |sub| >= 2 && sub[0] == '/' && sub[1] != 'd'
    ensures !Contains("/doctor", sub)
  {
    if Contains("/doctor", sub) {
      var i := ContainsWitness("/doctor", sub);
    }
  }

  // ---------------------------------------------------------------------------
  // Content-based categorisation

  /** `sum(text.count(t) for t in terms)`. */
  function TermTotal(text: string, terms: seq<string>): nat
    requires forall k :: 0 <= k < |terms| ==> terms[k] != []
  {
    if terms == [] then 0
    else TermTotal(text, terms[..|terms| - 1]) + Count(text, terms[|terms| - 1])
  }

  /** How many of the lowercased headers contain one of `terms`. */
  function HeaderHits(headers: seq<string>, terms: seq<string>): nat {
    if headers == [] then 0
    else HeaderHits(headers[..|headers| - 1], terms) + (if AnyIn(Lower(headers[|headers| - 1]), terms) then 1 else 0)
  }

  /** A category's score: its term occurrences in the text, plus 5 per matching header. */
  function Score(c: Category, text: string, headers: seq<string>): nat {
    TermTotal(Lower(text), Terms(c)) + 5 * HeaderHits(headers, Terms(c))
  }

  /** The term occurrences of one category in the lowercased text. */
  method CountTerms(lowered: string, terms: seq<string>) returns (score: nat)
    requires forall k :: 0 <= k < |terms| ==> terms[k] != []
    ensures score == TermTotal(lowered, terms)
  {
    score := 0;
    for k := 0 to |terms|
      invariant score == TermTotal(lowered, terms[..k])
    {
      assert terms[..k + 1][..k] == terms[..k];
      score := score + Count(lowered, terms[k]);
    }
    assert terms[..|terms|] == terms;
  }

  /** One pass of the header loop: 5 more for every category with a term in this header. */
  method AddHeaderBonus(scores: seq<nat>, header: string) returns (scores': seq<nat>)
    requires |scores| == |Scored|
    ensures |scores'| == |Scored|
    ensures forall j :: 0 <= j < |Scored| ==>
      scores'[j] == scores[j] + (if AnyIn(Lower(header), Terms(Scored[j])) then 5 else 0)
  {
    var lowered := Lower(header);
    scores' := scores;
    for i := 0 to |Scored|
      invariant |scores'| == |Scored|
      invariant forall j :: 0 <= j < i ==>
        scores'[j] == scores[j] + (if AnyIn(lowered, Terms(Scored[j])) then 5 else 0)
      invariant forall j :: i <= j < |Scored| ==> scores'[j] == scores[j]
    {
      if AnyIn(lowered, Terms(Scored[i])) {
        scores' := scores'[i := scores'[i] + 5];
      }
    }
  }

  /** The score of every category, accumulated as `determine_page_category` does. */
  method CategoryScores(text: string, headers: seq<string>) returns (scores: seq<nat>)
    ensures |scores| == |Scored|
    ensures forall i :: 0 <= i < |Scored| ==> scores[i] == Score(Scored[i], text, headers)
  {
    var lowered := Lower(text);
    scores := [];
    for i := 0 to |Scored|
      invariant |scores| == i
      invariant forall j :: 0 <= j < i ==> scores[j] == TermTotal(lowered, Terms(Scored[j]))
    {
      var score := CountTerms(lowered, Terms(Scored[i]));
      scores := scores + [score];
    }
    for h := 0 to |headers|
      invariant |scores| == |Scored|
      invariant forall j :: 0 <= j < |Scored| ==>
        scores[j] == TermTotal(lowered, Terms(Scored[j])) + 5 * HeaderHits(headers[..h], Terms(Scored[j]))
    {
      assert headers[..h + 1][..h] == headers[..h];
      scores := AddHeaderBonus(scores, headers[h]);
    }
    assert headers[..|headers|] == headers;
  }

  /** `max(items, key=score)`: the first index holding the largest score. */
  function FirstMax(scores: seq<nat>): (r: nat)
    requires scores != []
    ensures r < |scores|
    ensures forall j :: 0 <= j < |scores| ==> scores[j] <= scores[r]
    ensures forall j :: 0 <= j < r ==> scores[j] < scores[r]
  {
    if |scores| == 1 then 0
    else
      var m := FirstMax(scores[..|scores| - 1]);
      if scores[|scores| - 1] > scores[m] then |scores| - 1 else m
  }

  /** `c` holds the top score, and every category scored before it holds less. */
  predicate FirstBest(c: Category, text: string, headers: seq<string>) {
    exists k :: 0 <= k < |Scored| && Scored[k] == c
      && (forall i :: 0 <= i < |Scored| ==> Score(Scored[i], text, headers) <= Score(c, text, headers))
      && (forall i :: 0 <= i < k ==> Score(Scored[i], text, headers) < Score(c, text, headers))
  }

  /** The content-based half: the top-scoring category (earliest on ties) if it scores above 5, else misc. */
  method ContentCategory(text: string, headers: seq<string>) returns (category: Category)
    ensures category == Misc <==> forall i :: 0 <= i < |Scored| ==> Score(Scored[i], text, headers) <= 5
    ensures category != Misc ==> FirstBest(category, text, headers)
  {
    var scores := CategoryScores(text, headers);
    var best := FirstMax(scores);
    TopScore(scores, best, text, headers);
    if scores[best] > 5 {
      category := Scored[best];
    } else {
      category := Misc;
    }
  }

  /** The first maximum of the category scores names the best category, and its score is the top one. */
  lemma TopScore(scores: seq<nat>, best: nat, text: string, headers: seq<string>)
    requires |scores| == |Scored| && forall i :: 0 <= i < |Scored| ==> scores[i] == Score(Scored[i], text, headers)
    requires best < |scores| && forall j :: 0 <= j < |scores| ==> scores[j] <= scores[best]
    requires forall j :: 0 <= j < best ==> scores[j] < scores[best]
    ensures Scored[best] != Misc && FirstBest(Scored[best], text, headers)
    ensures scores[best] <= 5 <==> forall i :: 0 <= i < |Scored| ==> Score(Scored[i], text, headers) <= 5
  {
    assert Scored[best] in Scored;
  }

  /**
   * `determine_page_category`: the first URL pattern hit, otherwise the
   * best-scoring category (earliest on ties) when its score exceeds 5,
   * otherwise misc.
   */
  method DeterminePageCategory(path: string, text: string, headers: seq<string>) returns (category: Category)
    ensures UrlCategory(path).Some? ==> category == UrlCategory(path).value
    ensures UrlCategory(path).None? ==>
      (category == Misc <==> forall i :: 0 <= i < |Scored| ==> Score(Scored[i], text, headers) <= 5)
    ensures UrlCategory(path).None? && category != Misc ==> FirstBest(category, text, headers)
  {
    var fromUrl := UrlCategory(path);
    if fromUrl.Some? {
      return fromUrl.value;
    }
    category := ContentCategory(text, headers);
  }
}
