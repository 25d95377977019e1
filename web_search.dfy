/**
 * The web-search helper: choice of search backend (Tavily or Google through
 * SerpAPI), the ChildSafe relevance filter applied to the raw results, the
 * fixed answers for the empty, no-match and error cases, and the markdown
 * summary built from the kept articles.
 *
 * The two search clients are external: each is a function from
 * (query, max_results) to the reply the client returns.
 */
module WebSearch {
  import opened Wrappers
  import opened Text

  /**
   * One search result, a Python dict. Each field is `None` when the key is
   * absent; Tavily results carry `url` and `content`, Google results `link`
   * and `snippet`, but any combination is accepted.
   */
  datatype Article = Article(
    title: Option<string>,
    url: Option<string>,
    link: Option<string>,
    content: Option<string>,
    snippet: Option<string>)

  /** The dict `{query, answer, articles}` every search function returns. */
  datatype SearchResult = SearchResult(query: string, answer: string, articles: seq<Article>)

  /** What `GoogleSearch(...).get_dict()` produced: a dict, or an exception with its message. */
  datatype GoogleReply =
    | Raised(message: string)
    | Payload(organicResults: Option<seq<Article>>)

  /** The two external search clients. `tavily` gives `results.get("results")`. */
  datatype Backends = Backends(
    tavily: (string, int) -> Option<seq<Article>>,
    google: (string, int) -> GoogleReply)

  /** `SEARCH_MODE` (fixed at import time) and the two API keys from the environment. */
  datatype Config = Config(searchMode: string, serpApiKey: Option<string>, tavilyApiKey: Option<string>)

  datatype Backend = Tavily | Google

  const NoArticlesFound := "No relevant articles found."
  const NoChildSafeInfo := "No relevant ChildSafe South Africa information found."
  const NoSearchResults := "No search results found."
  const SearchErrorPrefix := "Search error: "
  const NoKeysConfigured := "No search API keys configured. Please set SERPAPI_API_KEY or TAVILY_API_KEY."

  // ---------------------------------------------------------------------------
  // SEARCH_MODE and backend routing
  // ---------------------------------------------------------------------------

  /**
   * `SEARCH_MODE` after the module is imported: the lower-cased environment
   * value (default "tavily"), switched to "google" when it is "tavily" but the
   * Tavily client cannot be imported.
   */
  function SearchModeAtImport(env: Option<string>, tavilyImportable: bool): (mode: string)
    ensures mode == Lower(env.GetOr("tavily")) || mode == "google"
    ensures mode != Lower(env.GetOr("tavily")) <==> Lower(env.GetOr("tavily")) == "tavily" && !tavilyImportable
    ensures env == None && tavilyImportable ==> mode == "tavily"
  {
    var requested := Lower(env.GetOr("tavily"));
    if requested == "tavily" && !tavilyImportable then "google" else requested
  }

  /** An environment variable is truthy: set and not empty. */
  predicate KeySet(key: Option<string>) {
    key.Some? && key.value != ""
  }

  datatype Route = ViaGoogle | ViaTavily | Unconfigured

  /** The backend `search_articles` calls; the other backend is never tried. */
  function RouteOf(cfg: Config): (r: Route)
    ensures r == ViaGoogle <==> cfg.searchMode == "google" && KeySet(cfg.serpApiKey)
    ensures r == ViaTavily <==> cfg.searchMode == "tavily" && KeySet(cfg.tavilyApiKey)
  {
    if cfg.searchMode == "google" && KeySet(cfg.serpApiKey) then ViaGoogle
    else if cfg.searchMode == "tavily" && KeySet(cfg.tavilyApiKey) then ViaTavily
    else Unconfigured
  }

  // ---------------------------------------------------------------------------
  // Relevance filter
  // ---------------------------------------------------------------------------

  /** The field the filter reads after the title: `content` for Tavily, `snippet` for Google. */
  function Body(b: Backend, a: Article): Option<string> {
    match b
    case Tavily => a.content
    case Google => a.snippet
  }

  /** `(title or "") + (body or "")`, with no separator between the two. */
  function SearchableText(b: Backend, a: Article): string {
    a.title.GetOr("") + Body(b, a).GetOr("")
  }

  /** The list-comprehension test: "childsafe" occurs in the lower-cased searchable text. */
  predicate Relevant(b: Backend, a: Article) {
    Contains(Lower(SearchableText(b, a)), "childsafe")
  }

  /** `xs` can be obtained from `ys` by deleting elements, keeping the order. */
  ghost predicate IsSubsequence<T>(xs: seq<T>, ys: seq<T>)
    decreases |ys|
  {
    if ys == [] then xs == []
    else IsSubsequence(xs, ys[1..]) || (xs != [] && xs[0] == ys[0] && IsSubsequence(xs[1..], ys[1..]))
  }

  /**
   * `[r for r in results if relevant(r)]`: exactly the relevant results, each
   * as often as in the input, in their original order.
   */
  function Filter(b: Backend, results: seq<Article>): (kept: seq<Article>)
    ensures |kept| <= |results|
    ensures IsSubsequence(kept, results)
    ensures forall a :: a in kept ==> Relevant(b, a)
    ensures forall a :: multiset(kept)[a] == if Relevant(b, a) then multiset(results)[a] else 0
  {
    if results == [] then []
    else
      var rest := Filter(b, results[1..]);
      assert results == [results[0]] + results[1..];
      if Relevant(b, results[0]) then [results[0]] + rest else rest
  }

  /** A title ending in "Child" followed by content starting with "Safe" is kept: the fields are glued together. */
  lemma FilterMatchesAcrossFields()
    ensures Relevant(Tavily, Article(Some("Child"), None, None, Some("Safe roads for kids"), None))
  {
    var glued := SearchableText(Tavily, Article(Some("Child"), None, None, Some("Safe roads for kids"), None));
    assert glued == "ChildSafe roads for kids";
    var text := Lower(glued);
    assert text[0..9] == "childsafe";
    assert OccursAt(text, "childsafe", 0);
  }

  /** Python's `results[:n]`, including the negative `n` that counts from the end. */
  function PyPrefix<T>(s: seq<T>, n: int): (p: seq<T>)
    ensures |p| <= |s| && p == s[..|p|]
    ensures 0 <= n ==> |p| == Min(n, |s|)
    ensures n < 0 ==> |p| == if |s| + n < 0 then 0 else |s| + n
  {
    if n >= |s| then s
    else if n >= 0 then s[..n]
    else if |s| + n < 0 then []
    else s[..|s| + n]
  }

  // ---------------------------------------------------------------------------
  // Summary answer
  // ---------------------------------------------------------------------------

  /**
   * One markdown part per kept article: bold title (default "Untitled"),
   * then for Tavily the first 200 characters of the content followed by "...",
   * for Google the whole snippet, then a "[Read more](...)" link
   * (Tavily's `url`, Google's `link`).
   */
  function SummaryPart(b: Backend, a: Article): string {
    var title := a.title.GetOr("Untitled");
    match b
    case Tavily =>
      "**" + title + "**\n" + Take(a.content.GetOr(""), 200) + "...\n[Read more](" + a.url.GetOr("") + ")"
    case Google =>
      "**" + title + "**\n" + a.snippet.GetOr("") + "\n[Read more](" + a.link.GetOr("") + ")"
  }

  function SummaryParts(b: Backend, kept: seq<Article>): seq<string> {
    seq(|kept|, k requires 0 <= k < |kept| => SummaryPart(b, kept[k]))
  }

  /** The answer of a successful search: the parts joined by blank lines. */
  function Summary(b: Backend, kept: seq<Article>): string {
    Join(SummaryParts(b, kept), "\n\n")
  }

  /** A Tavily part quotes exactly the first min(200, len) characters of the content, followed by "...". */
  lemma TavilyPartQuotesPrefix(a: Article)
    ensures var start := |a.title.GetOr("Untitled")| + 5;
            var content := a.content.GetOr("");
            var q := Min(200, |content|);
            var part := SummaryPart(Tavily, a);
            start + q + 3 <= |part| && part[start..start + q] == content[..q] && part[start + q..start + q + 3] == "..."
  {
  }

  /** The `answer_parts` loop: one part per article, in order. */
  method BuildSummaryParts(b: Backend, kept: seq<Article>) returns (parts: seq<string>)
    ensures parts == SummaryParts(b, kept)
  {
    parts := [];
    var i := 0;
    while i < |kept|
      invariant 0 <= i <= |kept|
      invariant |parts| == i
      invariant forall k :: 0 <= k < i ==> parts[k] == SummaryPart(b, kept[k])
    {
      parts := parts + [SummaryPart(b, kept[i])];
      i := i + 1;
    }
  }

  // ---------------------------------------------------------------------------
  // tavily_search, google_search, search_articles
  // ---------------------------------------------------------------------------

  /** What `tavily_search` returns for the client's `results.get("results")`. */
  function TavilyOutcome(query: string, raw: Option<seq<Article>>): (r: SearchResult)
    ensures r.query == query
    ensures raw.GetOr([]) == [] ==> r.articles == [] && r.answer == NoArticlesFound
    ensures raw.GetOr([]) != [] ==> r.articles == Filter(Tavily, raw.value)
    ensures raw.GetOr([]) != [] && r.articles == [] ==> r.answer == NoChildSafeInfo
    ensures r.articles != [] ==> r.answer == Summary(Tavily, r.articles)
    ensures IsSubsequence(r.articles, raw.GetOr([]))
  {
    var results := raw.GetOr([]);
    if results == [] then SearchResult(query, NoArticlesFound, [])
    else
      var kept := Filter(Tavily, results);
      if kept == [] then SearchResult(query, NoChildSafeInfo, [])
      else SearchResult(query, Summary(Tavily, kept), kept)
  }

  /** What `google_search` returns for the reply of the SerpAPI client. */
  function GoogleOutcome(query: string, maxResults: int, reply: GoogleReply): (r: SearchResult)
    ensures r.query == query
    ensures reply.Raised? ==> r.articles == [] && r.answer == SearchErrorPrefix + reply.message
    ensures reply == Payload(None) ==> r.articles == [] && r.answer == NoSearchResults
    ensures reply.Payload? && reply.organicResults.Some? ==>
              r.articles == Filter(Google, PyPrefix(reply.organicResults.value, maxResults))
    ensures reply.Payload? && reply.organicResults.Some? && r.articles == [] ==> r.answer == NoChildSafeInfo
    ensures r.articles != [] ==> r.answer == Summary(Google, r.articles)
    ensures 0 <= maxResults ==> |r.articles| <= maxResults
  {
    match reply
    case Raised(message) => SearchResult(query, SearchErrorPrefix + message, [])
    case Payload(None) => SearchResult(query, NoSearchResults, [])
    case Payload(Some(organic)) =>
      var kept := Filter(Google, PyPrefix(organic, maxResults));
      if kept == [] then SearchResult(query, NoChildSafeInfo, [])
      else SearchResult(query, Summary(Google, kept), kept)
  }

  /** What `search_articles` returns. */
  function SearchOutcome(cfg: Config, backends: Backends, query: string, maxResults: int): (r: SearchResult)
    ensures r.query == query
    ensures RouteOf(cfg) == Unconfigured ==> r.articles == [] && r.answer == NoKeysConfigured
    ensures RouteOf(cfg) == ViaTavily ==> forall a :: a in r.articles ==> Relevant(Tavily, a)
    ensures RouteOf(cfg) == ViaGoogle ==> forall a :: a in r.articles ==> Relevant(Google, a)
  {
    match RouteOf(cfg)
    case ViaGoogle => GoogleOutcome(query, maxResults, backends.google(query, maxResults))
    case ViaTavily => TavilyOutcome(query, backends.tavily(query, maxResults))
    case Unconfigured => SearchResult(query, NoKeysConfigured, [])
  }

  /** The outcome depends only on the selected backend's reply: there is no cross-fallback. */
  lemma SelectedBackendOnly(cfg: Config, b1: Backends, b2: Backends, query: string, maxResults: int)
    requires RouteOf(cfg) == ViaGoogle ==> b1.google(query, maxResults) == b2.google(query, maxResults)
    requires RouteOf(cfg) == ViaTavily ==> b1.tavily(query, maxResults) == b2.tavily(query, maxResults)
    ensures SearchOutcome(cfg, b1, query, maxResults) == SearchOutcome(cfg, b2, query, maxResults)
  {
  }

  /** `tavily_search(query, max_results)`. */
  method TavilySearch(query: string, maxResults: int, tavily: (string, int) -> Option<seq<Article>>)
    returns (r: SearchResult)
    ensures r == TavilyOutcome(query, tavily(query, maxResults))
  {
    var raw := tavily(query, maxResults);
    if raw.GetOr([]) == [] {
      return SearchResult(query, NoArticlesFound, []);
    }
    var kept := Filter(Tavily, raw.value);
    if kept == [] {
      return SearchResult(query, NoChildSafeInfo, []);
    }
    var parts := BuildSummaryParts(Tavily, kept);
    r := SearchResult(query, Join(parts, "\n\n"), kept);
  }

  /** `google_search(query, max_results)`, exceptions included. */
  method GoogleSearch(query: string, maxResults: int, google: (string, int) -> GoogleReply)
    returns (r: SearchResult)
    ensures r == GoogleOutcome(query, maxResults, google(query, maxResults))
  {
    var reply := google(query, maxResults);
    if reply.Raised? {
      return SearchResult(query, SearchErrorPrefix + reply.message, []);
    }
    if reply.organicResults.None? {
      return SearchResult(query, NoSearchResults, []);
    }
    var articles := PyPrefix(reply.organicResults.value, maxResults);
    var kept := Filter(Google, articles);
    if kept == [] {
      return SearchResult(query, NoChildSafeInfo, []);
    }
    var parts := BuildSummaryParts(Google, kept);
    r := SearchResult(query, Join(parts, "\n\n"), kept);
  }

  /** `search_articles(query, max_results)`: dispatch on `SEARCH_MODE` and key presence. */
  method SearchArticles(cfg: Config, backends: Backends, query: string, maxResults: int)
    returns (r: SearchResult)
    ensures r == SearchOutcome(cfg, backends, query, maxResults)
  {
    if cfg.searchMode == "google" && KeySet(cfg.serpApiKey) {
      r := GoogleSearch(query, maxResults, backends.google);
    } else if cfg.searchMode == "tavily" && KeySet(cfg.tavilyApiKey) {
      r := TavilySearch(query, maxResults, backends.tavily);
    } else {
      r := SearchResult(query, NoKeysConfigured, []);
    }
  }

  /** Google selected but only the Tavily key set: the configuration message, never a Tavily search. */
  lemma GoogleWithoutSerpKey(backends: Backends, query: string, maxResults: int, tavilyKey: string)
    requires tavilyKey != ""
    ensures SearchOutcome(Config("google", None, Some(tavilyKey)), backends, query, maxResults)
            == SearchResult(query, NoKeysConfigured, [])
  {
  }
}
