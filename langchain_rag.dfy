/**
 * The `smart_query` orchestrator: classify the query as "local" or "web",
 * answer from web articles or from the indexed annual-report chunks, and
 * replace any answer that does not mention ChildSafe (or, for reports,
 * "report") with a fixed fallback.
 *
 * The language model, the search clients and the Chroma collection are
 * external services, given as functions in `Services`. The method also
 * returns the calls it made to them, in order.
 */
module LangchainRag {
  import opened Wrappers
  import opened Text
  import WebSearch

  /** A chunk's metadata as read back from Chroma; only `report_year` and `page` are used. */
  datatype Metadata = Metadata(reportYear: Option<string>, page: Option<int>)

  /** `results.get("documents", [[]])[0]` and the same for "metadatas": `None` when the key is absent. */
  datatype ChromaReply = ChromaReply(documents: Option<seq<string>>, metadatas: Option<seq<Metadata>>)

  /** The four prompt templates, each with the variables it is filled with. */
  datatype Prompt =
    | ClassifyIntent(query: string)
    | RewriteQuery(query: string)
    | SummarizeArticles(query: string, articles: string)
    | AnswerFromReports(query: string, docs: string)

  /** The external services: the language model, the search clients, `collection.query`. */
  datatype Services = Services(
    llm: Prompt -> string,
    search: WebSearch.Backends,
    chroma: (string, int) -> ChromaReply)

  /** One call from the orchestrator to an external service. */
  datatype Call =
    | Llm(prompt: Prompt)
    | Search(query: string, maxResults: int)
    | QueryCollection(text: string, nResults: int)

  datatype LocalPayload = LocalPayload(rewritten: string, documents: seq<string>, metadatas: seq<Metadata>)

  /**
   * The response dict, tagged by `mode`. A local response without retrieved
   * documents has no `rewritten`, `documents` or `metadatas` keys at all.
   */
  datatype Response =
    | WebResponse(query: string, answer: string, articles: seq<WebSearch.Article>)
    | LocalResponse(query: string, answer: string, retrieval: Option<LocalPayload>)

  const WebFallback := "No relevant ChildSafe South Africa information found."
  const LocalFallback := "No relevant information found in ChildSafe reports."

  /** Web mode always asks the search helper for this many results. */
  const WebMaxResults := 5

  // ---------------------------------------------------------------------------
  // Intent
  // ---------------------------------------------------------------------------

  /** The model's label after `.strip().lower()`. */
  function Intent(raw: string): string {
    Lower(Strip(raw))
  }

  /** The web branch is taken only for a label that normalises to exactly "web". */
  predicate TakesWebBranch(raw: string) {
    Intent(raw) == "web"
  }

  /** `raw[a..e]` spells "web" in any case, with only whitespace around it. */
  predicate WebLabelAt(raw: string, a: int, e: int) {
    0 <= a <= e <= |raw| && SpaceBetween(raw, 0, a) && SpaceBetween(raw, e, |raw|)
    && Lower(raw[a..e]) == "web"
  }

  lemma {:induction false} WebBranchIff(raw: string)
    ensures TakesWebBranch(raw) <==> exists a, e :: WebLabelAt(raw, a, e)
  {
    if TakesWebBranch(raw) {
      StripSpec(raw);
      assert WebLabelAt(raw, StripStart(raw), StripEnd(raw));
    }
    if exists a, e :: WebLabelAt(raw, a, e) {
      var a, e :| WebLabelAt(raw, a, e);
      var m := raw[a..e];
      assert Lower(m)[0] == 'w' && Lower(m)[2] == 'b';
      LowerLetterNotSpace(m[0]);
      LowerLetterNotSpace(m[2]);
      StripUnique(raw, a, e);
    }
  }

  /** Labels that take the local branch even though they look close to "web". */
  lemma IntentExamples()
    ensures TakesWebBranch(" Web\n")
    ensures !TakesWebBranch("web.") && !TakesWebBranch("") && !TakesWebBranch("local")
  {
    StripUnique(" Web\n", 1, 4);
    assert Lower("Web") == "web";
    StripUnique("web.", 0, 4);
    StripUnique("local", 0, 5);
    assert |Strip("")| == 0;
  }

  // ---------------------------------------------------------------------------
  // Grounding checks
  // ---------------------------------------------------------------------------

  /** Web answers must mention "childsafe", in any case. */
  predicate WebGrounded(answer: string) {
    Contains(Lower(answer), "childsafe")
  }

  /** Report answers must mention "childsafe" or "report", in any case. */
  predicate LocalGrounded(answer: string) {
    Contains(Lower(answer), "childsafe") || Contains(Lower(answer), "report")
  }

  /** The web fallback passes the web check. */
  lemma WebFallbackPasses()
    ensures WebGrounded(WebFallback)
  {
    var head, tail := WebFallback[..21], WebFallback[21..];
    WebFallbackHead();
    LowerChildSafe();
    ContainsLowered("No relevant ", "ChildSafe", "", "childsafe");
    assert "No relevant " + "ChildSafe" + "" == head;
    ContainsInConcat(Lower(head), Lower(tail), "childsafe");
    LowerAppend(head, tail);
    assert head + tail == WebFallback;
  }

  lemma WebFallbackHead()
    ensures WebFallback[..21] == "No relevant ChildSafe"
  {
  }

  lemma LowerChildSafe()
    ensures Lower("ChildSafe") == "childsafe"
  {
  }

  /** The local fallback passes the local check (it contains both "childsafe" and "report"). */
  lemma LocalFallbackPasses()
    ensures LocalGrounded(LocalFallback)
  {
    assert Lower("report") == "report";
    assert LocalFallback == "No relevant information found in ChildSafe " + "report" + "s.";
    ContainsLowered("No relevant information found in ChildSafe ", "report", "s.", "report");
  }

  /** The web safeguard: keep a grounded answer, otherwise the fixed fallback. */
  function CheckWebAnswer(answer: string): (r: string)
    ensures WebGrounded(r)
    ensures WebGrounded(answer) <==> r == answer
    ensures !WebGrounded(answer) ==> r == WebFallback
  {
    WebFallbackPasses();
    if WebGrounded(answer) then answer else WebFallback
  }

  /** The local safeguard: keep a grounded answer, otherwise the fixed fallback. */
  function CheckLocalAnswer(answer: string): (r: string)
    ensures LocalGrounded(r)
    ensures LocalGrounded(answer) <==> r == answer
    ensures !LocalGrounded(answer) ==> r == LocalFallback
  {
    LocalFallbackPasses();
    if LocalGrounded(answer) then answer else LocalFallback
  }

  /** Re-checking a checked answer changes nothing; in particular a fallback stays as it is. */
  lemma ChecksIdempotent(answer: string)
    ensures CheckWebAnswer(CheckWebAnswer(answer)) == CheckWebAnswer(answer)
    ensures CheckLocalAnswer(CheckLocalAnswer(answer)) == CheckLocalAnswer(answer)
    ensures CheckWebAnswer(WebFallback) == WebFallback && CheckLocalAnswer(LocalFallback) == LocalFallback
  {
    WebFallbackPasses();
    LocalFallbackPasses();
  }

  // ---------------------------------------------------------------------------
  // Grounding context
  // ---------------------------------------------------------------------------

  /**
   * The article's snippet as shown to the model: `snippet`, else `content`,
   * else "", cut to its first min(len, 300) characters.
   */
  function ArticleSnippet(a: WebSearch.Article): (snippet: string)
    ensures var body := a.snippet.GetOr(a.content.GetOr(""));
            |snippet| == Min(300, |body|) && snippet == body[..|snippet|]
  {
    Take(a.snippet.GetOr(a.content.GetOr("")), 300)
  }

  /** One article block: title (default "Untitled"), `link` else `url` else "", snippet. */
  function ArticleBlock(a: WebSearch.Article): string {
    "- Title: " + a.title.GetOr("Untitled") + "\n  URL: " + a.link.GetOr(a.url.GetOr(""))
    + "\n  Content: " + ArticleSnippet(a) + "..."
  }

  function ArticleBlocks(articles: seq<WebSearch.Article>): seq<string> {
    seq(|articles|, k requires 0 <= k < |articles| => ArticleBlock(articles[k]))
  }

  /** `articles_text`: the blocks, one per article in order, joined by blank lines. */
  function ArticlesText(articles: seq<WebSearch.Article>): string {
    Join(ArticleBlocks(articles), "\n\n")
  }

  /** The `formatted` loop followed by the join. */
  method FormatArticles(articles: seq<WebSearch.Article>) returns (text: string)
    ensures text == ArticlesText(articles)
  {
    var formatted: seq<string> := [];
    for i := 0 to |articles|
      invariant |formatted| == i
      invariant forall k :: 0 <= k < i ==> formatted[k] == ArticleBlock(articles[k])
    {
      formatted := formatted + [ArticleBlock(articles[i])];
    }
    assert formatted == ArticleBlocks(articles);
    text := Join(formatted, "\n\n");
  }

  /** `f"{page}"`, or "?" when the metadata has no page. */
  function PageLabel(page: Option<int>): string {
    match page
    case None => "?"
    case Some(p) => IntToString(p)
  }

  /** The annotation in front of a chunk: "[Report: <year or 'unknown report'>, Page <page or '?'>]\n". */
  function ReportHeader(meta: Metadata): string {
    "[Report: " + meta.reportYear.GetOr("unknown report") + ", Page " + PageLabel(meta.page) + "]\n"
  }

  function ContextBlock(doc: string, meta: Metadata): string {
    ReportHeader(meta) + doc
  }

  /** `zip(documents, metadatas)`: one block per pair, as many as the shorter list. */
  function ContextBlocks(documents: seq<string>, metadatas: seq<Metadata>): seq<string> {
    seq(Min(|documents|, |metadatas|), k requires 0 <= k < Min(|documents|, |metadatas|) =>
      ContextBlock(documents[k], metadatas[k]))
  }

  /** `context`: the blocks joined by blank lines. */
  function ContextText(documents: seq<string>, metadatas: seq<Metadata>): string {
    Join(ContextBlocks(documents, metadatas), "\n\n")
  }

  /** Every block carries its document verbatim after the header. */
  lemma ContextBlocksCarryDocuments(documents: seq<string>, metadatas: seq<Metadata>, k: nat)
    requires k < |documents| && k < |metadatas|
    ensures |ContextBlocks(documents, metadatas)| == Min(|documents|, |metadatas|)
    ensures var block := ContextBlocks(documents, metadatas)[k];
            block[..|block| - |documents[k]|] == ReportHeader(metadatas[k])
            && block[|block| - |documents[k]|..] == documents[k]
  {
  }

  /** The `context_blocks` loop over the zipped lists, followed by the join. */
  method BuildContext(documents: seq<string>, metadatas: seq<Metadata>) returns (context: string)
    ensures context == ContextText(documents, metadatas)
  {
    var blocks: seq<string> := [];
    var n := Min(|documents|, |metadatas|);
    for i := 0 to n
      invariant |blocks| == i
      invariant forall k :: 0 <= k < i ==> blocks[k] == ContextBlock(documents[k], metadatas[k])
    {
      blocks := blocks + [ContextBlock(documents[i], metadatas[i])];
    }
    assert blocks == ContextBlocks(documents, metadatas);
    context := Join(blocks, "\n\n");
  }

  // ---------------------------------------------------------------------------
  // smart_query
  // ---------------------------------------------------------------------------

  /**
   * The web branch: search with 5 results whatever `top_k` is; without
   * articles, the fallback and no summary call; otherwise one summary call
   * over the formatted articles, kept with the articles unchanged and in
   * order if it mentions ChildSafe, else the fallback with no articles.
   */
  ghost predicate WebOutcome(query: string, cfg: WebSearch.Config, svc: Services, resp: Response, calls: seq<Call>) {
    var found := WebSearch.SearchOutcome(cfg, svc.search, query, WebMaxResults).articles;
    var asked := [Llm(ClassifyIntent(query)), Search(query, WebMaxResults)];
    if found == [] then
      calls == asked && resp == WebResponse(query, WebFallback, [])
    else
      var prompt := SummarizeArticles(query, ArticlesText(found));
      var summary := svc.llm(prompt);
      calls == asked + [Llm(prompt)]
      && resp == WebResponse(query, CheckWebAnswer(summary), if WebGrounded(summary) then found else [])
  }

  /**
   * The local branch: rewrite the query, retrieve `top_k` chunks for the
   * rewritten text; without documents, the fallback and no payload; otherwise
   * one answer call over the annotated context, checked, with the rewritten
   * query, documents and metadatas returned whether or not the check passed.
   */
  ghost predicate LocalOutcome(query: string, topK: int, svc: Services, resp: Response, calls: seq<Call>) {
    var rewritten := svc.llm(RewriteQuery(query));
    var reply := svc.chroma(rewritten, topK);
    var documents := reply.documents.GetOr([]);
    var metadatas := reply.metadatas.GetOr([]);
    var asked := [Llm(ClassifyIntent(query)), Llm(RewriteQuery(query)), QueryCollection(rewritten, topK)];
    if documents == [] then
      calls == asked && resp == LocalResponse(query, LocalFallback, None)
    else
      var prompt := AnswerFromReports(query, ContextText(documents, metadatas));
      calls == asked + [Llm(prompt)]
      && resp == LocalResponse(query, CheckLocalAnswer(svc.llm(prompt)), Some(LocalPayload(rewritten, documents, metadatas)))
  }

  /** `smart_query(query, top_k)`. */
  method SmartQuery(query: string, topK: int, cfg: WebSearch.Config, svc: Services)
    returns (resp: Response, calls: seq<Call>)
    ensures resp.query == query
    ensures calls != [] && calls[0] == Llm(ClassifyIntent(query))
    ensures resp.WebResponse? <==> TakesWebBranch(svc.llm(ClassifyIntent(query)))
    ensures resp.WebResponse? ==> WebOutcome(query, cfg, svc, resp, calls)
    ensures resp.LocalResponse? ==> LocalOutcome(query, topK, svc, resp, calls)
    ensures resp.WebResponse? ==> WebGrounded(resp.answer) && (resp.articles == [] ==> resp.answer == WebFallback)
    ensures resp.LocalResponse? ==> LocalGrounded(resp.answer)
    ensures resp.LocalResponse? && resp.retrieval == None ==> resp.answer == LocalFallback
  {
    WebFallbackPasses();
    LocalFallbackPasses();
    var intent := Intent(svc.llm(ClassifyIntent(query)));
    calls := [Llm(ClassifyIntent(query))];

    if intent == "web" {
      var results := WebSearch.SearchArticles(cfg, svc.search, query, WebMaxResults);
      calls := calls + [Search(query, WebMaxResults)];
      if results.articles == [] {
        resp := WebResponse(query, WebFallback, []);
        return;
      }
      var articles := results.articles;
      var articlesText := FormatArticles(articles);
      var answer := svc.llm(SummarizeArticles(query, articlesText));
      calls := calls + [Llm(SummarizeArticles(query, articlesText))];
      if !WebGrounded(answer) {
        resp := WebResponse(query, WebFallback, []);
        return;
      }
      resp := WebResponse(query, answer, articles);
    } else {
      var rewritten := svc.llm(RewriteQuery(query));
      calls := calls + [Llm(RewriteQuery(query))];
      var results := svc.chroma(rewritten, topK);
      calls := calls + [QueryCollection(rewritten, topK)];
      var documents := results.documents.GetOr([]);
      var metadatas := results.metadatas.GetOr([]);
      if documents == [] {
        resp := LocalResponse(query, LocalFallback, None);
        return;
      }
      var context := BuildContext(documents, metadatas);
      var answer := svc.llm(AnswerFromReports(query, context));
      calls := calls + [Llm(AnswerFromReports(query, context))];
      if !LocalGrounded(answer) {
        resp := LocalResponse(query, LocalFallback, Some(LocalPayload(rewritten, documents, metadatas)));
        return;
      }
      resp := LocalResponse(query, answer, Some(LocalPayload(rewritten, documents, metadatas)));
    }
  }
}
