# ChildSafe assistant: a Dafny model of the query orchestrator, web search and ingestion CLI

The ChildSafe assistant answers questions about ChildSafe South Africa in one of two ways:

- from the organisation's annual reports, which are indexed in a Chroma vector store;
- from web articles, found through Tavily or Google via SerpAPI.

A language model does three jobs: it classifies each question, rewrites local queries and writes the final answer. Every answer must mention ChildSafe (or, for reports, "report"), or it is replaced by a fixed fallback.

This project models three parts in Dafny:

- `smart_query`, the orchestrator (module `LangchainRag`, `langchain_rag.dfy`);
- the web-search helper (module `WebSearch`, `web_search.dfy`);
- the two ingestion commands, `download` and `chunk_and_post` (module `Cli`, `cli.dfy`).

There are two support modules:

- `text.dfy` models the string operations the Python code relies on: ASCII `strip()` and `lower()`, substring `in`, slicing, `join`, and integer rendering.
- `wrappers.dfy` holds `Option` and `Result`.

External services are parameters of the model:

- the language model (`Prompt -> string`);
- the Tavily and SerpAPI clients;
- `collection.query`;
- the HTTP fetch;
- PDF text extraction;
- the text splitter.

`SmartQuery` also returns the list of calls it made to these services. That makes statements such as "the summariser is not called" or "search asks for 5 results" provable.

The two stateful parts are classes. `Cli.DataDir` is the data directory, mapping file names to bytes. `Cli.VectorStore` maps collection names to record lists. The loops of the source are methods with loop invariants, each proved equal to a specification function:

- `answer_parts`;
- `formatted`;
- `context_blocks`;
- the `download` loop;
- the page, chunk and file loops of `chunk_and_post`.

The lemmas then state what the source promises about those functions.

## Model

| member | source | states |
|---|---|---|
| Text.StripSpec | backend/app/langchain_rag.py:121 | `strip()` removes only whitespace, and all leading and trailing whitespace. The result is empty exactly when the input is all whitespace, and otherwise it starts and ends with non-whitespace. |
| Text.StripUnique | backend/app/langchain_rag.py:121 | Any slice with only whitespace around it and non-whitespace at both ends is what `strip()` returns. |
| Text.Take | backend/app/langchain_rag.py:147 | `s[:n]` has length min(n, len(s)) and is a prefix of `s`. |
| Text.NatToStringInjective | backend/app/cli.py:144 | Different page or chunk numbers render as different decimal strings (via the round trip `DigitsValue(NatToString(n)) == n`). |
| WebSearch.SearchModeAtImport | backend/app/web_search.py:11-19 | `SEARCH_MODE` is the lower-cased environment value, defaulting to "tavily". It differs from that value only when the value is "tavily" and the Tavily client cannot be imported, and then it is "google". |
| WebSearch.RouteOf | backend/app/web_search.py:128-141 | Google is used iff the mode is "google" and `SERPAPI_API_KEY` is non-empty. Tavily is used iff the mode is "tavily" and `TAVILY_API_KEY` is non-empty. |
| WebSearch.Filter | backend/app/web_search.py:37-40 | The kept results are an order-preserving subsequence of the input. Each is relevant. Each relevant result is kept as many times as it occurs, and nothing else is kept (multiset equation). |
| WebSearch.FilterMatchesAcrossFields | backend/app/web_search.py:39 | Title and content are concatenated with no separator, so a title "Child" and content "Safe…" pass the filter. |
| WebSearch.PyPrefix | backend/app/web_search.py:83 | `results[:max_results]` is a prefix of length min(n, len) for n ≥ 0, and of length len+n (at least 0) for negative n. |
| WebSearch.TavilyPartQuotesPrefix | backend/app/web_search.py:55-56 | A Tavily summary part quotes exactly the first min(200, len) characters of the content, right after the bold title line, followed by "...". |
| WebSearch.BuildSummaryParts | backend/app/web_search.py:50-56 | The `answer_parts` loop yields one part per kept article, in order. |
| WebSearch.TavilyOutcome | backend/app/web_search.py:25-60 | No raw results give empty articles and "No relevant articles found.". Otherwise the articles are the filter of the raw results. No match gives the ChildSafe fallback. A match gives the parts joined by blank lines. The query is echoed. |
| WebSearch.GoogleOutcome | backend/app/web_search.py:66-115 | An exception gives empty articles and "Search error: " + message. A missing `organic_results` gives "No search results found.". Otherwise the articles are the filter of the first `max_results` results, so there are at most `max_results` of them. Empty gives the ChildSafe fallback, and a non-empty result is summarised. |
| WebSearch.SearchOutcome | backend/app/web_search.py:121-141 | Unconfigured gives empty articles and the fixed "No search API keys configured…" answer. Every returned article passes the chosen backend's filter. |
| WebSearch.SelectedBackendOnly | backend/app/web_search.py:128-134 | The outcome depends only on the selected backend's reply: the other backend is never consulted. |
| WebSearch.GoogleWithoutSerpKey | backend/app/web_search.py:128-141 | Google mode with only a Tavily key returns the configuration message rather than falling back to Tavily. |
| WebSearch.TavilySearch | backend/app/web_search.py:25-60 | The imperative `tavily_search` returns exactly `TavilyOutcome` of the client's reply. |
| WebSearch.GoogleSearch | backend/app/web_search.py:66-115 | The imperative `google_search` returns exactly `GoogleOutcome` of the client's reply, exceptions included. |
| WebSearch.SearchArticles | backend/app/web_search.py:121-141 | The dispatcher returns exactly `SearchOutcome`. |
| LangchainRag.WebBranchIff | backend/app/langchain_rag.py:117-126 | The web branch is taken iff the label is "web" in some letter case, with only whitespace around it. |
| LangchainRag.IntentExamples | backend/app/langchain_rag.py:121-126 | " Web\n" takes the web branch. "web.", "" and "local" take the local branch. |
| LangchainRag.WebFallbackPasses | backend/app/langchain_rag.py:163-169 | The web fallback text itself mentions "childsafe" case-insensitively. |
| LangchainRag.LocalFallbackPasses | backend/app/langchain_rag.py:227-232 | The local fallback text mentions "childsafe" or "report" case-insensitively. |
| LangchainRag.CheckWebAnswer | backend/app/langchain_rag.py:163-177 | The checked web answer always passes the check. It equals the model's answer iff that answer passes, and otherwise it is the fallback. |
| LangchainRag.CheckLocalAnswer | backend/app/langchain_rag.py:227-245 | The same for the local check ("childsafe" or "report"). |
| LangchainRag.ChecksIdempotent | backend/app/langchain_rag.py:227-245 | Re-checking a checked answer changes nothing, and each fallback survives its own check. |
| LangchainRag.ArticleSnippet | backend/app/langchain_rag.py:147 | The snippet is `snippet`, else `content`, else "", cut to its first min(len, 300) characters. |
| LangchainRag.FormatArticles | backend/app/langchain_rag.py:143-149 | The `formatted` loop plus the join equal `ArticlesText`: one block per article, in order, joined by blank lines. |
| LangchainRag.ContextBlocksCarryDocuments | backend/app/langchain_rag.py:208-213 | There are min(len(documents), len(metadatas)) blocks. Block k is the `[Report: …, Page …]` header followed by document k verbatim. |
| LangchainRag.BuildContext | backend/app/langchain_rag.py:208-213 | The `context_blocks` loop over `zip` plus the join equal `ContextText`. |
| LangchainRag.SmartQuery | backend/app/langchain_rag.py:104-245 | The query is echoed, and intent classification is the first call. The response is web iff the label normalises to "web". **Web branch:** search is asked for 5 results whatever `top_k` is. No articles gives the fallback with no summariser call. Otherwise there is one summary call; the answer is `CheckWebAnswer` of the summary, and the articles are kept unchanged exactly when the summary passes the check, else none. **Local branch:** retrieval uses the rewritten query. No documents gives the fallback with no rewritten/documents/metadatas. Otherwise the checked answer is returned together with rewritten, documents and metadatas. Every answer passes its branch's check. |
| Cli.Lookup | backend/app/cli.py:68-70 | `REPORTS[key]` exists iff the key is in the registry, and the entry returned is the registry's. |
| Cli.SelectReports | backend/app/cli.py:65-70 | "all" selects every entry in order. A known key selects exactly its one entry. Otherwise the error "Report <key> not found", before anything is fetched. |
| Cli.StemSuffixSplit | backend/app/cli.py:74 | A file name is its `Path.stem` followed by its `Path.suffix`. |
| Cli.SplitExtension | backend/app/cli.py:74 | `base + "." + ext` (with no "." in ext) has suffix "." + ext and stem `base`. |
| Cli.SavedWithExtension | backend/app/cli.py:74 | A report whose URL ends in a file name with ".ext" is saved as "<year>.ext". |
| Cli.PdfReportNames | backend/app/cli.py:28-36 | Every registry entry but the last is saved as "<key>.pdf". That name matches `*.pdf`, and its stem is the key. |
| Cli.PresentationName | backend/app/cli.py:37 | The "2022-2023" report is saved as "2022-2023.pptx", which `*.pdf` does not match. |
| Cli.OnlyPresentationSkipped | backend/app/cli.py:28-38 | Of the downloaded reports, a saved name is a PDF iff its key is not "2022-2023". |
| Cli.PdfName | backend/app/cli.py:121-125 | "<year>.pdf" matches the glob, and its stem (the `report_year`) is `year`. |
| Cli.PdfStem | backend/app/cli.py:125 | A PDF name longer than ".pdf" is its stem followed by ".pdf". |
| Cli.PdfStemsDistinct | backend/app/cli.py:121-125 | Two different such PDF names have different `report_year`s. |
| Cli.FetchedCount | backend/app/cli.py:77-78 | The number of items fetched before the first failing fetch: all earlier fetches succeed, and that one fails. |
| Cli.SavedKeys | backend/app/cli.py:73-79 | After the writes, the directory holds its old files plus exactly the written names. |
| Cli.SavedLastWrite | backend/app/cli.py:79 | Each written name holds the content of its last write. |
| Cli.SaveOne | backend/app/cli.py:74-79 | One iteration: on success the content is written under the output name, and on failure nothing changes. |
| Cli.SaveItems | backend/app/cli.py:73-79 | The loop saves exactly the items before the first failed fetch, in order, under their output names. |
| Cli.Download | backend/app/cli.py:60-79 | An unknown report leaves the directory unchanged and reports the error. Otherwise the selected items are saved up to the first HTTP error, which is reported with its URL. |
| Cli.VectorStore.DeleteCollection | backend/app/cli.py:104 | Removes the collection and nothing else. |
| Cli.VectorStore.CreateCollection | backend/app/cli.py:108 | Adds an empty collection and nothing else. |
| Cli.VectorStore.Add | backend/app/cli.py:147-159 | Appends one record to the named collection and nothing else. |
| Cli.VectorStore.Count | backend/app/cli.py:163 | Returns the number of records in the collection. |
| Cli.ResetCollection | backend/app/cli.py:102-108 | Whether or not the collection existed, it is afterwards empty, and no other collection changes. |
| Cli.PostChunks | backend/app/cli.py:139-160 | The chunk loop appends exactly `ChunkRecords` and counts them. |
| Cli.PostPages | backend/app/cli.py:128-160 | The page loop appends exactly `PageRecords` and counts them. |
| Cli.PostFile | backend/app/cli.py:121-160 | One file's records are appended after those of the files already processed. |
| Cli.ChunkAndPost | backend/app/cli.py:97-166 | The files processed are exactly the PDFs of the data directory, each once. The collection ends as exactly this run's records, in processing order, and other collections are untouched. `total_chunks` and `collection.count()` both equal the number of records. |
| Cli.ChunkIdInjective | backend/app/cli.py:144 | The id "year-page-chunk" determines the year, the page and the chunk index. |
| Cli.ChunkRecordsSound | backend/app/cli.py:139-157 | Each record of a page comes from a kept chunk (stripped length ≥ 50) with id, document and metadata built from it. The records are in increasing chunk order. |
| Cli.ChunkRecordsComplete | backend/app/cli.py:139-157 | Every kept chunk has its record, indexed by its place in the split list (skipped chunks still count). |
| Cli.PageRecordsSound | backend/app/cli.py:128-157 | Each record of a file comes from a kept chunk of a kept page (text present, stripped length ≥ 50). |
| Cli.PageRecordsOrdered | backend/app/cli.py:128-157 | A file's records are in page-then-chunk order. |
| Cli.PageRecordsComplete | backend/app/cli.py:128-157 | Every kept chunk of every kept page has its record, with 0-based page index `i`. |
| Cli.PageRecordIds | backend/app/cli.py:144-156 | A file's records have distinct ids, all carry the file's `report_year`, and each id matches its metadata. |
| Cli.IngestedSound | backend/app/cli.py:121-157 | Every record in the collection comes from a kept chunk of a kept page of a processed PDF, with `report_year` that file's stem. |
| Cli.IngestedComplete | backend/app/cli.py:121-157 | Every kept chunk of every kept page of every processed PDF is in the collection. |
| Cli.IngestedIdsDistinct | backend/app/cli.py:121-144 | When the processed files have pairwise different stems, no two records share an id. |
| Cli.ListingIdsDistinct | backend/app/cli.py:121-144 | For distinct PDF names other than the bare ".pdf", the collection has no repeated id. |

## Left out

- The language model, the Tavily and SerpAPI clients, `collection.query`, the HTTP fetch, PDF text extraction and `RecursiveCharacterTextSplitter` are parameters (functions) of the model.
  - Nothing is claimed about chunk sizes or overlaps, since the splitter is opaque. `--chunk-size` and `--chunk-overlap` are folded into the `split` function.
- Exceptions raised by these services inside `smart_query` and `chunk_and_post` propagate in the source. The model does not represent them.
  - The exceptions `google_search` catches are modelled as the `Raised` reply.
  - A failed `raise_for_status` is modelled as a fetch returning `None`.
- `strip()`, `lower()` and `isspace()` are modelled on ASCII only. Unicode whitespace and case mappings are not modelled.
- Result dicts are records of `Option<string>` fields. A key present with a non-string value (or `None`) is not modelled.
- `Path(url)` normalisation of repeated or trailing "/" is not modelled. `PathName` takes the text after the last "/", which agrees with it for the registry's URLs.
- The order in which `DATA_DIR.glob("*.pdf")` lists files is unspecified. `ChunkAndPost` picks the next file by an arbitrary choice and returns the order it used.
- The glob is modelled as "name ends in .pdf". Sub-directories, and glob's treatment of names that start with ".", are not modelled.
- Cli.SavedKeys, Cli.Download: bytes written to disk are kept as a map from file name to content. The path `DATA_DIR / name` and the on-disk encoding are not modelled.
- Console output (`print`, `click.echo`) and the process-level `raise` after printing the chunking error are left out.
- Module-level client construction, `.env` loading and `DATA_DIR.mkdir` are left out.
- `Config` carries `SEARCH_MODE` and the two API keys as they stand when `search_articles` is called; the keys are read from the environment on each call. `SearchModeAtImport` states how `SEARCH_MODE` is computed at import, but `Config.searchMode` is not constrained to be its result.
- `chromadb`'s own handling of duplicate ids is not modelled: `Add` appends. `Cli.ListingIdsDistinct` states when no duplicate can arise.
- `smart_query` never surfaces the "No search API keys configured…" answer. Its web branch sees no articles and returns the ChildSafe fallback, and the model follows the code here.
- `backend/app/api.py` (HTTP transport; `top_k` is a parameter of `SmartQuery`), `backend/app/rag.py` (floating-point scores) and `deploy/fabfile.py` (remote deployment) are not part of this model.
