/**
 * The ingestion command line: `download` (which annual reports to fetch and
 * the file name each is saved under) and `chunk_and_post` (rebuild the
 * Chroma collection from the PDFs in the data directory, one record per kept
 * chunk).
 *
 * HTTP fetches, PDF text extraction and the text splitter are external: they
 * are functions given to the methods. The data directory and the Chroma
 * server are objects whose state the methods change.
 */
module Cli {
  import opened Wrappers
  import opened Text

  type Bytes = seq<bv8>

  /** The registry of annual reports, year key to URL, in insertion order. */
  const Reports: seq<(string, string)> := [
    ("2005-2006", "https://childsafe.org.za/downloads/annual_report2005_2006.pdf"),
    ("2006-2007", "https://childsafe.org.za/downloads/Annual_Report_2006-2007.pdf"),
    ("2011", "https://childsafe.org.za/downloads/annual_report2012.pdf"),
    ("2017-2018", "https://childsafe.org.za/downloads/Annual-Report-2017-2018.pdf"),
    ("2018-2019", "https://childsafe.org.za/downloads/childsafe-annual-report-2019.pdf"),
    ("2019-2020", "https://childsafe.org.za/downloads/ChildSafe-Annual-Report-2019-20082020.pdf"),
    ("2020-2021", "https://childsafe.org.za/downloads/Annual-Report-01Oct2021.pdf"),
    ("2021-2022", "https://childsafe.org.za/downloads/Annual%20Report%202021-2022.pdf"),
    ("2022-2023", "https://childsafe.org.za/wp-content/uploads/2023/10/Annual%20Report%202022-2023%20Presentation%20Final%20.pptx")
  ]

  predicate IsReportKey(key: string) {
    exists k :: 0 <= k < |Reports| && Reports[k].0 == key
  }

  /** `REPORTS[key]`, or `None` for a key the registry does not have. */
  function Lookup(entries: seq<(string, string)>, key: string): (url: Option<string>)
    ensures url.Some? <==> exists k :: 0 <= k < |entries| && entries[k].0 == key
    ensures url.Some? ==> (key, url.value) in entries
  {
    if entries == [] then None
    else if entries[0].0 == key then Some(entries[0].1)
    else
      var rest := Lookup(entries[1..], key);
      assert forall k :: 1 <= k < |entries| ==> entries[k] == entries[1..][k - 1];
      rest
  }

  // ---------------------------------------------------------------------------
  // download
  // ---------------------------------------------------------------------------

  /**
   * The `items` of `download --report`: every entry for "all", the one entry
   * of a known key, and otherwise the error raised before anything is fetched.
   */
  function SelectReports(report: string): (r: Result<seq<(string, string)>, string>)
    ensures report == "all" ==> r == Ok(Reports)
    ensures report != "all" ==> (r.Ok? <==> IsReportKey(report))
    ensures report != "all" && r.Ok? ==> |r.value| == 1 && r.value[0].0 == report && r.value[0] in Reports
    ensures r.Err? ==> r.error == "Report " + report + " not found"
  {
    if report == "all" then Ok(Reports)
    else
      match Lookup(Reports, report)
      case None => Err("Report " + report + " not found")
      case Some(url) => Ok([(report, url)])
  }

  /** Index of the last `c` in `s`, or -1: Python's `s.rfind(c)`. */
  function LastIndexOf(s: string, c: char): (i: int)
    ensures -1 <= i < |s|
    ensures i >= 0 ==> s[i] == c
  {
    if s == [] then -1
    else if s[|s| - 1] == c then |s| - 1
    else LastIndexOf(s[..|s| - 1], c)
  }

  /** No `c` follows the one `LastIndexOf` finds. */
  lemma {:induction false} LastIndexOfSpec(s: string, c: char)
    ensures forall k :: LastIndexOf(s, c) < k < |s| ==> s[k] != c
  {
    if s != [] && s[|s| - 1] != c {
      LastIndexOfSpec(s[..|s| - 1], c);
    }
  }

  /** `Path(p).name`: the part after the last "/". */
  function PathName(p: string): string {
    p[LastIndexOf(p, '/') + 1..]
  }

  /** Where the suffix of a file name starts, if it has one: a last "." that is neither first nor last. */
  predicate HasSuffix(name: string) {
    0 < LastIndexOf(name, '.') < |name| - 1
  }

  /** `Path(name).suffix`. */
  function Suffix(name: string): string {
    if HasSuffix(name) then name[LastIndexOf(name, '.')..] else ""
  }

  /** `Path(name).stem`. */
  function Stem(name: string): string {
    if HasSuffix(name) then name[..LastIndexOf(name, '.')] else name
  }

  /** A file name is its stem followed by its suffix. */
  lemma StemSuffixSplit(name: string)
    ensures Stem(name) + Suffix(name) == name
  {
  }

  /** A name whose last "." precedes a non-empty extension splits there. */
  lemma {:induction false} SplitExtension(base: string, ext: string)
    requires base != [] && ext != [] && '.' !in ext
    ensures Suffix(base + "." + ext) == "." + ext && Stem(base + "." + ext) == base
  {
    var name := base + "." + ext;
    assert forall k :: |base| < k < |name| ==> name[k] == ext[k - |base| - 1];
    LastIndexAt(name, '.', |base|);
    assert name[|base|..] == "." + ext;
  }

  /** `f"{year}{Path(url).suffix}"`: the name a report is saved under in the data directory. */
  function OutputName(year: string, url: string): string {
    year + Suffix(PathName(url))
  }

  /** A file `glob("*.pdf")` matches: its name ends with ".pdf". */
  predicate IsPdf(name: string) {
    |name| >= 4 && name[|name| - 4..] == ".pdf"
  }

  /**
   * The URL's path ends in a non-empty file name followed by "." and `ext`:
   * the character before the "." is not a "/" and `ext` is the tail.
   */
  predicate EndsWithExtension(url: string, ext: string) {
    |url| >= |ext| + 2 && url[|url| - |ext| - 2] != '/' && url[|url| - |ext| - 1] == '.'
    && url[|url| - |ext|..] == ext
  }

  /** The last `c` is at `i` when `s[i]` is `c` and no later character is. */
  lemma {:induction false} LastIndexAt(s: string, c: char, i: int)
    requires 0 <= i < |s| && s[i] == c
    requires forall k :: i < k < |s| ==> s[k] != c
    ensures LastIndexOf(s, c) == i
  {
    if i < |s| - 1 {
      LastIndexAt(s[..|s| - 1], c, i);
    }
  }

  /** Searching a tail of `s` finds the same last `c`, shifted. */
  lemma LastIndexOfDrop(s: string, c: char, a: int)
    requires 0 <= a <= |s| && LastIndexOf(s, c) >= a
    ensures LastIndexOf(s[a..], c) == LastIndexOf(s, c) - a
  {
    var i := LastIndexOf(s, c);
    LastIndexOfSpec(s, c);
    var t := s[a..];
    assert forall k :: i - a < k < |t| ==> t[k] == s[k + a];
    LastIndexAt(t, c, i - a);
  }

  /**
   * The suffix of a URL's file name, when the URL's last "." is at `dot`,
   * follows a character other than "/" and is followed by neither "/" nor ".".
   */
  lemma SuffixOfPathName(url: string, dot: int)
    requires 0 < dot < |url| - 1 && url[dot] == '.' && url[dot - 1] != '/'
    requires forall k :: dot < k < |url| ==> url[k] != '.' && url[k] != '/'
    ensures Suffix(PathName(url)) == url[dot..]
  {
    LastIndexAt(url, '.', dot);
    var slash := LastIndexOf(url, '/');
    assert slash < dot - 1;
    LastIndexOfDrop(url, '.', slash + 1);
    var name := PathName(url);
    assert name[dot - slash - 1..] == url[dot..];
  }

  /** The characters after the "." of a URL ending in ".ext" are those of `ext`. */
  lemma {:induction false} ExtensionChars(url: string, ext: string)
    requires ext != [] && '.' !in ext && '/' !in ext
    requires EndsWithExtension(url, ext)
    ensures forall k :: |url| - |ext| - 1 < k < |url| ==> url[k] != '.' && url[k] != '/'
    ensures url[|url| - |ext| - 1..] == "." + ext
  {
    var dot := |url| - |ext| - 1;
    assert forall k :: dot < k < |url| ==> url[k] == ext[k - dot - 1];
    assert url[dot..] == [url[dot]] + url[dot + 1..];
  }

  /** A report whose URL ends in ".ext" is saved as "<year>.ext". */
  lemma SavedWithExtension(year: string, url: string, ext: string)
    requires ext != [] && '.' !in ext && '/' !in ext
    requires EndsWithExtension(url, ext)
    ensures OutputName(year, url) == year + "." + ext
  {
    ExtensionChars(url, ext);
    SuffixOfPathName(url, |url| - |ext| - 1);
  }

  /** The extensions at the end of the registry's URLs. */
  lemma PdfUrlExtensions()
    ensures forall k :: 0 <= k < |Reports| - 1 ==> EndsWithExtension(Reports[k].1, "pdf")
  {
    EarlyPdfUrlExtensions();
    LaterPdfUrlExtensions();
  }

  lemma EarlyPdfUrlExtensions()
    ensures forall k :: 0 <= k < 4 ==> EndsWithExtension(Reports[k].1, "pdf")
  {
  }

  lemma LaterPdfUrlExtensions()
    ensures forall k :: 4 <= k < 8 ==> EndsWithExtension(Reports[k].1, "pdf")
  {
  }

  lemma PresentationUrlExtension()
    ensures EndsWithExtension(Reports[8].1, "pptx")
  {
  }

  /** The registry's keys: the last is "2022-2023", and no other key is. */
  lemma ReportKeys()
    ensures Reports[8].0 == "2022-2023"
    ensures forall k :: 0 <= k < |Reports| - 1 ==> Reports[k].0 != "2022-2023" && Reports[k].0 != []
  {
  }

  /** A name "<year>.pdf" is matched by the "*.pdf" glob and has stem `year`. */
  lemma PdfName(year: string)
    requires year != []
    ensures IsPdf(year + ".pdf") && Stem(year + ".pdf") == year
  {
    var name := year + ".pdf";
    assert year + "." + "pdf" == name;
    SplitExtension(year, "pdf");
    assert name[|name| - 4..] == ".pdf";
  }

  /** A name "<year>.pptx" is not matched by the "*.pdf" glob. */
  lemma PptxName(year: string)
    ensures !IsPdf(year + ".pptx")
  {
    var name := year + ".pptx";
    assert name[|name| - 1] == 'x';
    assert name[|name| - 4..][3] == 'x';
    assert ".pdf"[3] == 'f';
  }

  /**
   * Every report but the last is saved as "<key>.pdf", which `chunk_and_post`
   * picks up with the key as its `report_year`.
   */
  lemma PdfReportNames()
    ensures forall k :: 0 <= k < |Reports| - 1 ==>
              var saved := OutputName(Reports[k].0, Reports[k].1);
              saved == Reports[k].0 + ".pdf" && IsPdf(saved) && Stem(saved) == Reports[k].0
  {
    PdfUrlExtensions();
    ReportKeys();
    forall k | 0 <= k < |Reports| - 1
      ensures OutputName(Reports[k].0, Reports[k].1) == Reports[k].0 + ".pdf"
      ensures IsPdf(Reports[k].0 + ".pdf") && Stem(Reports[k].0 + ".pdf") == Reports[k].0
    {
      SavedWithExtension(Reports[k].0, Reports[k].1, "pdf");
      assert Reports[k].0 + "." + "pdf" == Reports[k].0 + ".pdf";
      PdfName(Reports[k].0);
    }
  }

  /** The last report, "2022-2023", is saved as "2022-2023.pptx", which `chunk_and_post` never picks up. */
  lemma PresentationName()
    ensures Reports[8].0 == "2022-2023"
    ensures OutputName(Reports[8].0, Reports[8].1) == Reports[8].0 + ".pptx"
    ensures !IsPdf(OutputName(Reports[8].0, Reports[8].1))
  {
    PresentationUrlExtension();
    ReportKeys();
    SavedWithExtension(Reports[8].0, Reports[8].1, "pptx");
    assert Reports[8].0 + "." + "pptx" == Reports[8].0 + ".pptx";
    PptxName(Reports[8].0);
  }

  /** Of the downloaded reports, exactly "2022-2023" is not a PDF. */
  lemma OnlyPresentationSkipped()
    ensures forall k :: 0 <= k < |Reports| ==>
              (IsPdf(OutputName(Reports[k].0, Reports[k].1)) <==> Reports[k].0 != "2022-2023")
  {
    ReportKeys();
    PdfReportNames();
    PresentationName();
  }

  /** The data directory: file name to content. */
  class DataDir {
    var files: map<string, Bytes>

    constructor (files: map<string, Bytes>)
      ensures this.files == files
    {
      this.files := files;
    }
  }

  datatype DownloadError = UnknownReport(message: string) | HttpError(url: string)

  /** How many items are fetched before the first fetch that fails (`raise_for_status`). */
  function FetchedCount(items: seq<(string, string)>, fetch: string -> Option<Bytes>): (n: nat)
    ensures n <= |items|
    ensures forall k :: 0 <= k < n ==> fetch(items[k].1).Some?
    ensures n < |items| ==> fetch(items[n].1).None?
  {
    if items == [] || fetch(items[0].1).None? then 0
    else 1 + FetchedCount(items[1..], fetch)
  }

  /** The fetch count is `n` when the first `n` fetches succeed and the next one, if any, fails. */
  lemma {:induction false} FetchedCountAt(items: seq<(string, string)>, fetch: string -> Option<Bytes>, n: nat)
    requires n <= |items|
    requires forall k :: 0 <= k < n ==> fetch(items[k].1).Some?
    requires n < |items| ==> fetch(items[n].1).None?
    ensures FetchedCount(items, fetch) == n
  {
    if n > 0 {
      FetchedCountAt(items[1..], fetch, n - 1);
    }
  }

  /** The writes of the fetched items, in order: output name and content. */
  function Writes(items: seq<(string, string)>, fetch: string -> Option<Bytes>): (writes: seq<(string, Bytes)>)
    requires forall k :: 0 <= k < |items| ==> fetch(items[k].1).Some?
    ensures |writes| == |items|
  {
    if items == [] then []
    else
      var (year, url) := items[|items| - 1];
      Writes(items[..|items| - 1], fetch) + [(OutputName(year, url), fetch(url).value)]
  }

  /** Fetching one more item appends its write. */
  lemma WritesSnoc(items: seq<(string, string)>, fetch: string -> Option<Bytes>, k: nat)
    requires k < |items|
    requires forall k2 :: 0 <= k2 <= k ==> fetch(items[k2].1).Some?
    ensures Writes(items[..k + 1], fetch)
            == Writes(items[..k], fetch) + [(OutputName(items[k].0, items[k].1), fetch(items[k].1).value)]
  {
    assert items[..k + 1][..k] == items[..k];
  }

  /** The directory after applying `writes` in order; a later write to a name replaces an earlier one. */
  function Saved(files: map<string, Bytes>, writes: seq<(string, Bytes)>): map<string, Bytes> {
    if writes == [] then files
    else
      var last := writes[|writes| - 1];
      Saved(files, writes[..|writes| - 1])[last.0 := last.1]
  }

  /** One more write updates the directory at that name. */
  lemma SavedSnoc(files: map<string, Bytes>, writes: seq<(string, Bytes)>, w: (string, Bytes))
    ensures Saved(files, writes + [w]) == Saved(files, writes)[w.0 := w.1]
  {
    assert (writes + [w])[..|writes|] == writes;
  }

  /** Saving only adds or overwrites the written names. */
  lemma {:induction false} SavedKeys(files: map<string, Bytes>, writes: seq<(string, Bytes)>)
    ensures Saved(files, writes).Keys == files.Keys + set w | w in writes :: w.0
  {
    if writes != [] {
      var init := writes[..|writes| - 1];
      SavedKeys(files, init);
      assert writes == init + [writes[|writes| - 1]];
      assert (set w | w in writes :: w.0) == (set w | w in init :: w.0) + {writes[|writes| - 1].0};
    }
  }

  /** Each name ends up with the content of the last write to it. */
  lemma {:induction false} SavedLastWrite(files: map<string, Bytes>, writes: seq<(string, Bytes)>, k: nat)
    requires k < |writes|
    requires forall k2 :: k < k2 < |writes| ==> writes[k2].0 != writes[k].0
    ensures writes[k].0 in Saved(files, writes) && Saved(files, writes)[writes[k].0] == writes[k].1
  {
    var n := |writes| - 1;
    if k < n {
      SavedLastWrite(files, writes[..n], k);
    }
  }

  /** One iteration of `download`: fetch the URL and, when it succeeds, write the content under the output name. */
  method SaveOne(dir: DataDir, year: string, url: string, fetch: string -> Option<Bytes>) returns (ok: bool)
    modifies dir
    ensures ok == fetch(url).Some?
    ensures dir.files == if ok then old(dir.files)[OutputName(year, url) := fetch(url).value] else old(dir.files)
  {
    var outName := OutputName(year, url);
    var response := fetch(url);
    if response.None? {
      return false;
    }
    dir.files := dir.files[outName := response.value];
    return true;
  }

  /**
   * The loop of `download`: fetch each item in order and save it under its
   * output name, stopping at the first fetch that fails. Returns how many
   * items were saved.
   */
  method SaveItems(dir: DataDir, items: seq<(string, string)>, fetch: string -> Option<Bytes>) returns (saved: nat)
    modifies dir
    ensures saved == FetchedCount(items, fetch)
    ensures dir.files == Saved(old(dir.files), Writes(items[..saved], fetch))
  {
    saved := 0;
    while saved < |items|
      invariant saved <= |items|
      invariant forall k :: 0 <= k < saved ==> fetch(items[k].1).Some?
      invariant dir.files == Saved(old(dir.files), Writes(items[..saved], fetch))
    {
      var ok := SaveOne(dir, items[saved].0, items[saved].1, fetch);
      if !ok {
        FetchedCountAt(items, fetch, saved);
        return;
      }
      WritesSnoc(items, fetch, saved);
      SavedSnoc(old(dir.files), Writes(items[..saved], fetch),
                (OutputName(items[saved].0, items[saved].1), fetch(items[saved].1).value));
      saved := saved + 1;
    }
    FetchedCountAt(items, fetch, saved);
  }

  /**
   * `download --report <report>`: select the items, then fetch and save each
   * in turn; an HTTP error stops the loop, leaving the files already written.
   */
  method Download(dir: DataDir, report: string, fetch: string -> Option<Bytes>) returns (error: Option<DownloadError>)
    modifies dir
    ensures SelectReports(report).Err? ==>
              dir.files == old(dir.files) && error == Some(UnknownReport(SelectReports(report).error))
    ensures SelectReports(report).Ok? ==>
              var items := SelectReports(report).value;
              var n := FetchedCount(items, fetch);
              dir.files == Saved(old(dir.files), Writes(items[..n], fetch))
              && error == if n == |items| then None else Some(HttpError(items[n].1))
  {
    var selection := SelectReports(report);
    if selection.Err? {
      return Some(UnknownReport(selection.error));
    }
    var items := selection.value;
    var saved := SaveItems(dir, items, fetch);
    error := if saved == |items| then None else Some(HttpError(items[saved].1));
  }

  // ---------------------------------------------------------------------------
  // chunk_and_post
  // ---------------------------------------------------------------------------

  /** The metadata stored with each chunk. */
  datatype ChunkMetadata = ChunkMetadata(source: string, reportYear: string, page: nat, chunkSize: nat, chunkIndex: nat)

  /** One vector-store record: id, document text and metadata. */
  datatype Record = Record(id: string, document: string, metadata: ChunkMetadata)

  /** The Chroma server: collection name to the records added, in order. */
  class VectorStore {
    var collections: map<string, seq<Record>>

    constructor (collections: map<string, seq<Record>>)
      ensures this.collections == collections
    {
      this.collections := collections;
    }

    method DeleteCollection(name: string)
      requires name in collections
      modifies this
      ensures collections == old(collections) - {name}
    {
      collections := collections - {name};
    }

    method CreateCollection(name: string)
      requires name !in collections
      modifies this
      ensures collections == old(collections)[name := []]
    {
      collections := collections[name := []];
    }

    method Add(name: string, record: Record)
      requires name in collections
      modifies this
      ensures collections == old(collections)[name := old(collections)[name] + [record]]
    {
      collections := collections[name := collections[name] + [record]];
    }

    method Count(name: string) returns (n: nat)
      requires name in collections
      ensures n == |collections[name]|
    {
      n := |collections[name]|;
    }
  }

  /** Pages and chunks shorter than this, once stripped, are skipped. */
  const MinChars := 50

  /** A page is split only when it has text whose stripped length is at least 50. */
  predicate PageKept(text: Option<string>) {
    text.Some? && |Strip(text.value)| >= MinChars
  }

  predicate ChunkKept(chunk: string) {
    |Strip(chunk)| >= MinChars
  }

  /** `f"{report_year}-{i}-{j}"`. */
  function ChunkId(year: string, page: nat, chunk: nat): string {
    year + "-" + NatToString(page) + "-" + NatToString(chunk)
  }

  /** The record for chunk `j` of page `i` of one file. */
  function MakeRecord(source: string, year: string, i: nat, j: nat, chunk: string): Record {
    Record(ChunkId(year, i, j), chunk, ChunkMetadata(source, year, i, |chunk|, j))
  }

  /** The records for the chunks of page `i`: kept chunks only, indexed by their place in the split list. */
  function ChunkRecords(source: string, year: string, i: nat, chunks: seq<string>): seq<Record>
  {
    if chunks == [] then []
    else
      var j := |chunks| - 1;
      ChunkRecords(source, year, i, chunks[..j])
      + (if ChunkKept(chunks[j]) then [MakeRecord(source, year, i, j, chunks[j])] else [])
  }

  /** The records for the pages of one file: kept pages only, indexed by their place in the file. */
  function PageRecords(source: string, year: string, pages: seq<Option<string>>, split: string -> seq<string>): seq<Record>
  {
    if pages == [] then []
    else
      var i := |pages| - 1;
      PageRecords(source, year, pages[..i], split)
      + (if PageKept(pages[i]) then ChunkRecords(source, year, i, split(pages[i].value)) else [])
  }

  /** `str(DATA_DIR / name)`. */
  function SourcePath(dataDir: string, name: string): string {
    dataDir + "/" + name
  }

  /** The records for the PDF files, in the order the directory listing gave them. */
  function Ingested(dataDir: string, files: map<string, Bytes>, listing: seq<string>,
                    extract: Bytes -> seq<Option<string>>, split: string -> seq<string>): seq<Record>
    requires forall f :: f in listing ==> f in files
  {
    if listing == [] then []
    else
      var name := listing[|listing| - 1];
      Ingested(dataDir, files, listing[..|listing| - 1], extract, split)
      + PageRecords(SourcePath(dataDir, name), Stem(name), extract(files[name]), split)
  }

  /** The inner loop of `chunk_and_post`: add the kept chunks of page `i`. */
  method PostChunks(store: VectorStore, name: string, source: string, year: string, i: nat, chunks: seq<string>)
    returns (added: nat)
    requires name in store.collections
    modifies store
    ensures store.collections == old(store.collections)[name := old(store.collections)[name] + ChunkRecords(source, year, i, chunks)]
    ensures added == |ChunkRecords(source, year, i, chunks)|
  {
    ghost var before := store.collections[name];
    added := 0;
    assert chunks[..0] == [];
    assert before + ChunkRecords(source, year, i, chunks[..0]) == before;
    for j := 0 to |chunks|
      invariant store.collections == old(store.collections)[name := before + ChunkRecords(source, year, i, chunks[..j])]
      invariant added == |ChunkRecords(source, year, i, chunks[..j])|
    {
      assert chunks[..j + 1][..j] == chunks[..j];
      ghost var prefix := ChunkRecords(source, year, i, chunks[..j]);
      if ChunkKept(chunks[j]) {
        var record := MakeRecord(source, year, i, j, chunks[j]);
        store.Add(name, record);
        added := added + 1;
        assert ChunkRecords(source, year, i, chunks[..j + 1]) == prefix + [record];
        assert before + prefix + [record] == before + (prefix + [record]);
      } else {
        assert ChunkRecords(source, year, i, chunks[..j + 1]) == prefix + [];
        assert prefix + [] == prefix;
      }
    }
    assert chunks[..|chunks|] == chunks;
  }

  /** The page loop of `chunk_and_post` for one file: split each kept page and add its kept chunks. */
  method PostPages(store: VectorStore, name: string, source: string, year: string,
                   pages: seq<Option<string>>, split: string -> seq<string>)
    returns (added: nat)
    requires name in store.collections
    modifies store
    ensures store.collections == old(store.collections)[name := old(store.collections)[name] + PageRecords(source, year, pages, split)]
    ensures added == |PageRecords(source, year, pages, split)|
  {
    ghost var before := store.collections[name];
    added := 0;
    assert pages[..0] == [];
    assert before + PageRecords(source, year, pages[..0], split) == before;
    for i := 0 to |pages|
      invariant store.collections == old(store.collections)[name := before + PageRecords(source, year, pages[..i], split)]
      invariant added == |PageRecords(source, year, pages[..i], split)|
    {
      assert pages[..i + 1][..i] == pages[..i];
      var text := pages[i];
      ghost var prefix := PageRecords(source, year, pages[..i], split);
      if PageKept(text) {
        var n := PostChunks(store, name, source, year, i, split(text.value));
        added := added + n;
        assert before + prefix + ChunkRecords(source, year, i, split(text.value))
            == before + (prefix + ChunkRecords(source, year, i, split(text.value)));
      } else {
        assert PageRecords(source, year, pages[..i + 1], split) == prefix + [];
        assert prefix + [] == prefix;
      }
    }
    assert pages[..|pages|] == pages;
  }

  // ---------------------------------------------------------------------------
  // What the records are
  // ---------------------------------------------------------------------------

  /** A string of decimal digits has no "-". */
  predicate AllDigits(s: string) {
    forall k :: 0 <= k < |s| ==> IsDigit(s[k])
  }

  /** A string ending in "-" and a run of digits splits uniquely at that "-". */
  lemma {:induction false} SplitAtLastDash(a: string, d: string, a2: string, d2: string)
    requires AllDigits(d) && AllDigits(d2)
    requires a + "-" + d == a2 + "-" + d2
    ensures a == a2 && d == d2
  {
    var s := a + "-" + d;
    assert forall k :: |a| < k < |s| ==> s[k] == d[k - |a| - 1];
    LastIndexAt(s, '-', |a|);
    assert forall k :: |a2| < k < |s| ==> s[k] == d2[k - |a2| - 1];
    LastIndexAt(s, '-', |a2|);
    assert a == s[..|a|] && a2 == s[..|a2|];
    assert d == s[|a| + 1..] && d2 == s[|a2| + 1..];
  }

  /** Ids are unique per (report year, page, chunk index). */
  lemma ChunkIdInjective(year: string, i: nat, j: nat, year2: string, i2: nat, j2: nat)
    requires ChunkId(year, i, j) == ChunkId(year2, i2, j2)
    ensures year == year2 && i == i2 && j == j2
  {
    NatToStringDigits(i);
    NatToStringDigits(j);
    NatToStringDigits(i2);
    NatToStringDigits(j2);
    SplitAtLastDash(year + "-" + NatToString(i), NatToString(j), year2 + "-" + NatToString(i2), NatToString(j2));
    SplitAtLastDash(year, NatToString(i), year2, NatToString(i2));
    NatToStringInjective(i, i2);
    NatToStringInjective(j, j2);
  }

  /** `r` is the record of chunk `r.metadata.chunkIndex` of page `i`, and that chunk is kept. */
  predicate FromChunk(r: Record, source: string, year: string, i: nat, chunks: seq<string>) {
    var j := r.metadata.chunkIndex;
    j < |chunks| && ChunkKept(chunks[j]) && r == MakeRecord(source, year, i, j, chunks[j])
  }

  /** `r` is the record of a kept chunk of the kept page `r.metadata.page`. */
  predicate FromPage(r: Record, source: string, year: string, pages: seq<Option<string>>, split: string -> seq<string>) {
    var i := r.metadata.page;
    i < |pages| && PageKept(pages[i]) && FromChunk(r, source, year, i, split(pages[i].value))
  }

  /** `r` is the record of a kept chunk of a kept page of the file `name`. */
  predicate FromFile(r: Record, dataDir: string, files: map<string, Bytes>, name: string,
                     extract: Bytes -> seq<Option<string>>, split: string -> seq<string>)
    requires name in files
  {
    FromPage(r, SourcePath(dataDir, name), Stem(name), extract(files[name]), split)
  }

  /** Records in increasing chunk order. */
  predicate ChunkOrdered(rs: seq<Record>) {
    forall a, b :: 0 <= a < b < |rs| ==> rs[a].metadata.chunkIndex < rs[b].metadata.chunkIndex
  }

  /** Records of one page come from its kept chunks, in increasing chunk order. */
  lemma {:induction false} ChunkRecordsSound(source: string, year: string, i: nat, chunks: seq<string>)
    ensures forall r :: r in ChunkRecords(source, year, i, chunks) ==> FromChunk(r, source, year, i, chunks)
    ensures ChunkOrdered(ChunkRecords(source, year, i, chunks))
  {
    if chunks != [] {
      var j := |chunks| - 1;
      var xs := ChunkRecords(source, year, i, chunks[..j]);
      ChunkRecordsSound(source, year, i, chunks[..j]);
      forall a | 0 <= a < |xs|
        ensures xs[a].metadata.chunkIndex < j && FromChunk(xs[a], source, year, i, chunks)
      {
        assert xs[a] in xs;
        assert chunks[..j][xs[a].metadata.chunkIndex] == chunks[xs[a].metadata.chunkIndex];
      }
      var ys := if ChunkKept(chunks[j]) then [MakeRecord(source, year, i, j, chunks[j])] else [];
      var rs := ChunkRecords(source, year, i, chunks);
      assert rs == xs + ys;
      forall r | r in rs
        ensures FromChunk(r, source, year, i, chunks)
      {
        if r !in ys {
          var a :| 0 <= a < |xs| && xs[a] == r;
        }
      }
      forall a, b | 0 <= a < b < |rs|
        ensures rs[a].metadata.chunkIndex < rs[b].metadata.chunkIndex
      {
        if b < |xs| {
          assert rs[a] == xs[a] && rs[b] == xs[b];
          assert xs[a].metadata.chunkIndex < xs[b].metadata.chunkIndex;
        } else {
          assert rs[a] == xs[a] && rs[b] == ys[0];
          assert xs[a].metadata.chunkIndex < j;
        }
      }
    }
  }

  /** Every kept chunk of a page has its record. */
  lemma {:induction false} ChunkRecordsComplete(source: string, year: string, i: nat, chunks: seq<string>, j: nat)
    requires j < |chunks| && ChunkKept(chunks[j])
    ensures MakeRecord(source, year, i, j, chunks[j]) in ChunkRecords(source, year, i, chunks)
  {
    var last := |chunks| - 1;
    if j < last {
      ChunkRecordsComplete(source, year, i, chunks[..last], j);
      assert chunks[..last][j] == chunks[j];
    }
  }

  /** The order of records within a file: by page, then by chunk. */
  predicate Before(r: Record, r2: Record) {
    r.metadata.page < r2.metadata.page
    || (r.metadata.page == r2.metadata.page && r.metadata.chunkIndex < r2.metadata.chunkIndex)
  }

  /** Records in page-then-chunk order. */
  predicate PageOrdered(rs: seq<Record>) {
    forall a, b :: 0 <= a < b < |rs| ==> Before(rs[a], rs[b])
  }

  /** Records of one file come from kept chunks of kept pages. */
  lemma {:induction false} PageRecordsSound(source: string, year: string, pages: seq<Option<string>>, split: string -> seq<string>)
    ensures forall r :: r in PageRecords(source, year, pages, split) ==> FromPage(r, source, year, pages, split)
  {
    if pages != [] {
      var i := |pages| - 1;
      var init := pages[..i];
      var xs := PageRecords(source, year, init, split);
      PageRecordsSound(source, year, init, split);
      forall a | 0 <= a < |xs|
        ensures FromPage(xs[a], source, year, pages, split)
      {
        assert xs[a] in xs;
        assert init[xs[a].metadata.page] == pages[xs[a].metadata.page];
      }
      var ys := if PageKept(pages[i]) then ChunkRecords(source, year, i, split(pages[i].value)) else [];
      if PageKept(pages[i]) {
        ChunkRecordsSound(source, year, i, split(pages[i].value));
      }
      assert PageRecords(source, year, pages, split) == xs + ys;
      forall r | r in xs + ys
        ensures FromPage(r, source, year, pages, split)
      {
        if r in xs {
          var a :| 0 <= a < |xs| && xs[a] == r;
        }
      }
    }
  }

  /** Records of earlier pages followed by ordered records of page `i` stay ordered. */
  lemma OrderedAppend(xs: seq<Record>, ys: seq<Record>, i: nat)
    requires PageOrdered(xs) && ChunkOrdered(ys)
    requires forall x :: x in xs ==> x.metadata.page < i
    requires forall y :: y in ys ==> y.metadata.page == i
    ensures PageOrdered(xs + ys)
  {
    var rs := xs + ys;
    forall a, b | 0 <= a < b < |rs|
      ensures Before(rs[a], rs[b])
    {
      if b < |xs| {
        assert rs[a] == xs[a] && rs[b] == xs[b];
      } else if a < |xs| {
        assert rs[a] == xs[a] && rs[b] == ys[b - |xs|];
        assert xs[a] in xs && ys[b - |xs|] in ys;
      } else {
        assert rs[a] == ys[a - |xs|] && rs[b] == ys[b - |xs|];
        assert ys[a - |xs|] in ys && ys[b - |xs|] in ys;
      }
    }
  }

  /** Records of one file are in page-then-chunk order. */
  lemma {:induction false} PageRecordsOrdered(source: string, year: string, pages: seq<Option<string>>, split: string -> seq<string>)
    ensures PageOrdered(PageRecords(source, year, pages, split))
  {
    if pages != [] {
      var i := |pages| - 1;
      var init := pages[..i];
      PageRecordsSound(source, year, init, split);
      PageRecordsOrdered(source, year, init, split);
      if PageKept(pages[i]) {
        ChunkRecordsSound(source, year, i, split(pages[i].value));
        OrderedAppend(PageRecords(source, year, init, split), ChunkRecords(source, year, i, split(pages[i].value)), i);
      } else {
        assert PageRecords(source, year, pages, split) == PageRecords(source, year, init, split) + [];
      }
    }
  }

  /** Every kept chunk of every kept page of a file has its record. */
  lemma {:induction false} PageRecordsComplete(source: string, year: string, pages: seq<Option<string>>,
                                               split: string -> seq<string>, i: nat, j: nat)
    requires i < |pages| && PageKept(pages[i])
    requires j < |split(pages[i].value)| && ChunkKept(split(pages[i].value)[j])
    ensures MakeRecord(source, year, i, j, split(pages[i].value)[j]) in PageRecords(source, year, pages, split)
  {
    var last := |pages| - 1;
    if i < last {
      assert pages[..last][i] == pages[i];
      PageRecordsComplete(source, year, pages[..last], split, i, j);
    } else {
      ChunkRecordsComplete(source, year, i, split(pages[i].value), j);
    }
  }

  /** Every record in the collection is that of a kept chunk of a kept page of a listed PDF. */
  lemma {:induction false} IngestedSound(dataDir: string, files: map<string, Bytes>, listing: seq<string>,
                                         extract: Bytes -> seq<Option<string>>, split: string -> seq<string>)
    requires forall f :: f in listing ==> f in files
    ensures forall r :: r in Ingested(dataDir, files, listing, extract, split) ==>
              exists k :: 0 <= k < |listing| && FromFile(r, dataDir, files, listing[k], extract, split)
  {
    if listing != [] {
      var n := |listing| - 1;
      var init := listing[..n];
      IngestedSound(dataDir, files, init, extract, split);
      assert forall k :: 0 <= k < n ==> init[k] == listing[k];
      var name := listing[n];
      PageRecordsSound(SourcePath(dataDir, name), Stem(name), extract(files[name]), split);
      forall r | r in PageRecords(SourcePath(dataDir, name), Stem(name), extract(files[name]), split)
        ensures FromFile(r, dataDir, files, listing[n], extract, split)
      {
      }
    }
  }

  /** Every kept chunk of every kept page of every listed PDF is in the collection. */
  lemma {:induction false} IngestedComplete(dataDir: string, files: map<string, Bytes>, listing: seq<string>,
                                            extract: Bytes -> seq<Option<string>>, split: string -> seq<string>,
                                            k: nat, i: nat, j: nat)
    requires forall f :: f in listing ==> f in files
    requires k < |listing|
    requires var pages := extract(files[listing[k]]);
             i < |pages| && PageKept(pages[i])
             && j < |split(pages[i].value)| && ChunkKept(split(pages[i].value)[j])
    ensures var name := listing[k];
            var chunk := split(extract(files[name])[i].value)[j];
            MakeRecord(SourcePath(dataDir, name), Stem(name), i, j, chunk) in Ingested(dataDir, files, listing, extract, split)
  {
    var n := |listing| - 1;
    var name := listing[k];
    if k < n {
      assert listing[..n][k] == name;
      IngestedComplete(dataDir, files, listing[..n], extract, split, k, i, j);
    } else {
      PageRecordsComplete(SourcePath(dataDir, name), Stem(name), extract(files[name]), split, i, j);
    }
  }

  /** No two records share an id. */
  predicate IdsDistinct(rs: seq<Record>) {
    forall a, b :: 0 <= a < b < |rs| ==> rs[a].id != rs[b].id
  }

  /** A record's id is built from its metadata. */
  predicate IdMatches(r: Record) {
    r.id == ChunkId(r.metadata.reportYear, r.metadata.page, r.metadata.chunkIndex)
  }

  /** The records of one file have distinct ids, all carrying that file's year. */
  lemma PageRecordIds(source: string, year: string, pages: seq<Option<string>>, split: string -> seq<string>)
    ensures var rs := PageRecords(source, year, pages, split);
            IdsDistinct(rs) && forall r :: r in rs ==> r.metadata.reportYear == year && IdMatches(r)
  {
    var rs := PageRecords(source, year, pages, split);
    PageRecordsSound(source, year, pages, split);
    PageRecordsOrdered(source, year, pages, split);
    forall a, b | 0 <= a < b < |rs|
      ensures rs[a].id != rs[b].id
    {
      assert rs[a] in rs && rs[b] in rs;
      if rs[a].id == rs[b].id {
        var m, m2 := rs[a].metadata, rs[b].metadata;
        ChunkIdInjective(m.reportYear, m.page, m.chunkIndex, m2.reportYear, m2.page, m2.chunkIndex);
      }
    }
  }

  /**
   * When no two listed PDFs share a stem (their `report_year`), no two
   * records in the collection share an id.
   */
  lemma {:induction false} IngestedIdsDistinct(dataDir: string, files: map<string, Bytes>, listing: seq<string>,
                                               extract: Bytes -> seq<Option<string>>, split: string -> seq<string>)
    requires forall f :: f in listing ==> f in files
    requires forall a, b :: 0 <= a < b < |listing| ==> Stem(listing[a]) != Stem(listing[b])
    ensures IdsDistinct(Ingested(dataDir, files, listing, extract, split))
  {
    if listing != [] {
      var n := |listing| - 1;
      var init := listing[..n];
      var name := listing[n];
      var xs := Ingested(dataDir, files, init, extract, split);
      var ys := PageRecords(SourcePath(dataDir, name), Stem(name), extract(files[name]), split);
      IngestedIdsDistinct(dataDir, files, init, extract, split);
      IngestedSound(dataDir, files, init, extract, split);
      PageRecordIds(SourcePath(dataDir, name), Stem(name), extract(files[name]), split);
      forall x | x in xs
        ensures IdMatches(x) && x.metadata.reportYear != Stem(name)
      {
        var k :| 0 <= k < |init| && FromFile(x, dataDir, files, init[k], extract, split);
        assert init[k] == listing[k];
      }
      IdsApart(xs, ys, Stem(name));
      DistinctAppend(xs, ys);
    }
  }

  /** A PDF name longer than ".pdf" is its stem followed by ".pdf". */
  lemma PdfStem(name: string)
    requires IsPdf(name) && |name| > 4
    ensures name == Stem(name) + ".pdf"
  {
    var dot := |name| - 4;
    assert name[dot..] == ".pdf";
    assert name[dot] == '.' && name[dot + 1] == 'p' && name[dot + 2] == 'd' && name[dot + 3] == 'f';
    LastIndexAt(name, '.', dot);
    assert name == name[..dot] + name[dot..];
  }

  /** Two different PDF names longer than ".pdf" have different stems, hence different `report_year`s. */
  lemma PdfStemsDistinct(a: string, b: string)
    requires IsPdf(a) && IsPdf(b) && |a| > 4 && |b| > 4 && a != b
    ensures Stem(a) != Stem(b)
  {
    PdfStem(a);
    PdfStem(b);
  }

  /**
   * A listing of distinct PDF names, none of them the bare name ".pdf",
   * yields a collection without repeated ids.
   */
  lemma ListingIdsDistinct(dataDir: string, files: map<string, Bytes>, listing: seq<string>,
                           extract: Bytes -> seq<Option<string>>, split: string -> seq<string>)
    requires forall f :: f in listing ==> f in files && IsPdf(f) && f != ".pdf"
    requires forall a, b :: 0 <= a < b < |listing| ==> listing[a] != listing[b]
    ensures IdsDistinct(Ingested(dataDir, files, listing, extract, split))
  {
    forall a, b | 0 <= a < b < |listing|
      ensures Stem(listing[a]) != Stem(listing[b])
    {
      assert listing[a] in listing && listing[b] in listing;
      PdfStemsDistinct(listing[a], listing[b]);
    }
    IngestedIdsDistinct(dataDir, files, listing, extract, split);
  }

  /** Records whose ids match their metadata and whose years differ have different ids. */
  lemma IdsApart(xs: seq<Record>, ys: seq<Record>, year: string)
    requires forall x :: x in xs ==> IdMatches(x) && x.metadata.reportYear != year
    requires forall y :: y in ys ==> IdMatches(y) && y.metadata.reportYear == year
    ensures forall x, y :: x in xs && y in ys ==> x.id != y.id
  {
    forall x, y | x in xs && y in ys
      ensures x.id != y.id
    {
      if x.id == y.id {
        var m, m2 := x.metadata, y.metadata;
        ChunkIdInjective(m.reportYear, m.page, m.chunkIndex, m2.reportYear, m2.page, m2.chunkIndex);
      }
    }
  }

  /** Two id-distinct sequences with no id in common concatenate to an id-distinct sequence. */
  lemma DistinctAppend(xs: seq<Record>, ys: seq<Record>)
    requires IdsDistinct(xs) && IdsDistinct(ys)
    requires forall x, y :: x in xs && y in ys ==> x.id != y.id
    ensures IdsDistinct(xs + ys)
  {
    var rs := xs + ys;
    forall a, b | 0 <= a < b < |rs|
      ensures rs[a].id != rs[b].id
    {
      if b < |xs| {
        assert rs[a] == xs[a] && rs[b] == xs[b];
      } else if a >= |xs| {
        assert rs[a] == ys[a - |xs|] && rs[b] == ys[b - |xs|];
      } else {
        assert rs[a] in xs && rs[b] in ys;
      }
    }
  }

  /** `done` lists, without repetition, the members of `all` that are not `pending`. */
  ghost predicate Enumerating(done: seq<string>, pending: set<string>, all: set<string>) {
    (forall f :: f in done || f in pending <==> f in all)
    && (forall f :: f in done ==> f !in pending)
    && (forall a, b :: 0 <= a < b < |done| ==> done[a] != done[b])
  }

  /** Moving one pending name to the end of the listing keeps the enumeration. */
  lemma EnumerationStep(done: seq<string>, pending: set<string>, all: set<string>, next: string)
    requires Enumerating(done, pending, all) && next in pending
    ensures Enumerating(done + [next], pending - {next}, all)
  {
  }

  /** Processing one more file appends that file's records. */
  lemma IngestedSnoc(dataDir: string, files: map<string, Bytes>, listing: seq<string>, file: string,
                     extract: Bytes -> seq<Option<string>>, split: string -> seq<string>)
    requires forall f :: f in listing ==> f in files
    requires file in files
    ensures forall f :: f in listing + [file] ==> f in files
    ensures Ingested(dataDir, files, listing + [file], extract, split)
         == Ingested(dataDir, files, listing, extract, split)
            + PageRecords(SourcePath(dataDir, file), Stem(file), extract(files[file]), split)
  {
    assert (listing + [file])[..|listing|] == listing;
  }

  lemma UpdateTwice<K, V>(m: map<K, V>, k: K, a: V, b: V)
    ensures m[k := a][k := b] == m[k := b]
  {
  }

  /** The setup of `chunk_and_post`: delete the collection if it is there, then create it empty. */
  method ResetCollection(store: VectorStore, name: string)
    modifies store
    ensures store.collections == old(store.collections)[name := []]
  {
    if name in store.collections {
      store.DeleteCollection(name);
    }
    store.CreateCollection(name);
  }

  /** The body of the file loop of `chunk_and_post`: add the records of one more PDF. */
  method PostFile(store: VectorStore, name: string, dataDir: string, files: map<string, Bytes>,
                  done: seq<string>, file: string,
                  extract: Bytes -> seq<Option<string>>, split: string -> seq<string>)
    returns (added: nat)
    requires forall f :: f in done ==> f in files
    requires file in files
    requires name in store.collections && store.collections[name] == Ingested(dataDir, files, done, extract, split)
    modifies store
    ensures forall f :: f in done + [file] ==> f in files
    ensures store.collections == old(store.collections)[name := Ingested(dataDir, files, done + [file], extract, split)]
    ensures |Ingested(dataDir, files, done + [file], extract, split)| == |old(store.collections)[name]| + added
  {
    IngestedSnoc(dataDir, files, done, file, extract, split);
    added := PostPages(store, name, SourcePath(dataDir, file), Stem(file), extract(files[file]), split);
  }

  /**
   * `chunk_and_post`: drop the collection if it exists, create it empty, then
   * for each PDF in the data directory (in whatever order the listing yields
   * them) add one record per kept chunk of each kept page, counting them.
   * Returns the files in the order processed, the counter and
   * `collection.count()`.
   */
  method ChunkAndPost(store: VectorStore, name: string, dataDir: string, dir: DataDir,
                      extract: Bytes -> seq<Option<string>>, split: string -> seq<string>)
    returns (processed: seq<string>, totalChunks: nat, finalCount: nat)
    modifies store
    ensures forall f :: f in processed <==> f in dir.files && IsPdf(f)
    ensures forall a, b :: 0 <= a < b < |processed| ==> processed[a] != processed[b]
    ensures store.collections == old(store.collections)[name := Ingested(dataDir, dir.files, processed, extract, split)]
    ensures totalChunks == finalCount == |Ingested(dataDir, dir.files, processed, extract, split)|
  {
    ResetCollection(store, name);
    totalChunks := 0;
    processed := [];
    var files := dir.files;
    var pending := set f | f in files && IsPdf(f);
    ghost var pdfs := pending;
    while pending != {}
      invariant pdfs <= files.Keys
      invariant Enumerating(processed, pending, pdfs)
      invariant forall f :: f in processed ==> f in files
      invariant store.collections == old(store.collections)[name := Ingested(dataDir, files, processed, extract, split)]
      invariant totalChunks == |store.collections[name]|
      decreases |pending|
    {
      var file :| file in pending;
      ghost var before := store.collections;
      var added := PostFile(store, name, dataDir, files, processed, file, extract, split);
      UpdateTwice(old(store.collections), name, before[name], store.collections[name]);
      totalChunks := totalChunks + added;
      EnumerationStep(processed, pending, pdfs, file);
      processed := processed + [file];
      pending := pending - {file};
    }
    finalCount := store.Count(name);
  }
}
