/**
 * The `import_urls` run: read entries, build records, fetch every URL, keep
 * the pages that arrived, enrich the records from them and insert the batch.
 *
 * Transport failures are dropped from the page list BEFORE it is zipped with
 * the records, so the k-th surviving page goes to the k-th record whatever
 * URL it came from, and records past the number of surviving pages are left
 * as they were built.
 */
module Importer {
  import opened Wrappers
  import opened ResourceModel
  import opened Downloader
  import opened KeepOk

  /** A fetched response; `body` is the outcome of reading it as text (`page.text()`). */
  datatype Page = Page(body: Option<string>)

  /** HTML parsing followed by `extract_title_and_content`: title and description, each perhaps absent. */
  type Extractor = string -> (Option<string>, Option<string>)

  /** All fields but `live_status`, `title` and `auto_descr` agree. */
  predicate SameIdentity(a: Resource, b: Resource) {
    a.(liveStatus := "", title := "", autoDescr := "") == b.(liveStatus := "", title := "", autoDescr := "")
  }

  /**
   * One step of the zip loop.  A body that cannot be read marks the record
   * dead and leaves its text alone; a readable body sets title and
   * description from the extractor, the sentinel standing in for what it
   * did not find, and leaves the liveness alone.
   */
  function EnrichOne(r: Resource, page: Page, extract: Extractor): (e: Resource)
    ensures SameIdentity(e, r)
    ensures page.body.None? ==> e.liveStatus == Dead && e.title == r.title && e.autoDescr == r.autoDescr
    ensures page.body.Some? ==>
      var (title, descr) := extract(page.body.value);
      && e.liveStatus == r.liveStatus
      && (title.Some? ==> e.title == title.value) && (title.None? ==> e.title == Sentinel)
      && (descr.Some? ==> e.autoDescr == descr.value) && (descr.None? ==> e.autoDescr == Sentinel)
  {
    match page.body
    case None => r.(liveStatus := Dead)
    case Some(body) =>
      var (title, content) := extract(body);
      r.(title := title.UnwrapOr(Sentinel), autoDescr := content.UnwrapOr(Sentinel))
  }

  /**
   * `pages.zip(uris)`: the k-th page enriches the k-th record for every k
   * below both lengths; the records beyond the pages stay as they are.
   */
  function Enriched(uris: seq<Resource>, pages: seq<Page>, extract: Extractor): (e: seq<Resource>)
    ensures |e| == |uris|
    ensures forall k :: 0 <= k < |uris| && k < |pages| ==> e[k] == EnrichOne(uris[k], pages[k], extract)
    ensures forall k :: |pages| <= k < |uris| ==> e[k] == uris[k]
    decreases |uris|
  {
    if uris == [] || pages == [] then uris
    else [EnrichOne(uris[0], pages[0], extract)] + Enriched(uris[1..], pages[1..], extract)
  }

  /** The zip loop over `uris.iter_mut()`, updating the records in place. */
  method EnrichInPlace(uris: array<Resource>, pages: seq<Page>, extract: Extractor)
    modifies uris
    ensures uris[..] == Enriched(old(uris[..]), pages, extract)
  {
    var n := if |pages| < uris.Length then |pages| else uris.Length;
    for k := 0 to n
      invariant forall i :: 0 <= i < k ==> uris[i] == EnrichOne(old(uris[i]), pages[i], extract)
      invariant forall i :: k <= i < uris.Length ==> uris[i] == old(uris[i])
    {
      uris[k] := EnrichOne(uris[k], pages[k], extract);
    }
  }

  /** The URL strings handed to the fetcher, in record order. */
  function FetchedUrls(uris: seq<Resource>): (urls: seq<string>)
    ensures |urls| == |uris|
    ensures forall k :: 0 <= k < |uris| ==> urls[k] == uris[k].url
  {
    if uris == [] then [] else [uris[0].url] + FetchedUrls(uris[1..])
  }

  /**
   * The batch a run hands to `insert_resources`.  `createEntries` and
   * `downloadPages` stand for the downloader crate's functions of those names.
   */
  function ImportedBatch<In, ParseErr, FetchErr>(
    lines: seq<Result<In, ParseErr>>,
    createEntries: (seq<In>, Resource) -> seq<Resource>,
    downloadPages: seq<string> -> seq<Result<Page, FetchErr>>,
    extract: Extractor): (batch: seq<Resource>)
    ensures |batch| == |createEntries(Oks(lines), Default())|
  {
    var uris := createEntries(Oks(lines), Default());
    Enriched(uris, Oks(downloadPages(FetchedUrls(uris))), extract)
  }

  /**
   * `import_urls`, from the deserialised lines on; opening the file and the
   * logging are left out.
   */
  method ImportUrls<In, ParseErr, FetchErr>(
    table: Table,
    lines: seq<Result<In, ParseErr>>,
    createEntries: (seq<In>, Resource) -> seq<Resource>,
    downloadPages: seq<string> -> seq<Result<Page, FetchErr>>,
    extract: Extractor)
    modifies table
    ensures table.rows == old(table.rows) + Rows(ImportedBatch(lines, createEntries, downloadPages, extract))
  {
    var blankResource := Default();
    var entries := ParseEntries(lines);
    var created := createEntries(entries, blankResource);
    var uris := new Resource[|created|](i requires 0 <= i < |created| => created[i]);
    assert uris[..] == created;
    var fetched := downloadPages(FetchedUrls(uris[..]));
    var pages := Oks(fetched);
    EnrichInPlace(uris, pages, extract);
    InsertResources(table, uris[..]);
  }

  /**
   * A transport failure has the same effect as if that URL had not been
   * fetched at all: it only shortens the page list.
   */
  lemma TransportFailureOnlyShortens<FetchErr>(
    uris: seq<Resource>, before: seq<Result<Page, FetchErr>>, e: FetchErr,
    after: seq<Result<Page, FetchErr>>, extract: Extractor)
    ensures Enriched(uris, Oks(before + [Err(e)] + after), extract) == Enriched(uris, Oks(before + after), extract)
  {
    OksSkipsErr(before, e, after);
  }

  /**
   * A record's liveness changes only through a page whose body could not be
   * read; so when every page that arrived was readable, no record is marked
   * dead, however many fetches failed.
   */
  lemma LivenessOnlyFromBodyFailure<FetchErr>(uris: seq<Resource>, fetched: seq<Result<Page, FetchErr>>, extract: Extractor)
    requires forall j :: 0 <= j < |fetched| && fetched[j].Ok? ==> fetched[j].value.body.Some?
    ensures forall k :: 0 <= k < |uris| ==>
      Enriched(uris, Oks(fetched), extract)[k].liveStatus == uris[k].liveStatus
  {
    var pages := Oks(fetched);
    forall k | 0 <= k < |uris| && k < |pages|
      ensures pages[k].body.Some?
    {
      OksFromInput(fetched, k);
    }
  }

  /**
   * The page fetched for URL j enriches record "number of successful fetches
   * before j", which is record j itself exactly when no fetch before j failed.
   */
  lemma PageLandsOn<FetchErr>(uris: seq<Resource>, fetched: seq<Result<Page, FetchErr>>, extract: Extractor, j: nat)
    requires j < |fetched| && fetched[j].Ok?
    requires |Oks(fetched[..j])| < |uris|
    ensures var k := |Oks(fetched[..j])|;
      Enriched(uris, Oks(fetched), extract)[k] == EnrichOne(uris[k], fetched[j].value, extract)
    ensures |Oks(fetched[..j])| == j <==> forall i :: 0 <= i < j ==> fetched[i].Ok?
  {
    var prefix := fetched[..j];
    OksAt(fetched, j);
    var pages := Oks(fetched);
    var k := |Oks(prefix)|;
    assert pages[k] == fetched[j].value;
    assert k < |pages| && k < |uris|;
    OksAllOk(prefix);
    assert (forall i :: 0 <= i < j ==> prefix[i].Ok?) <==> (forall i :: 0 <= i < j ==> fetched[i].Ok?);
  }

  /**
   * The mix-up in numbers: the first of two URLs fails to fetch and the
   * second returns "B".  The first record gets the second URL's title and
   * stays live; the second record is never visited.
   */
  lemma FirstFailureShiftsPages()
    ensures
      var a := Default().(url := "https://example.com/a");
      var b := Default().(url := "https://example.com/b");
      var fetched: seq<Result<Page, string>> := [Err("timeout"), Ok(Page(Some("B")))];
      var extract: Extractor := body => (Some(body), None);
      Enriched([a, b], Oks(fetched), extract) == [a.(title := "B"), b]
  {
  }

  // The collaborators of the scenario below: records carry only their URL,
  // only /a can be fetched, and a page's title is found only in /a's body.

  function ScenarioCreate(entries: seq<string>, blank: Resource): seq<Resource> {
    if entries == [] then [] else [blank.(url := entries[0])] + ScenarioCreate(entries[1..], blank)
  }

  function ScenarioDownload(urls: seq<string>): seq<Result<Page, string>> {
    if urls == [] then []
    else
      var outcome := if urls[0] == "https://example.com/a" then Ok(Page(Some("<title>A</title>"))) else Err("connect");
      [outcome] + ScenarioDownload(urls[1..])
  }

  function ScenarioExtract(body: string): (Option<string>, Option<string>) {
    if body == "<title>A</title>" then (Some("A"), None) else (None, None)
  }

  /**
   * A whole run over three lines, the last of which does not deserialise:
   * the fetch of /a returns a page titled "A", the fetch of /b fails in
   * transport.  Two records reach the table; /b's record keeps the liveness
   * and sentinel title it was built with, because its failure is dropped.
   */
  lemma TwoLinesOneTransportFailure()
    ensures
      var lines: seq<Result<string, string>> :=
        [Ok("https://example.com/a"), Ok("https://example.com/b"), Err("badline")];
      var batch := ImportedBatch(lines, ScenarioCreate, ScenarioDownload, ScenarioExtract);
      && |batch| == 2
      && batch[0].liveStatus == Live && batch[0].title == "A"
      && batch[1].liveStatus == Live && batch[1].title == Sentinel
  {
    var lines: seq<Result<string, string>> :=
      [Ok("https://example.com/a"), Ok("https://example.com/b"), Err("badline")];
    assert lines[..2][..1][..0] == [];
    assert lines[..2][..1] == [Ok("https://example.com/a")];
    assert lines[..2] == [Ok("https://example.com/a"), Ok("https://example.com/b")];
    assert Oks(lines) == ["https://example.com/a", "https://example.com/b"];
    var a := Default().(url := "https://example.com/a");
    var b := Default().(url := "https://example.com/b");
    assert ScenarioCreate(Oks(lines), Default()) == [a, b];
    assert FetchedUrls([a, b]) == [a.url, b.url];
    var fetched: seq<Result<Page, string>> := [Ok(Page(Some("<title>A</title>"))), Err("connect")];
    assert ScenarioDownload([a.url, b.url]) == fetched;
    assert fetched[..1][..0] == [];
    assert fetched[..1] == [Ok(Page(Some("<title>A</title>")))];
    assert Oks(fetched) == [Page(Some("<title>A</title>"))];
  }
}
