# URL ingestion of dioxus-halres, modelled in Dafny

The application imports a tab-separated list of timestamped URLs (`import_urls`):
it deserialises the lines, builds one resource record per line, fetches every
URL, fills in title and description from the pages that arrived, and inserts the
records into the `uris` table. This project models the data-shaping part of that
run, and proves what it does to the records and rows.

Modules, one per source component:

- `ResourceModel` (`resource.dfy`): the 13-field `Resource` record and its `Default`.
  Field names are in camelCase (`uri_uuid` is `uriUuid`, `live_status` is `liveStatus`, and so on).
- `Downloader` (`downloader.dfy`): `make_resource` as the pure function `MakeResource`.
  `insert_resources` becomes `InsertResources`, a loop that appends one 13-value row per record to a `Table`.
- `KeepOk` (`keep_ok.dfy`): keeping the `Ok` values of a result sequence in order.
  This is `Oks`; the csv read loop (`ParseEntries`) and the fetch-result `filter_map` both do exactly this.
- `Importer` (`importer.dfy`): the enrichment zip.
  It has a spec function `Enriched` and an in-place loop `EnrichInPlace` over an array of records.
  It also has the whole run, `ImportUrls`, specified by `ImportedBatch`.
- `Urls`, `Decimal`, `Wrappers`: a URL as components with its serialisation.
  Also the decimal rendering of the row index, and `Option`/`Result`.

Foreign code enters as function-typed parameters:
- BLAKE3 hashing: `hash`.
- The timestamp's `to_string`: `render`.
- HTML parsing plus `extract_title_and_content`: `extract`.
- `create_entries` and `download_pages`: `createEntries` and `downloadPages`.
- The csv `Input` type and the error types: type parameters.

What the run does to the records:

- A transport failure never marks its own record dead. It is dropped before the page list is zipped with the records.
  So every later page moves one record towards the front (`FirstFailureShiftsPages`, `PageLandsOn`).
  The records past the number of surviving pages are never visited.
- A record's `live_status` becomes `"0"` only when a page arrived but its body could not be read (`LivenessOnlyFromBodyFailure`).
- The first value of each row is the record's position in the batch (`index.to_string()`), not `uri_uuid`.
  The identifier is computed but never reaches the table (`RowsIgnoreUuid`).
- `make_resource` sets `live_status` to `"0"`, unlike the default `"1"`.

## Model

| member | source | states |
|---|---|---|
| `ResourceModel.Default` | src/resource.rs:20-37 | the blank record is live ("1"); url, scheme, host, path, title and auto_descr are the sentinel "-"; uri_uuid and man_descr are empty; both users are "api"; both times are empty and so equal |
| `Downloader.MakeResource` | src/backend/downloader.rs:4-23 | title and description are copied unchanged; live_status is "0"; url is the serialised URL and uri_uuid its hash; scheme and path come from the URL; host is the URL's host or "-" when it has none; both times are the rendered timestamp; man_descr and both users keep their defaults |
| `Downloader.SameUrlSameId` | src/backend/downloader.rs:15-16 | records made from entries with equal serialised URLs have equal identifiers |
| `Downloader.MadeSchemeMatchesUrl` | src/backend/downloader.rs:15-17 | for a valid scheme, the scheme field equals the scheme read back from the head of the url field |
| `Downloader.HostlessFileUrl` | src/backend/downloader.rs:15-19 | a URL with an empty authority and no host (`file:///tmp/foo`) gives url "file:///tmp/foo", host "-", path "/tmp/foo" and the hash of that url as identifier |
| `Urls.SerializeKeepsScheme` | src/backend/downloader.rs:15-17 | the scheme can be read back from the serialised URL (everything before its first ':') |
| `Decimal.NatToString` | src/backend/downloader.rs:31 | `index.to_string()` is a non-empty digit string without a leading zero |
| `Decimal.ParseNatToString` | src/backend/downloader.rs:31 | reading the rendered index back as a decimal number gives the index |
| `Decimal.NatToStringInjective` | src/backend/downloader.rs:31 | two indices render to the same string exactly when they are equal |
| `Downloader.Rows` | src/backend/downloader.rs:25-48 | one row per record of the batch |
| `Downloader.RowRoundTrip` | src/backend/downloader.rs:30-44 | a row has 13 values; its first value parses back to the row's position, and the other twelve give back every field of the record except uri_uuid, in the order url, scheme, host, path, live_status, title, auto_descr, man_descr, crea_user, crea_time, modi_user, modi_time |
| `Downloader.RowKeysDistinct` | src/backend/downloader.rs:26-31 | rows of one batch have pairwise distinct first values, even for records with equal identifiers |
| `Downloader.RowsIgnoreUuid` | src/backend/downloader.rs:30-44 | two batches that differ only in uri_uuid give identical rows: the identifier is never inserted |
| `Downloader.InsertResources` | src/backend/downloader.rs:25-48 | the table afterwards holds its old rows followed by exactly the batch's rows, in batch order |
| `KeepOk.Oks` | src/main.rs:103-112 | keeping the successes never lengthens the sequence |
| `KeepOk.OksAppend` | src/main.rs:103-112 | filtering a concatenation is concatenating the filtered parts, so order is preserved |
| `KeepOk.OksSkipsErr` | src/main.rs:105-110 | an error anywhere in the input contributes nothing; the result is as if it were absent |
| `KeepOk.OksAllOk` | src/main.rs:103-112 | nothing is dropped exactly when every result is Ok, and then every value stays at its own position |
| `KeepOk.OksAt` | src/main.rs:103-112 | the Ok at input position j is kept at output position "number of Oks before j" |
| `KeepOk.OksFromInput` | src/main.rs:103-112 | every kept value is the value of an Ok somewhere in the input |
| `KeepOk.ParseEntries` | src/main.rs:87-98 | the entries are exactly the successfully deserialised lines, in order; every error is skipped and none stops the loop |
| `Importer.EnrichOne` | src/main.rs:115-123 | an unreadable body sets live_status to "0" and keeps title and auto_descr; a readable one sets title and auto_descr to the extracted values or "-" and keeps live_status; no other field changes |
| `Importer.Enriched` | src/main.rs:114-124 | the length is unchanged; the k-th page enriches the k-th record for every k below both lengths; records at positions from the number of pages on are unchanged |
| `Importer.EnrichInPlace` | src/main.rs:114-124 | the array of records afterwards is the zip-enrichment of its old contents with the pages |
| `Importer.FetchedUrls` | src/main.rs:102 | the fetched URLs are the records' url fields, one per record, in record order |
| `Importer.ImportedBatch` | src/main.rs:100-126 | the batch handed to insert_resources has as many records as create_entries built, however many fetches failed |
| `Importer.ImportUrls` | src/main.rs:77-126 | the table gains exactly the rows of the batch built from the deserialised lines, enriched from the fetches that succeeded |
| `Importer.TransportFailureOnlyShortens` | src/main.rs:103-114 | a transport failure anywhere has the same effect on the records as if that URL had not been fetched at all |
| `Importer.LivenessOnlyFromBodyFailure` | src/main.rs:107-118 | when every page that arrived has a readable body, no record's live_status changes, whatever number of fetches failed |
| `Importer.PageLandsOn` | src/main.rs:103-114 | the page of URL j enriches record "number of successful fetches before j", which is record j exactly when no earlier fetch failed |
| `Importer.FirstFailureShiftsPages` | src/main.rs:103-124 | when the first of two fetches fails, the first record receives the second URL's title and stays live, and the second record is untouched |
| `Importer.TwoLinesOneTransportFailure` | src/main.rs:87-126 | with lines /a, /b and one malformed line, where only /a can be fetched, two records reach the table: /a's titled "A", and /b's still live and titled "-"; the scenario's create_entries copies the blank record, so each record starts live with sentinel text |

## Left out

- Opening `urls.csv` and configuring the csv reader (tab delimiter, no header) are left out. The reader is a given sequence of per-line results.
- The shape of the csv `Input` and the deserialiser's error are left out. Both are type parameters.
- `create_entries` is not part of this model. It is a parameter.
- `download_pages` is not part of this model. Its bounded concurrency and asynchronous completion are therefore not modelled either. It is a parameter from the URL list to a sequence of outcomes. Where a lemma speaks of "the page of URL j" (`PageLandsOn`), it takes that sequence to be the same length and in the same order as the URL list; nothing else in the model depends on this.
- BLAKE3 is not modelled. The hash is a parameter. Encoding the URL as UTF-8 bytes and rendering the digest as hex are inside it.
- HTML parsing (`Document::from`) and `extract_title_and_content` are not part of this model. Together they form the `extract` parameter.
- The timestamp type and its `to_string` are not modelled. They are a type parameter and the `render` parameter.
- Parsing URLs is not modelled. `Serialize` gives the usual serialisation of a URL's components, including an empty authority without a host. It omits user information and the url crate's normalisation.
- The SQLite connection, the SQL statement and the `unwrap` panic on a failed insert are left out. Only the rows' values and their order are modelled.
- `load_uris_from_db`, the UI components, routing, `main`, `launch`, timing with `Instant` and all logging are left out. They do not shape records.
- The row index is a `usize` in the source. The model renders an unbounded natural, because a batch cannot reach `usize::MAX` records.
