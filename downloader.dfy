/**
 * Record construction from a downloaded entry, and the row layout under
 * which records are handed to the database.
 */
module Downloader {
  import opened Wrappers
  import opened Decimal
  import opened Urls
  import opened ResourceModel

  /**
   * What the downloader crate delivers for one URL: the parsed URL, the text
   * it found for title and description, and a timestamp of the caller's
   * choosing (its textual form is given separately, as `render`).
   */
  datatype Download<Time> = Download(url: Url, title: string, description: string, timestamp: Time)

  /**
   * `make_resource`: a default record with the entry's fields filled in.
   * `hash` stands for BLAKE3 over the URL's bytes rendered as hex, and
   * `render` for the timestamp's `to_string`.
   */
  function MakeResource<Time>(entry: Download<Time>, hash: string -> string, render: Time -> string): (r: Resource)
    ensures r.title == entry.title && r.autoDescr == entry.description
    ensures r.liveStatus == Dead
    ensures r.url == Serialize(entry.url) && r.uriUuid == hash(r.url)
    ensures r.scheme == entry.url.scheme && r.path == entry.url.path
    ensures entry.url.host.Some? ==> r.host == entry.url.host.value
    ensures entry.url.host.None? ==> r.host == Sentinel
    ensures r.creaTime == r.modiTime == render(entry.timestamp)
    ensures r.manDescr == Default().manDescr
    ensures r.creaUser == Default().creaUser && r.modiUser == Default().modiUser
  {
    var url := Serialize(entry.url);
    var time := render(entry.timestamp);
    Default().(
      title := entry.title,
      autoDescr := entry.description,
      liveStatus := Dead,
      url := url,
      uriUuid := hash(url),
      scheme := entry.url.scheme,
      host := entry.url.host.UnwrapOr(Sentinel),
      path := entry.url.path,
      creaTime := time,
      modiTime := time)
  }

  /** Records made from entries with the same URL carry the same identifier. */
  lemma SameUrlSameId<Time>(a: Download<Time>, b: Download<Time>, hash: string -> string, render: Time -> string)
    requires Serialize(a.url) == Serialize(b.url)
    ensures MakeResource(a, hash, render).uriUuid == MakeResource(b, hash, render).uriUuid
  {
  }

  /** The record's scheme field agrees with the scheme at the head of its url field. */
  lemma MadeSchemeMatchesUrl<Time>(entry: Download<Time>, hash: string -> string, render: Time -> string)
    requires ValidScheme(entry.url.scheme)
    ensures var r := MakeResource(entry, hash, render); SchemeOf(r.url) == r.scheme
  {
    SerializeKeepsScheme(entry.url);
  }

  /**
   * A URL with an empty authority and no host: the record keeps the "//" in
   * its url field, takes the sentinel as host, and the path as given.
   */
  lemma HostlessFileUrl<Time>(timestamp: Time, hash: string -> string, render: Time -> string)
    ensures
      var u := Url("file", true, None, None, "/tmp/foo", None, None);
      var r := MakeResource(Download(u, "-", "-", timestamp), hash, render);
      r.url == "file:///tmp/foo" && r.host == Sentinel && r.path == "/tmp/foo" && r.uriUuid == hash("file:///tmp/foo")
  {
  }

  /** One row of the `uris` table: thirteen positional string values. */
  type Row = seq<string>

  const ColumnCount: nat := 13

  /**
   * The row written for the record at position `index` of the batch.  The
   * first value is the position, not the record's identifier; the other
   * twelve are the record's fields after `uri_uuid`, in declaration order.
   */
  function RowOf(index: nat, r: Resource): Row {
    [NatToString(index),
     r.url, r.scheme, r.host, r.path, r.liveStatus, r.title, r.autoDescr,
     r.manDescr, r.creaUser, r.creaTime, r.modiUser, r.modiTime]
  }

  /** The rows for a whole batch, one per record, in batch order. */
  function Rows(uris: seq<Resource>): (rows: seq<Row>)
    ensures |rows| == |uris|
  {
    seq(|uris|, i requires 0 <= i < |uris| => RowOf(i, uris[i]))
  }

  /**
   * Reads a record back from a row; the identifier, which the row does not
   * hold, is supplied.  A row of the wrong width yields nothing.
   */
  function ResourceOfRow(row: Row, uriUuid: string): Option<Resource> {
    if |row| != ColumnCount then None
    else Some(Resource(uriUuid, row[1], row[2], row[3], row[4], row[5], row[6],
                       row[7], row[8], row[9], row[10], row[11], row[12]))
  }

  /**
   * A row holds exactly its position and every field of the record except
   * `uri_uuid`: position and record are both recovered from it.
   */
  lemma RowRoundTrip(index: nat, r: Resource)
    ensures |RowOf(index, r)| == ColumnCount
    ensures ParseNat(RowOf(index, r)[0]) == index
    ensures ResourceOfRow(RowOf(index, r), r.uriUuid) == Some(r)
  {
    ParseNatToString(index);
  }

  /**
   * Different rows of one batch have different first values, even for
   * records with equal identifiers (the same URL listed twice).
   */
  lemma RowKeysDistinct(uris: seq<Resource>, i: nat, j: nat)
    requires i < |uris| && j < |uris| && i != j
    ensures Rows(uris)[i][0] != Rows(uris)[j][0]
  {
    NatToStringInjective(i, j);
  }

  /** The identifier never reaches the table: batches that differ only in it give the same rows. */
  lemma RowsIgnoreUuid(a: seq<Resource>, b: seq<Resource>)
    requires |a| == |b|
    requires forall i :: 0 <= i < |a| ==> a[i].(uriUuid := "") == b[i].(uriUuid := "")
    ensures Rows(a) == Rows(b)
  {
  }

  /** The database table the batch is appended to; only its rows are modelled. */
  class Table {
    var rows: seq<Row>

    constructor ()
      ensures rows == []
    {
      rows := [];
    }
  }

  /**
   * `insert_resources`: one INSERT per record, in batch order, each with the
   * record's position as its first value.
   */
  method InsertResources(table: Table, uris: seq<Resource>)
    modifies table
    ensures table.rows == old(table.rows) + Rows(uris)
  {
    ghost var before := table.rows;
    for index := 0 to |uris|
      invariant |table.rows| == |before| + index
      invariant table.rows[..|before|] == before
      invariant forall k :: 0 <= k < index ==> table.rows[|before| + k] == RowOf(k, uris[k])
    {
      table.rows := table.rows + [RowOf(index, uris[index])];
    }
    assert table.rows == before + Rows(uris);
  }
}
