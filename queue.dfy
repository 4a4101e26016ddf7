/**
 * The `import_queue` table and `sync_to_supabase`.
 *
 * The table is a sequence of rows in storage order, with `url` unique (the
 * upsert's conflict target). A sync computes the fingerprint, looks up the
 * rows with that `product_hash`, gives up if the first of them is PROCESSED
 * or IGNORED, and otherwise upserts the payload by `url`: the row with that
 * url is overwritten in place, or the payload is appended.
 */
module Queue {
  import opened Wrappers
  import opened Text
  import opened Classifier
  import opened Fingerprint

  /** One row of `import_queue` (the columns a sync writes). */
  datatype Row = Row(url: string, productHash: string, name: string, status: Status,
                     matchInfo: string, scrapedData: Record)

  /** The argument of `sync_to_supabase`. */
  datatype Entry = Entry(url: string, name: string, status: Status, matchInfo: string, scrapedData: Record)

  /** How a sync ended. */
  datatype SyncOutcome = Written | Protected | StoreFailed

  predicate UniqueUrls(rows: seq<Row>) {
    forall i, j | 0 <= i < j < |rows| :: rows[i].url != rows[j].url
  }

  /** Position of the row with `url`, if any. */
  function UrlIndex(rows: seq<Row>, url: string): (r: Option<nat>)
    ensures r.Some? ==> r.value < |rows| && rows[r.value].url == url
    ensures r.None? <==> forall i | 0 <= i < |rows| :: rows[i].url != url
    decreases |rows|
  {
    if rows == [] then None
    else if rows[|rows| - 1].url == url then Some(|rows| - 1)
    else UrlIndex(rows[..|rows| - 1], url)
  }

  predicate HasUrl(rows: seq<Row>, url: string) {
    exists i | 0 <= i < |rows| :: rows[i].url == url
  }

  /** Position of the first row with `product_hash` equal to `hash`: `existing.data[0]`. */
  function HashIndex(rows: seq<Row>, hash: string): (r: Option<nat>)
    ensures r.Some? ==> r.value < |rows| && rows[r.value].productHash == hash
    ensures r.Some? ==> forall j | 0 <= j < r.value :: rows[j].productHash != hash
    ensures r.None? ==> forall j | 0 <= j < |rows| :: rows[j].productHash != hash
    decreases |rows|
  {
    if rows == [] then None
    else if rows[0].productHash == hash then Some(0)
    else
      var rest := HashIndex(rows[1..], hash);
      assert forall j | 1 <= j < |rows| :: rows[j] == rows[1..][j - 1];
      if rest.None? then None else Some(rest.value + 1)
  }

  /** The terminal-status guard: the first row with this hash is PROCESSED or IGNORED. */
  predicate Guarded(rows: seq<Row>, hash: string) {
    var k := HashIndex(rows, hash);
    k.Some? && IsTerminal(rows[k.value].status)
  }

  /** `upsert(payload, on_conflict="url")`. */
  function UpsertRows(rows: seq<Row>, row: Row): seq<Row> {
    var k := UrlIndex(rows, row.url);
    if k.Some? then rows[k.value := row] else rows + [row]
  }

  /** The table after a sync that reached the store. */
  function SyncRows(rows: seq<Row>, row: Row): seq<Row> {
    if Guarded(rows, row.productHash) then rows else UpsertRows(rows, row)
  }

  /** `entry.get("url") or sd.get('URL')`. */
  function TargetUrl(entry: Entry): string {
    if entry.url != "" then entry.url else Get(entry.scrapedData, "URL", "")
  }

  /** The row a sync writes: the fingerprint, the name, the classification and the record. */
  function Payload(entry: Entry, md5: string -> string): Row {
    var sd := entry.scrapedData;
    Row(TargetUrl(entry), ProductHash(md5, GetOpt(sd, "Hersteller"), entry.name, GetOpt(sd, "THC")),
        entry.name, entry.status, entry.matchInfo, sd)
  }

  /** The row stored under `url`, if any. */
  function RowAt(rows: seq<Row>, url: string): Option<Row> {
    var k := UrlIndex(rows, url);
    if k.Some? then Some(rows[k.value]) else None
  }

  lemma UniqueUrlIndex(rows: seq<Row>, i: nat)
    requires UniqueUrls(rows) && i < |rows|
    ensures UrlIndex(rows, rows[i].url) == Some(i)
  {
  }

  /**
   * An upsert leaves urls unique, stores the payload under its url, leaves
   * the row of every other url where it was, and adds a row exactly when
   * the url was new.
   */
  lemma UpsertRowsSpec(rows: seq<Row>, row: Row)
    requires UniqueUrls(rows)
    ensures UniqueUrls(UpsertRows(rows, row))
    ensures RowAt(UpsertRows(rows, row), row.url) == Some(row)
    ensures forall url | url != row.url :: RowAt(UpsertRows(rows, row), url) == RowAt(rows, url)
    ensures |UpsertRows(rows, row)| == if HasUrl(rows, row.url) then |rows| else |rows| + 1
    ensures forall i | 0 <= i < |rows| && rows[i].url != row.url :: UpsertRows(rows, row)[i] == rows[i]
  {
    var after := UpsertRows(rows, row);
    var k := UrlIndex(rows, row.url);
    assert forall i | 0 <= i < |rows| :: after[i].url == rows[i].url;
    if k.Some? {
      assert HasUrl(rows, row.url);
      UniqueUrlIndex(after, k.value);
    } else {
      UniqueUrlIndex(after, |rows|);
    }
    forall url | url != row.url ensures RowAt(after, url) == RowAt(rows, url) {
      var j := UrlIndex(rows, url);
      if j.Some? {
        UniqueUrlIndex(rows, j.value);
        UniqueUrlIndex(after, j.value);
      } else {
        assert forall i | 0 <= i < |after| :: after[i].url != url;
      }
    }
  }

  /** An upsert never removes a url: afterwards exactly the old urls and the payload's are present. */
  lemma UpsertRowsUrls(rows: seq<Row>, row: Row, url: string)
    ensures HasUrl(UpsertRows(rows, row), url) <==> HasUrl(rows, url) || url == row.url
  {
    var after := UpsertRows(rows, row);
    var k := UrlIndex(rows, row.url);
    assert forall i | 0 <= i < |rows| :: after[i].url == rows[i].url;
    if HasUrl(after, url) {
      var i :| 0 <= i < |after| && after[i].url == url;
      if i < |rows| {
        assert rows[i].url == url;
      }
    }
    if HasUrl(rows, url) {
      var i :| 0 <= i < |rows| && rows[i].url == url;
      assert after[i].url == url;
    }
    if url == row.url {
      if k.Some? {
        assert after[k.value] == row;
      } else {
        assert after[|rows|] == row;
      }
    }
  }

  /** A guarded sync leaves the table exactly as it was. */
  lemma SyncRowsGuarded(rows: seq<Row>, row: Row)
    requires Guarded(rows, row.productHash)
    ensures SyncRows(rows, row) == rows
  {
  }

  /** An unguarded sync is the upsert: the payload is stored under its url, nothing else moves. */
  lemma SyncRowsUnguarded(rows: seq<Row>, row: Row)
    requires UniqueUrls(rows)
    requires !Guarded(rows, row.productHash)
    ensures UniqueUrls(SyncRows(rows, row))
    ensures RowAt(SyncRows(rows, row), row.url) == Some(row)
    ensures forall url | url != row.url :: RowAt(SyncRows(rows, row), url) == RowAt(rows, url)
  {
    UpsertRowsSpec(rows, row);
  }

  /**
   * The guard goes by fingerprint, the write by url: a PROCESSED row whose
   * content changed (so its fingerprint changed) is overwritten, status and all.
   */
  lemma TerminalRowOverwrittenUnderNewHash(stored: Row, row: Row)
    requires IsTerminal(stored.status)
    requires row.url == stored.url && row.productHash != stored.productHash
    ensures SyncRows([stored], row) == [row]
  {
    assert HashIndex([stored], row.productHash).None?;
  }

  /**
   * A terminal row blocks every url that shares its fingerprint: a new url
   * with that fingerprint is never stored.
   */
  lemma TerminalHashBlocksOtherUrl(stored: Row, row: Row)
    requires IsTerminal(stored.status)
    requires row.url != stored.url && row.productHash == stored.productHash
    ensures SyncRows([stored], row) == [stored]
    ensures RowAt(SyncRows([stored], row), row.url).None?
  {
  }

  /**
   * Only the first row with the fingerprint is inspected: a PROCESSED row
   * behind a READY row with the same fingerprint is overwritten.
   */
  lemma OnlyFirstHashRowInspected(first: Row, done: Row, row: Row)
    requires first.status == Ready && done.status == Processed
    requires first.productHash == done.productHash == row.productHash
    requires first.url != done.url && row.url == done.url
    ensures SyncRows([first, done], row) == [first, row]
  {
    assert HashIndex([first, done], row.productHash) == Some(0);
    assert UrlIndex([first, done], row.url) == Some(1);
  }

  /**
   * A terminal row does not block a new url when a non-terminal row with
   * the same fingerprint comes first: the new url is appended.
   */
  lemma NonTerminalFirstAdmitsNewUrl(first: Row, done: Row, row: Row)
    requires first.status == Ready && done.status == Processed
    requires first.productHash == done.productHash == row.productHash
    requires row.url != first.url && row.url != done.url
    ensures SyncRows([first, done], row) == [first, done, row]
  {
    assert HashIndex([first, done], row.productHash) == Some(0);
    assert UrlIndex([first, done], row.url).None?;
  }

  /** The `import_queue` table as the scraper sees it. */
  class ImportQueue {
    var rows: seq<Row>

    ghost predicate Valid()
      reads this
    {
      UniqueUrls(rows)
    }

    constructor (initial: seq<Row>)
      requires UniqueUrls(initial)
      ensures Valid() && rows == initial
    {
      rows := initial;
    }

    /** `select("status").eq("url", url)` is non-empty. */
    method ContainsUrl(url: string) returns (found: bool)
      ensures found <==> HasUrl(rows, url)
    {
      found := false;
      var i := 0;
      while i < |rows|
        invariant 0 <= i <= |rows|
        invariant !found
        invariant forall j | 0 <= j < i :: rows[j].url != url
      {
        if rows[i].url == url {
          found := true;
          return;
        }
        i := i + 1;
      }
    }

    /** `select("status").eq("product_hash", hash)` and `existing.data[0]['status']`. */
    method FirstStatusByHash(hash: string) returns (status: Option<Status>)
      ensures status.Some? <==> HashIndex(rows, hash).Some?
      ensures status.Some? ==> status.value == rows[HashIndex(rows, hash).value].status
    {
      var i := 0;
      while i < |rows|
        invariant 0 <= i <= |rows|
        invariant forall j | 0 <= j < i :: rows[j].productHash != hash
      {
        if rows[i].productHash == hash {
          assert HashIndex(rows, hash) == Some(i);
          return Some(rows[i].status);
        }
        i := i + 1;
      }
      return None;
    }

    /** `upsert(payload, on_conflict="url")`. */
    method Upsert(row: Row)
      requires Valid()
      modifies this
      ensures Valid()
      ensures rows == UpsertRows(old(rows), row)
    {
      UpsertRowsSpec(rows, row);
      var i := 0;
      while i < |rows|
        invariant 0 <= i <= |rows|
        invariant forall j | 0 <= j < i :: rows[j].url != row.url
      {
        if rows[i].url == row.url {
          UniqueUrlIndex(rows, i);
          rows := rows[i := row];
          return;
        }
        i := i + 1;
      }
      rows := rows + [row];
    }

    /**
     * `sync_to_supabase(entry)`. `storeFails` says a store call raised; the
     * error is reported and swallowed, and nothing is written.
     */
    method Sync(entry: Entry, md5: string -> string, storeFails: bool) returns (outcome: SyncOutcome)
      requires Valid()
      modifies this
      ensures Valid()
      ensures var payload := Payload(entry, md5);
        && (storeFails ==> outcome == StoreFailed && rows == old(rows))
        && (!storeFails && Guarded(old(rows), payload.productHash) ==> outcome == Protected && rows == old(rows))
        && (!storeFails && !Guarded(old(rows), payload.productHash) ==>
              outcome == Written && rows == UpsertRows(old(rows), payload))
    {
      if storeFails {
        return StoreFailed;
      }
      var payload := Payload(entry, md5);
      var existing := FirstStatusByHash(payload.productHash);
      if existing.Some? && IsTerminal(existing.value) {
        return Protected;
      }
      Upsert(payload);
      return Written;
    }
  }
}
