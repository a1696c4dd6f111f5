/** The transfer loop of lines 167-189 as functions of the fetched batch: which
    records get a new `last_transferred_at`, which `put` calls are made and
    which actions fire. */
module Transfer {
  import opened Wrappers
  import opened Catalog
  import opened Settings
  import opened Hooks

  /** A record as fetched by the batch query, with its position in the catalog. */
  datatype Row = Row(id: nat, page: Page)

  /** One `put` call: remote destination and local source file. */
  datatype Upload = Upload(remote: string, local: string)

  predicate RowsIn(pages: seq<Page>, rows: seq<Row>)
  {
    forall j :: 0 <= j < |rows| ==> rows[j].id < |pages|
  }

  /** The record objects the query returns for the given positions. */
  function Fetch(pages: seq<Page>, ids: seq<nat>): (rows: seq<Row>)
    requires forall j :: 0 <= j < |ids| ==> ids[j] < |pages|
    ensures |rows| == |ids| && RowsIn(pages, rows)
    ensures forall j :: 0 <= j < |ids| ==> rows[j].id == ids[j] && rows[j].page == pages[ids[j]]
  {
    seq(|ids|, j requires 0 <= j < |ids| => Row(ids[j], pages[ids[j]]))
  }

  /** A batch record is marked transferred when it had nothing to upload
      (a directory or a missing file) or when its upload succeeded; `put` on a
      client that is not logged in fails. */
  predicate Delivered(p: Page, authenticated: bool, accepted: bool)
  {
    !NeedsUpload(p) || (authenticated && accepted)
  }

  /** Lines 187-188: the fetched record saved with a new timestamp. */
  function Stamp(p: Page, now: nat): Page
  {
    p.(lastTransferred := Some(now))
  }

  /** What handling one fetched record does to the catalog. */
  function StampRow(pages: seq<Page>, row: Row, putOk: nat -> bool, authenticated: bool, now: nat): (r: seq<Page>)
    requires row.id < |pages|
    ensures |r| == |pages|
  {
    if Delivered(row.page, authenticated, putOk(row.id)) then pages[row.id := Stamp(row.page, now)] else pages
  }

  /** The `ssp_file_transferred_to_sftp` action fired for one record, if any. */
  function RowEvents(row: Row, putOk: nat -> bool, authenticated: bool, destination: string): seq<Event>
  {
    if Delivered(row.page, authenticated, putOk(row.id)) then [FileTransferred(row.page, destination)] else []
  }

  /** The `put` call made for one record, if any. */
  function RowPuts(row: Row, folder: string, tempDir: string): seq<Upload>
  {
    if NeedsUpload(row.page) then [Upload(RemotePath(folder, row.page.path), LocalPath(tempDir, row.page.path))] else []
  }

  /** The catalog after the loop has handled `rows` in order; `putOk(id)` is
      what the server answers to the upload of record `id`. */
  function StampRows(pages: seq<Page>, rows: seq<Row>, putOk: nat -> bool, authenticated: bool, now: nat): (r: seq<Page>)
    requires RowsIn(pages, rows)
    ensures |r| == |pages|
    decreases |rows|
  {
    if rows == [] then pages
    else StampRow(StampRows(pages, rows[..|rows| - 1], putOk, authenticated, now), rows[|rows| - 1], putOk, authenticated, now)
  }

  /** The `ssp_file_transferred_to_sftp` actions the loop fires for `rows`. */
  function TransferEvents(rows: seq<Row>, putOk: nat -> bool, authenticated: bool, destination: string): seq<Event>
    decreases |rows|
  {
    if rows == [] then []
    else TransferEvents(rows[..|rows| - 1], putOk, authenticated, destination) + RowEvents(rows[|rows| - 1], putOk, authenticated, destination)
  }

  /** The `put` calls the loop makes for `rows`: one per existing regular file. */
  function PutCalls(rows: seq<Row>, folder: string, tempDir: string): seq<Upload>
    decreases |rows|
  {
    if rows == [] then []
    else PutCalls(rows[..|rows| - 1], folder, tempDir) + RowPuts(rows[|rows| - 1], folder, tempDir)
  }

  /** Handling the fetched records one more step: the three views of the
      loop each gain that record's effect. */
  lemma RowsStep(pages: seq<Page>, rows: seq<Row>, k: nat, putOk: nat -> bool, authenticated: bool, now: nat,
                 folder: string, tempDir: string, destination: string)
    requires RowsIn(pages, rows) && k < |rows|
    ensures StampRows(pages, rows[..k + 1], putOk, authenticated, now)
            == StampRow(StampRows(pages, rows[..k], putOk, authenticated, now), rows[k], putOk, authenticated, now)
    ensures TransferEvents(rows[..k + 1], putOk, authenticated, destination)
            == TransferEvents(rows[..k], putOk, authenticated, destination) + RowEvents(rows[k], putOk, authenticated, destination)
    ensures PutCalls(rows[..k + 1], folder, tempDir) == PutCalls(rows[..k], folder, tempDir) + RowPuts(rows[k], folder, tempDir)
  {
    assert rows[..k + 1][..k] == rows[..k];
  }

  /** Record by record: a delivered batch record carries the new timestamp,
      a batch record whose upload failed and every record outside the batch
      are left exactly as they were. */
  lemma {:induction false} StampRowsAt(pages: seq<Page>, ids: seq<nat>, putOk: nat -> bool, authenticated: bool, now: nat)
    requires forall j :: 0 <= j < |ids| ==> ids[j] < |pages|
    ensures var after := StampRows(pages, Fetch(pages, ids), putOk, authenticated, now);
            forall i :: 0 <= i < |pages| ==>
              after[i] == if i in ids && Delivered(pages[i], authenticated, putOk(i)) then Stamp(pages[i], now) else pages[i]
    decreases |ids|
  {
    if ids != [] {
      var n := |ids| - 1;
      var rows := Fetch(pages, ids);
      assert rows[..n] == Fetch(pages, ids[..n]);
      StampRowsAt(pages, ids[..n], putOk, authenticated, now);
      forall i | 0 <= i < |pages|
        ensures i in ids <==> i in ids[..n] || i == ids[n]
      {
        assert ids == ids[..n] + [ids[n]];
      }
    }
  }

  /** The number of fetched records that are existing regular files. */
  function UploadCount(rows: seq<Row>): (r: nat)
    ensures r <= |rows|
    decreases |rows|
  {
    if rows == [] then 0
    else UploadCount(rows[..|rows| - 1]) + (if NeedsUpload(rows[|rows| - 1].page) then 1 else 0)
  }

  /** Every existing regular file of the batch gets its `put`, writing the
      record's path under the remote folder from the same path under the
      local export directory; no other `put` is made, and there are exactly
      as many as such files. */
  lemma {:induction false} PutCallsPaths(rows: seq<Row>, folder: string, tempDir: string)
    ensures |PutCalls(rows, folder, tempDir)| == UploadCount(rows)
    ensures forall j :: 0 <= j < |rows| && NeedsUpload(rows[j].page) ==>
              Upload(folder + rows[j].page.path, tempDir + rows[j].page.path) in PutCalls(rows, folder, tempDir)
    ensures forall u :: u in PutCalls(rows, folder, tempDir) ==>
              exists j :: 0 <= j < |rows| && NeedsUpload(rows[j].page)
                && u == Upload(folder + rows[j].page.path, tempDir + rows[j].page.path)
    decreases |rows|
  {
    if rows != [] {
      var n := |rows| - 1;
      PutCallsPaths(rows[..n], folder, tempDir);
      forall j | 0 <= j < |rows| && NeedsUpload(rows[j].page)
        ensures Upload(folder + rows[j].page.path, tempDir + rows[j].page.path) in PutCalls(rows, folder, tempDir)
      {
        if j < n {
          assert rows[..n][j] == rows[j];
        }
      }
      forall u | u in PutCalls(rows, folder, tempDir)
        ensures exists j :: 0 <= j < |rows| && NeedsUpload(rows[j].page)
                  && u == Upload(folder + rows[j].page.path, tempDir + rows[j].page.path)
      {
        if u in PutCalls(rows[..n], folder, tempDir) {
          var j :| 0 <= j < n && NeedsUpload(rows[..n][j].page)
                  && u == Upload(folder + rows[..n][j].page.path, tempDir + rows[..n][j].page.path);
          assert rows[..n][j] == rows[j];
        } else {
          assert NeedsUpload(rows[n].page);
        }
      }
    }
  }
}
