/** The page catalog as the deploy task queries it: one record per generated
    file, the pending filter of lines 139-144, and the count of lines 146-149. */
module Catalog {
  import opened Wrappers

  /** One catalog record. `path` is `file_path` (a NULL path is modelled as
      the empty one: both are excluded by every query here); `onDisk` and
      `isDir` are what `file_exists` and `is_dir` report for the local copy. */
  datatype Page = Page(path: string, onDisk: bool, isDir: bool, lastTransferred: Option<nat>)

  /** `file_path IS NOT NULL AND file_path != ''`. */
  predicate HasPath(p: Page)
  {
    p.path != []
  }

  /** The batch filter: a path, and `last_transferred_at < start` or NULL.
      A NULL start time makes the comparison unknown, as in SQL. */
  predicate Pending(p: Page, start: Option<nat>)
  {
    HasPath(p) && (p.lastTransferred.None? || (start.Some? && p.lastTransferred.value < start.value))
  }

  /** Line 171: the local file is an existing regular file, so it is uploaded. */
  predicate NeedsUpload(p: Page)
  {
    !p.isDir && p.onDisk
  }

  predicate StrictlyIncreasing(s: seq<nat>)
  {
    forall j, k :: 0 <= j < k < |s| ==> s[j] < s[k]
  }

  /** The positions below `n` of the pending records, in catalog order. */
  function PendingUpTo(pages: seq<Page>, start: Option<nat>, n: nat): (r: seq<nat>)
    requires n <= |pages|
    ensures forall i: nat :: i in r <==> i < n && Pending(pages[i], start)
    ensures forall j :: 0 <= j < |r| ==> r[j] < n
    ensures StrictlyIncreasing(r)
    ensures |r| <= n
    decreases n
  {
    if n == 0 then []
    else PendingUpTo(pages, start, n - 1) + (if Pending(pages[n - 1], start) then [n - 1] else [])
  }

  /** Every pending record of the catalog, unbounded. */
  function AllPending(pages: seq<Page>, start: Option<nat>): seq<nat>
  {
    PendingUpTo(pages, start, |pages|)
  }

  function Min(a: nat, b: nat): nat
  {
    if a <= b then a else b
  }

  /** Lines 139-144: the first `limit` pending records in catalog order. */
  function SelectBatch(pages: seq<Page>, start: Option<nat>, limit: nat): (r: seq<nat>)
    ensures |r| == Min(limit, |AllPending(pages, start)|)
    ensures r <= AllPending(pages, start)
    ensures StrictlyIncreasing(r)
    ensures forall i :: i in r ==> i < |pages| && Pending(pages[i], start)
    ensures |r| < limit ==> forall i :: 0 <= i < |pages| && Pending(pages[i], start) ==> i in r
  {
    var all := AllPending(pages, start);
    if |all| <= limit then all else all[..limit]
  }

  /** The batch skips no pending record that comes before its last one. */
  lemma BatchSkipsNothing(pages: seq<Page>, start: Option<nat>, limit: nat, i: nat)
    requires i < |pages| && Pending(pages[i], start)
    requires var b := SelectBatch(pages, start, limit); b != [] && i <= b[|b| - 1]
    ensures i in SelectBatch(pages, start, limit)
  {
  }

  /** The number of records below `n` that have a path. */
  function PathCount(pages: seq<Page>, n: nat): (r: nat)
    requires n <= |pages|
    ensures r <= n
    decreases n
  {
    if n == 0 then 0
    else PathCount(pages, n - 1) + (if HasPath(pages[n - 1]) then 1 else 0)
  }

  /** Lines 146-149: every record with a path, transferred or not. */
  function Total(pages: seq<Page>): (r: nat)
    ensures r <= |pages|
  {
    PathCount(pages, |pages|)
  }

  /** Pending records are among the counted ones. */
  lemma {:induction false} PendingWithinPathCount(pages: seq<Page>, start: Option<nat>, n: nat)
    requires n <= |pages|
    ensures |PendingUpTo(pages, start, n)| <= PathCount(pages, n)
    decreases n
  {
    if n > 0 {
      PendingWithinPathCount(pages, start, n - 1);
    }
  }

  /** The total depends on the paths alone, so it does not drift while
      timestamps are written. */
  lemma {:induction false} PathCountSamePaths(a: seq<Page>, b: seq<Page>, n: nat)
    requires n <= |a| == |b|
    requires forall i :: 0 <= i < |a| ==> a[i].path == b[i].path
    ensures PathCount(a, n) == PathCount(b, n)
    decreases n
  {
    if n > 0 {
      PathCountSamePaths(a, b, n - 1);
      assert HasPath(a[n - 1]) == HasPath(b[n - 1]);
    }
  }

  /** A catalog whose pending records are among another's has no more of them. */
  lemma {:induction false} PendingCountShrinks(a: seq<Page>, b: seq<Page>, start: Option<nat>, n: nat)
    requires n <= |a| == |b|
    requires forall i :: 0 <= i < |a| && Pending(a[i], start) ==> Pending(b[i], start)
    ensures |PendingUpTo(a, start, n)| <= |PendingUpTo(b, start, n)|
    decreases n
  {
    if n > 0 {
      PendingCountShrinks(a, b, start, n - 1);
    }
  }
}
