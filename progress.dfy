/** The count arithmetic of lines 145-151 and the done decision of lines
    85 and 95, with what they imply across successive invocations. */
module Progress {
  import opened Wrappers
  import opened Catalog
  import opened Transfer

  /** `pages_processed = total_pages - pages_remaining`, where the remaining
      count is the size of the limited batch, taken before the loop runs. */
  function Processed(pages: seq<Page>, start: Option<nat>, limit: nat): (r: int)
    ensures 0 <= r <= Total(pages)
    ensures r >= Total(pages) <==> SelectBatch(pages, start, limit) == []
  {
    PendingWithinPathCount(pages, start, |pages|);
    Total(pages) - |SelectBatch(pages, start, limit)|
  }

  /** The catalog after one invocation has handled its batch. */
  function AfterBatch(pages: seq<Page>, start: Option<nat>, limit: nat, putOk: nat -> bool, authenticated: bool, now: nat): seq<Page>
  {
    StampRows(pages, Fetch(pages, SelectBatch(pages, start, limit)), putOk, authenticated, now)
  }

  /** The clock has not gone back past the start time. */
  predicate NotBefore(start: Option<nat>, now: nat)
  {
    start.None? || start.value <= now
  }

  /** With a positive batch size, the task is done exactly when no record is
      pending. */
  lemma DoneIffNothingPending(pages: seq<Page>, start: Option<nat>, limit: nat)
    requires limit > 0
    ensures Processed(pages, start, limit) >= Total(pages)
            <==> forall i :: 0 <= i < |pages| ==> !Pending(pages[i], start)
  {
    if exists i :: 0 <= i < |pages| && Pending(pages[i], start) {
      var i :| 0 <= i < |pages| && Pending(pages[i], start);
      assert i in AllPending(pages, start);
    }
    var batch := SelectBatch(pages, start, limit);
    if batch != [] {
      assert batch[0] in batch;
    }
  }

  /** A delivered record is no longer pending afterwards; a record whose
      upload failed stays pending. */
  lemma {:induction false} DeliveredLeavesPending(pages: seq<Page>, start: Option<nat>, limit: nat, putOk: nat -> bool, authenticated: bool, now: nat)
    requires NotBefore(start, now)
    ensures var after := AfterBatch(pages, start, limit, putOk, authenticated, now);
            var batch := SelectBatch(pages, start, limit);
            |after| == |pages|
            && (forall i :: 0 <= i < |pages| && i in batch ==>
                  (Pending(after[i], start) <==> !Delivered(pages[i], authenticated, putOk(i))))
            && (forall i :: 0 <= i < |pages| && i !in batch ==> after[i] == pages[i])
  {
    StampRowsAt(pages, SelectBatch(pages, start, limit), putOk, authenticated, now);
  }

  /** An invocation cut short after its first `k` records (the loop is
      proved to reach this state after each record) leaves those records
      stamped when delivered and every other record, later batch records
      included, as it was. */
  lemma BatchPrefixHandled(pages: seq<Page>, start: Option<nat>, limit: nat, putOk: nat -> bool, authenticated: bool, now: nat, k: nat)
    requires k <= |SelectBatch(pages, start, limit)|
    ensures var batch := SelectBatch(pages, start, limit);
            var after := StampRows(pages, Fetch(pages, batch)[..k], putOk, authenticated, now);
            |after| == |pages|
            && forall i :: 0 <= i < |pages| ==>
                 after[i] == if i in batch[..k] && Delivered(pages[i], authenticated, putOk(i)) then Stamp(pages[i], now) else pages[i]
  {
    var batch := SelectBatch(pages, start, limit);
    assert Fetch(pages, batch)[..k] == Fetch(pages, batch[..k]);
    StampRowsAt(pages, batch[..k], putOk, authenticated, now);
  }

  /** Between invocations of one run the total stays the same and the
      processed count never goes down. */
  lemma ProgressMonotone(pages: seq<Page>, start: Option<nat>, limit: nat, putOk: nat -> bool, authenticated: bool, now: nat)
    requires NotBefore(start, now)
    ensures var after := AfterBatch(pages, start, limit, putOk, authenticated, now);
            Total(after) == Total(pages)
            && Processed(after, start, limit) >= Processed(pages, start, limit)
  {
    var after := AfterBatch(pages, start, limit, putOk, authenticated, now);
    DeliveredLeavesPending(pages, start, limit, putOk, authenticated, now);
    StampRowsAt(pages, SelectBatch(pages, start, limit), putOk, authenticated, now);
    PathCountSamePaths(after, pages, |pages|);
    PendingCountShrinks(after, pages, start, |pages|);
  }

  /** When the last pending records fit in one batch and all get through,
      that invocation still reports "not done"; the next one, finding an
      empty batch, reports "done". */
  lemma CompletionLag(pages: seq<Page>, start: Option<nat>, limit: nat, putOk: nat -> bool, now: nat)
    requires 0 < |AllPending(pages, start)| <= limit
    requires forall i :: 0 <= i < |pages| ==> putOk(i)
    requires NotBefore(start, now)
    ensures Processed(pages, start, limit) < Total(pages)
    ensures var after := AfterBatch(pages, start, limit, putOk, true, now);
            Processed(after, start, limit) >= Total(after)
  {
    var after := AfterBatch(pages, start, limit, putOk, true, now);
    var batch := SelectBatch(pages, start, limit);
    DeliveredLeavesPending(pages, start, limit, putOk, true, now);
    forall i | 0 <= i < |after| ensures !Pending(after[i], start) {
      if i !in batch {
        assert !Pending(pages[i], start);
      }
    }
    DoneIffNothingPending(after, start, limit);
  }

  /** Stated apart so that the empty case of `IncreasingUnique` can reach its
      contradiction without a checked step inside the impossible branch. */
  lemma HeadIsMember(b: seq<nat>)
    requires b != []
    ensures b[0] in b
  {
  }

  /** A strictly increasing sequence is fixed by the values it holds. */
  lemma {:induction false} IncreasingUnique(a: seq<nat>, b: seq<nat>)
    requires StrictlyIncreasing(a) && StrictlyIncreasing(b)
    requires forall x :: x in a <==> x in b
    ensures a == b
    decreases |a|
  {
    if a == [] {
      if b != [] {
        HeadIsMember(b);
        assert false;
      }
    } else {
      assert a[0] in b && b != [] && b[0] in a;
      assert a[0] == b[0];
      forall x ensures x in a[1..] <==> x in b[1..] {
        if x in a[1..] {
          var j :| 1 <= j < |a| && a[j] == x;
          assert x in b && x != b[0];
        }
        if x in b[1..] {
          var j :| 1 <= j < |b| && b[j] == x;
          assert x in a && x != a[0];
        }
      }
      IncreasingUnique(a[1..], b[1..]);
    }
  }

  /** In a strictly increasing sequence the values after position `k` are
      exactly those not found before it. */
  lemma IncreasingSuffix(all: seq<nat>, k: nat)
    requires StrictlyIncreasing(all) && k <= |all|
    ensures forall x :: x in all[k..] <==> x in all && x !in all[..k]
  {
  }

  /** When every upload of a batch is accepted, the records still pending
      afterwards are exactly those that came after the batch. */
  lemma AcceptedBatchDrains(pages: seq<Page>, start: Option<nat>, limit: nat, putOk: nat -> bool, now: nat)
    requires forall i :: 0 <= i < |pages| ==> putOk(i)
    requires NotBefore(start, now)
    ensures var all := AllPending(pages, start);
            var batch := SelectBatch(pages, start, limit);
            AllPending(AfterBatch(pages, start, limit, putOk, true, now), start) == all[|batch|..]
  {
    var after := AfterBatch(pages, start, limit, putOk, true, now);
    var all := AllPending(pages, start);
    var batch := SelectBatch(pages, start, limit);
    DeliveredLeavesPending(pages, start, limit, putOk, true, now);
    assert batch == all[..|batch|];
    IncreasingSuffix(all, |batch|);
    var rest := all[|batch|..];
    forall x: nat ensures x in AllPending(after, start) <==> x in rest {
      if x < |pages| {
        assert Pending(after[x], start) <==> Pending(pages[x], start) && x !in batch;
      }
    }
    IncreasingUnique(AllPending(after, start), rest);
  }

  /** The processed count in numbers: the total less the batch size or, when
      fewer are pending, less the pending count. */
  lemma ProcessedIs(pages: seq<Page>, start: Option<nat>, limit: nat)
    ensures Processed(pages, start, limit) == Total(pages) - Min(limit, |AllPending(pages, start)|)
  {
  }

  /** In numbers: an invocation whose uploads are all accepted leaves the
      total alone and removes its whole batch from the pending count. */
  lemma AcceptedBatchCounts(pages: seq<Page>, start: Option<nat>, limit: nat, putOk: nat -> bool, now: nat)
    requires forall i :: 0 <= i < |pages| ==> putOk(i)
    requires NotBefore(start, now)
    ensures var after := AfterBatch(pages, start, limit, putOk, true, now);
            var n := |AllPending(pages, start)|;
            Total(after) == Total(pages) && |AllPending(after, start)| == n - Min(limit, n)
  {
    ProgressMonotone(pages, start, limit, putOk, true, now);
    AcceptedBatchDrains(pages, start, limit, putOk, now);
  }

  /** A catalog of exported files none of which has been transferred: every
      record is counted and every record is pending. */
  lemma {:induction false} FreshCatalog(pages: seq<Page>, start: Option<nat>, n: nat)
    requires n <= |pages|
    requires forall i :: 0 <= i < |pages| ==> HasPath(pages[i]) && pages[i].lastTransferred.None?
    ensures PathCount(pages, n) == n && |PendingUpTo(pages, start, n)| == n
    decreases n
  {
    if n > 0 {
      FreshCatalog(pages, start, n - 1);
    }
  }

  /** The first invocation of the five-file run below. */
  lemma FiveLeftOfFive(p: seq<Page>, s: Option<nat>, putOk: nat -> bool, now: nat)
    requires Total(p) == 5 && |AllPending(p, s)| == 5
    requires forall i :: 0 <= i < |p| ==> putOk(i)
    requires NotBefore(s, now)
    ensures var q := AfterBatch(p, s, 3, putOk, true, now);
            Processed(p, s, 3) == 2 && Total(q) == 5 && |AllPending(q, s)| == 2
  {
    ProcessedIs(p, s, 3);
    AcceptedBatchCounts(p, s, 3, putOk, now);
  }

  /** The second invocation of the five-file run below. */
  lemma TwoLeftOfFive(q: seq<Page>, s: Option<nat>, putOk: nat -> bool, now: nat)
    requires Total(q) == 5 && |AllPending(q, s)| == 2
    requires forall i :: 0 <= i < |q| ==> putOk(i)
    requires NotBefore(s, now)
    ensures var r := AfterBatch(q, s, 3, putOk, true, now);
            Processed(q, s, 3) == 3 && Total(r) == 5 && Processed(r, s, 3) == 5
  {
    AcceptedBatchCounts(q, s, 3, putOk, now);
    ProcessedIs(q, s, 3);
    ProcessedIs(AfterBatch(q, s, 3, putOk, true, now), s, 3);
  }

  /** Five fresh files, a batch size of three, every upload accepted. The
      first invocation reports 2 of 5, though nothing has been sent yet,
      because the remaining count is the size of the limited batch; it sends
      three files. The second reports 3 of 5 and sends the last two. Only the
      third, whose batch is empty, reports 5 of 5, which is "done". */
  lemma FiveFilesBatchOfThree(p: seq<Page>, s: Option<nat>, putOk: nat -> bool, now: nat)
    requires |p| == 5
    requires forall i :: 0 <= i < |p| ==> HasPath(p[i]) && p[i].lastTransferred.None?
    requires forall i :: 0 <= i < |p| ==> putOk(i)
    requires NotBefore(s, now)
    ensures var q := AfterBatch(p, s, 3, putOk, true, now);
            var r := AfterBatch(q, s, 3, putOk, true, now);
            && Total(p) == Total(q) == Total(r) == 5
            && Processed(p, s, 3) == 2
            && Processed(q, s, 3) == 3
            && Processed(r, s, 3) == 5
  {
    FreshCatalog(p, s, |p|);
    assert Total(p) == 5 && |AllPending(p, s)| == 5;
    FiveLeftOfFive(p, s, putOk, now);
    var q := AfterBatch(p, s, 3, putOk, true, now);
    assert Processed(p, s, 3) == 2 && Total(q) == 5 && |AllPending(q, s)| == 2;
    TwoLeftOfFive(q, s, putOk, now);
    var r := AfterBatch(q, s, 3, putOk, true, now);
    assert Processed(q, s, 3) == 3 && Total(r) == 5 && Processed(r, s, 3) == 5;
  }
}
