/**
 Paginated queries of process instances: the loop over the offsets, the closures that gather the pages, check
 the number of results and drop them, and the repetition of the whole request until it succeeds.
 */
module Pagination {
  import opened Sequences

  type Id = string

  /** What one page query gets. */
  datatype Reply = Failed | Page(ids: seq<Id>)

  /** The answers during one attempt, by offset. */
  type Server = int -> Reply

  /** The entries of the list that a query with this offset and limit returns. */
  function PageAt(ids: seq<Id>, offset: nat, limit: nat): seq<Id> {
    ids[Min(offset, |ids|)..Min(offset + limit, |ids|)]
  }

  /** A server that holds `ids`, and fails the queries at some offsets. */
  function Holding(ids: seq<Id>, pageSize: nat, failing: set<int>): Server {
    offset => if offset in failing || offset < 0 then Failed else Page(PageAt(ids, offset, pageSize))
  }

  // ---------- Pages and offsets ----------

  function TotalPages(totalSize: nat, pageSize: nat): nat
    requires pageSize > 0
  {
    totalSize / pageSize + if totalSize % pageSize != 0 then 1 else 0
  }

  lemma MulMonotone(a: nat, b: nat, m: nat)
    requires a <= b
    ensures a * m <= b * m
  {
  }

  /** Offset k * pageSize is below the total exactly for the first TotalPages values of k. */
  lemma OffsetsBelowTotal(totalSize: nat, pageSize: nat, k: nat)
    requires pageSize > 0
    ensures k * pageSize < totalSize <==> k < TotalPages(totalSize, pageSize)
  {
    var whole := totalSize / pageSize;
    assert totalSize == whole * pageSize + totalSize % pageSize;
    if k < whole {
      MulMonotone(k + 1, whole, pageSize);
      assert (k + 1) * pageSize == k * pageSize + pageSize;
    } else if k > whole {
      MulMonotone(whole + 1, k, pageSize);
      assert (whole + 1) * pageSize == whole * pageSize + pageSize;
    }
  }

  /** The entries that all pages together can hold: the total, rounded up to whole pages. */
  lemma PagesCover(totalSize: nat, pageSize: nat)
    requires pageSize > 0
    ensures totalSize <= TotalPages(totalSize, pageSize) * pageSize < totalSize + pageSize
    ensures TotalPages(totalSize, pageSize) * pageSize == totalSize <==> totalSize % pageSize == 0
  {
    var whole := totalSize / pageSize;
    assert totalSize == whole * pageSize + totalSize % pageSize;
    assert (whole + 1) * pageSize == whole * pageSize + pageSize;
  }

  // ---------- One attempt ----------

  datatype Gathered = Gathered(ids: seq<Id>, complete: bool)

  /** The results of the pages from the k-th to the n-th, up to the first that fails. */
  function Gather(server: Server, pageSize: nat, k: nat, n: nat): Gathered
    decreases n - k
  {
    if k >= n then Gathered([], true)
    else
      match server(k * pageSize)
      case Failed => Gathered([], false)
      case Page(ids) =>
        var rest := Gather(server, pageSize, k + 1, n);
        Gathered(ids + rest.ids, rest.complete)
  }

  /** The gathered results after an attempt, and whether it succeeded or got an error. */
  datatype Outcome = Outcome(all: seq<Id>, ok: bool, err: bool)

  /** What one attempt makes of the results that it finds. */
  function Attempt(all: seq<Id>, server: Server, totalSize: nat, pageSize: nat): (o: Outcome)
    requires pageSize > 0
    ensures o.ok ==> |o.all| == totalSize && !o.err
    ensures !o.ok && !o.err ==> o.all == []
    ensures o.err ==> all <= o.all
  {
    var got := Gather(server, pageSize, 0, TotalPages(totalSize, pageSize));
    if !got.complete then Outcome(all + got.ids, false, true)
    else if |all + got.ids| == totalSize then Outcome(all + got.ids, true, false)
    else Outcome([], false, false)
  }

  class ProcessInstances {
    var all: seq<Id>

    constructor ()
      ensures all == []
    {
      all := [];
    }

    /** After each response: append the page. */
    method AfterEachResponse(ids: seq<Id>) returns (ok: bool)
      modifies this
      ensures all == old(all) + ids && ok
    {
      all := all + ids;
      ok := true;
    }

    /** After the full request: compare the count, and drop the results if it differs. */
    method AfterFullRequest(totalSize: nat) returns (ok: bool)
      modifies this
      ensures ok <==> |old(all)| == totalSize
      ensures all == if ok then old(all) else []
    {
      ok := |all| == totalSize;
      if !ok {
        all := [];
      }
    }

    /** The pagination loop: queries the offsets 0, pageSize, 2 * pageSize and so on; all TotalPages of them
        unless one fails, and then up to that one. */
    method Query(server: Server, totalSize: nat, pageSize: nat) returns (ok: bool, err: bool, offsets: seq<int>)
      requires pageSize > 0
      modifies this
      ensures Outcome(all, ok, err) == Attempt(old(all), server, totalSize, pageSize)
      ensures forall k :: 0 <= k < |offsets| ==> offsets[k] == k * pageSize
      ensures forall k :: 0 <= k < |offsets| ==> (server(offsets[k]).Failed? <==> err && k == |offsets| - 1)
      ensures if err then 0 < |offsets| <= TotalPages(totalSize, pageSize)
              else |offsets| == TotalPages(totalSize, pageSize)
    {
      var queried := 0;
      offsets := [];
      ghost var pages := TotalPages(totalSize, pageSize);
      ghost var got: seq<Id> := [];
      assert [] + Gather(server, pageSize, 0, pages).ids == Gather(server, pageSize, 0, pages).ids;
      while queried < totalSize
        invariant queried == |offsets| * pageSize && |offsets| <= pages
        invariant forall k :: 0 <= k < |offsets| ==> offsets[k] == k * pageSize
        invariant forall k :: 0 <= k < |offsets| ==> server(offsets[k]).Page?
        invariant all == old(all) + got
        invariant Gather(server, pageSize, 0, pages)
               == Gathered(got + Gather(server, pageSize, |offsets|, pages).ids,
                           Gather(server, pageSize, |offsets|, pages).complete)
        decreases totalSize - queried
      {
        OffsetsBelowTotal(totalSize, pageSize, |offsets|);
        offsets := offsets + [queried];
        match server(queried) {
          case Failed =>
            assert got + [] == got;
            return false, true, offsets;
          case Page(ids) =>
            var success := AfterEachResponse(ids);
            ghost var rest := Gather(server, pageSize, |offsets|, pages).ids;
            ConcatAssoc(got, ids, rest);
            ConcatAssoc(old(all), got, ids);
            got := got + ids;
        }
        queried := queried + pageSize;
      }
      OffsetsBelowTotal(totalSize, pageSize, |offsets|);
      assert got + [] == got;
      ok := AfterFullRequest(totalSize);
      err := false;
    }

    /** Attempts, one per tick of WaitFor, until one succeeds or the time is over. */
    method WaitForAll(ticks: seq<Server>, totalSize: nat, pageSize: nat) returns (ok: bool)
      requires pageSize > 0
      modifies this
      ensures Waited(all, ok) == Retry(old(all), ticks, totalSize, pageSize)
    {
      ok := false;
      var i := 0;
      assert ticks[0..] == ticks;
      while i < |ticks| && !ok
        invariant i <= |ticks|
        invariant Retry(old(all), ticks, totalSize, pageSize)
               == if ok then Waited(all, true) else Retry(all, ticks[i..], totalSize, pageSize)
        decreases |ticks| - i
      {
        var err, offsets;
        assert ticks[i..][1..] == ticks[i + 1..];
        ok, err, offsets := Query(ticks[i], totalSize, pageSize);
        i := i + 1;
      }
    }
  }

  datatype Waited = Waited(all: seq<Id>, ok: bool)

  /** The results and the verdict after the attempts: an error only makes WaitFor try again. */
  function Retry(all: seq<Id>, ticks: seq<Server>, totalSize: nat, pageSize: nat): (w: Waited)
    requires pageSize > 0
    ensures w.ok ==> |w.all| == totalSize
    decreases |ticks|
  {
    if ticks == [] then Waited(all, false)
    else
      var o := Attempt(all, ticks[0], totalSize, pageSize);
      if o.ok then Waited(o.all, true) else Retry(o.all, ticks[1..], totalSize, pageSize)
  }

  // ---------- Against a server that holds a list ----------

  lemma NextOffset(k: nat, pageSize: nat)
    ensures k * pageSize + pageSize == (k + 1) * pageSize && k * pageSize >= 0
  {
  }

  lemma SlicesMeet(ids: seq<Id>, from: nat, mid: nat, to: nat)
    requires from <= mid <= to <= |ids|
    ensures ids[from..mid] + ids[mid..to] == ids[from..to]
  {
  }

  lemma GatherCons(server: Server, pageSize: nat, k: nat, n: nat)
    requires k < n && server(k * pageSize).Page?
    ensures var rest := Gather(server, pageSize, k + 1, n);
      Gather(server, pageSize, k, n) == Gathered(server(k * pageSize).ids + rest.ids, rest.complete)
  {
  }

  lemma OnePage(ids: seq<Id>, pageSize: nat, failing: set<int>, offset: nat)
    requires offset !in failing
    ensures Holding(ids, pageSize, failing)(offset)
         == Page(ids[Min(offset, |ids|)..Min(offset + pageSize, |ids|)])
  {
  }

  predicate Served(pageSize: nat, failing: set<int>, k: nat, n: nat)
    decreases n - k
  {
    k >= n || (k * pageSize !in failing && Served(pageSize, failing, k + 1, n))
  }

  lemma {:induction false} ServedIfNoneFails(pageSize: nat, failing: set<int>, k: nat, n: nat)
    requires forall j: nat | k <= j < n :: j * pageSize !in failing
    ensures Served(pageSize, failing, k, n)
    decreases n - k
  {
    if k < n {
      ServedIfNoneFails(pageSize, failing, k + 1, n);
    }
  }

  /** One page, at the given offset, in front of the contiguous pages from the next offset on. */
  lemma PageInFront(ids: seq<Id>, pageSize: nat, failing: set<int>, k: nat, n: nat, from: nat, next: nat, to: nat)
    requires k < n && from == k * pageSize && next == from + pageSize <= to && from !in failing
    requires Gather(Holding(ids, pageSize, failing), pageSize, k + 1, n)
          == Gathered(ids[Min(next, |ids|)..Min(to, |ids|)], true)
    ensures Gather(Holding(ids, pageSize, failing), pageSize, k, n)
         == Gathered(ids[Min(from, |ids|)..Min(to, |ids|)], true)
  {
    OnePage(ids, pageSize, failing, from);
    GatherCons(Holding(ids, pageSize, failing), pageSize, k, n);
    SlicesMeet(ids, Min(from, |ids|), Min(next, |ids|), Min(to, |ids|));
  }

  lemma {:induction false} ServedPagesAreContiguous(ids: seq<Id>, pageSize: nat, failing: set<int>, k: nat, n: nat)
    requires k <= n && Served(pageSize, failing, k, n)
    ensures k * pageSize <= n * pageSize
    ensures Gather(Holding(ids, pageSize, failing), pageSize, k, n)
         == Gathered(ids[Min(k * pageSize, |ids|)..Min(n * pageSize, |ids|)], true)
    decreases n - k
  {
    if k < n {
      ServedPagesAreContiguous(ids, pageSize, failing, k + 1, n);
      NextOffset(k, pageSize);
      PageInFront(ids, pageSize, failing, k, n, k * pageSize, (k + 1) * pageSize, n * pageSize);
    }
  }

  /** The pages from k to n, if none of them fails, are the list between their outer offsets: no gap, no
      repeat. */
  lemma PagesAreContiguous(ids: seq<Id>, pageSize: nat, failing: set<int>, k: nat, n: nat)
    requires pageSize > 0 && k <= n
    requires forall j: nat | k <= j < n :: j * pageSize !in failing
    ensures k * pageSize <= n * pageSize
    ensures Gather(Holding(ids, pageSize, failing), pageSize, k, n)
         == Gathered(ids[Min(k * pageSize, |ids|)..Min(n * pageSize, |ids|)], true)
  {
    ServedIfNoneFails(pageSize, failing, k, n);
    ServedPagesAreContiguous(ids, pageSize, failing, k, n);
  }

  /** A pass against a server with N ids collects the first min(N, pages * pageSize) of them. */
  lemma CleanPass(all: seq<Id>, ids: seq<Id>, totalSize: nat, pageSize: nat)
    requires pageSize > 0
    ensures var covered := Min(TotalPages(totalSize, pageSize) * pageSize, |ids|);
      && Gather(Holding(ids, pageSize, {}), pageSize, 0, TotalPages(totalSize, pageSize))
           == Gathered(ids[..covered], true)
      && (Attempt(all, Holding(ids, pageSize, {}), totalSize, pageSize)
          == if |all| + covered == totalSize then Outcome(all + ids[..covered], true, false)
             else Outcome([], false, false))
  {
    PagesAreContiguous(ids, pageSize, {}, 0, TotalPages(totalSize, pageSize));
    assert ids[0..Min(TotalPages(totalSize, pageSize) * pageSize, |ids|)]
        == ids[..Min(TotalPages(totalSize, pageSize) * pageSize, |ids|)];
  }

  /** Without stale results it succeeds exactly if the server holds the expected number of ids, or more and the
      last page is full. */
  lemma CleanPassSucceedsIff(ids: seq<Id>, totalSize: nat, pageSize: nat)
    requires pageSize > 0
    ensures Attempt([], Holding(ids, pageSize, {}), totalSize, pageSize).ok
       <==> |ids| == totalSize || (totalSize % pageSize == 0 && |ids| >= totalSize)
  {
    CleanPass([], ids, totalSize, pageSize);
    PagesCover(totalSize, pageSize);
  }

  /** A pass that fails at page f leaves the pages before it in the results. */
  lemma FailedPassLeavesPages(all: seq<Id>, ids: seq<Id>, totalSize: nat, pageSize: nat, failing: set<int>, f: nat)
    requires pageSize > 0 && f < TotalPages(totalSize, pageSize) && f * pageSize in failing
    requires forall j: nat | j < f :: j * pageSize !in failing
    ensures Attempt(all, Holding(ids, pageSize, failing), totalSize, pageSize)
         == Outcome(all + ids[..Min(f * pageSize, |ids|)], false, true)
  {
    var server, pages := Holding(ids, pageSize, failing), TotalPages(totalSize, pageSize);
    PagesAreContiguous(ids, pageSize, failing, 0, f);
    GatherSplit(server, pageSize, 0, f, pages);
    assert Gather(server, pageSize, f, pages) == Gathered([], false);
    assert ids[0..Min(f * pageSize, |ids|)] == ids[..Min(f * pageSize, |ids|)];
    assert ids[..Min(f * pageSize, |ids|)] + [] == ids[..Min(f * pageSize, |ids|)];
  }

  lemma {:induction false} GatherSplit(server: Server, pageSize: nat, k: nat, m: nat, n: nat)
    requires k <= m <= n && Gather(server, pageSize, k, m).complete
    ensures var left, right := Gather(server, pageSize, k, m), Gather(server, pageSize, m, n);
      Gather(server, pageSize, k, n) == Gathered(left.ids + right.ids, right.complete)
    decreases m - k
  {
    var right := Gather(server, pageSize, m, n);
    if k == m {
      assert [] + right.ids == right.ids;
    } else {
      GatherSplit(server, pageSize, k + 1, m, n);
      var first, rest := server(k * pageSize).ids, Gather(server, pageSize, k + 1, m).ids;
      ConcatAssoc(first, rest, right.ids);
    }
  }

  // ---------- Over repeated attempts ----------

  /** Against a server that holds exactly the expected ids, an error-free attempt succeeds exactly if it finds
      no stale results.  If it does not succeed it drops them, so the next one does. */
  lemma TwoCleanAttemptsSuffice(all: seq<Id>, ids: seq<Id>, pageSize: nat)
    requires pageSize > 0
    ensures var server, total := Holding(ids, pageSize, {}), |ids|;
      var first := Attempt(all, server, total, pageSize);
      var second := Attempt(first.all, server, total, pageSize);
      && (first.ok <==> all == [])
      && (first.ok ==> first.all == ids)
      && (!first.ok ==> first.all == [] && second == Outcome(ids, true, false))
  {
    PagesCover(|ids|, pageSize);
    CleanPass(all, ids, |ids|, pageSize);
    CleanPass([], ids, |ids|, pageSize);
    assert ids[..|ids|] == ids;
    assert [] + ids == ids;
  }

  /** So whatever happened before, a wait with two consecutive error-free attempts ends with success. */
  lemma {:induction false} TwoCleanTicksEndTheWait(
    all: seq<Id>, ticks: seq<Server>, ids: seq<Id>, pageSize: nat, i: nat)
    requires pageSize > 0 && i + 1 < |ticks|
    requires ticks[i] == ticks[i + 1] == Holding(ids, pageSize, {})
    ensures Retry(all, ticks, |ids|, pageSize).ok
    decreases i
  {
    var o := Attempt(all, ticks[0], |ids|, pageSize);
    if i > 0 {
      TwoCleanTicksEndTheWait(o.all, ticks[1..], ids, pageSize, i - 1);
    } else {
      TwoCleanAttemptsSuffice(all, ids, pageSize);
      assert ticks[1..][0] == ticks[1];
    }
  }

  /** What the verdict is worth: an error-free attempt that succeeds was right about the server, that is, the
      server holds at least the expected number of ids, exactly if it found no stale results; and then the
      results are the server's first ids. */
  lemma SuccessIsGenuineIff(all: seq<Id>, ids: seq<Id>, totalSize: nat, pageSize: nat)
    requires pageSize > 0
    requires Attempt(all, Holding(ids, pageSize, {}), totalSize, pageSize).ok
    ensures |ids| >= totalSize <==> all == []
    ensures all == [] ==> Attempt(all, Holding(ids, pageSize, {}), totalSize, pageSize).all == ids[..totalSize]
  {
    CleanPass(all, ids, totalSize, pageSize);
    PagesCover(totalSize, pageSize);
    if all == [] {
      assert all + ids[..totalSize] == ids[..totalSize];
    }
  }

  /** And stale results do fake a success: the server holds one id of two expected, the first attempt fails at
      the second page, and the second attempt counts the same id again. */
  lemma StaleResultsFakeSuccess(id: Id)
    ensures var ticks := [Holding([id], 1, {1}), Holding([id], 1, {})];
      Retry([], ticks, 2, 1) == Waited([id, id], true)
  {
    var ticks := [Holding([id], 1, {1}), Holding([id], 1, {})];
    FailedPassLeavesPages([], [id], 2, 1, {1}, 1);
    CleanPass([id], [id], 2, 1);
    assert Attempt([], ticks[0], 2, 1).all == [id];
    assert [id] + [id][..1] == [id, id];
    assert ticks[1..][0] == ticks[1];
  }

  // ---------- WaitFor ----------

  /** An error condition's answer: whether it fired, and whether it came with an error. */
  datatype Check = Check(hasErrors: bool, err: bool)

  /** One tick: the condition's answer, and what the error conditions would answer. */
  datatype Tick = Tick(running: bool, err: bool, checks: seq<Check>)

  datatype Verdict = Success | Error | Timeout

  function FirstFired(checks: seq<Check>): (i: nat)
    ensures i <= |checks| && (i < |checks| ==> checks[i].hasErrors)
    ensures forall j :: 0 <= j < i ==> !checks[j].hasErrors
  {
    if checks == [] || checks[0].hasErrors then 0 else 1 + FirstFired(checks[1..])
  }

  predicate Decides(t: Tick) {
    t.running || FirstFired(t.checks) < |t.checks|
  }

  /** The first tick at which the condition holds or an error condition fires decides, whatever errors the
      condition had before; an error condition that fires without an error counts as success. */
  method WaitFor(ticks: seq<Tick>) returns (verdict: Verdict, n: nat)
    ensures n <= |ticks| && forall i :: 0 <= i < n ==> !Decides(ticks[i])
    ensures verdict == Timeout <==> n == |ticks|
    ensures n < |ticks| ==> Decides(ticks[n])
    ensures forall i, j :: 0 <= i < n && 0 <= j < |ticks[i].checks| ==>
              !ticks[i].running && !ticks[i].checks[j].hasErrors
    ensures n < |ticks| ==>
              ticks[n].running || exists j :: 0 <= j < |ticks[n].checks| && ticks[n].checks[j].hasErrors
    ensures n < |ticks| ==>
              (verdict == Success <==> ticks[n].running || !ticks[n].checks[FirstFired(ticks[n].checks)].err)
  {
    n := 0;
    while n < |ticks|
      invariant n <= |ticks| && forall i :: 0 <= i < n ==> !Decides(ticks[i])
    {
      if ticks[n].running {
        return Success, n;
      }
      var checks, i := ticks[n].checks, 0;
      while i < |checks|
        invariant i <= FirstFired(checks)
      {
        if checks[i].hasErrors {
          return if checks[i].err then Error else Success, n;
        }
        i := i + 1;
      }
      n := n + 1;
    }
    verdict := Timeout;
  }
}
