/**
 * The page index: pages 1..604 are fetched in batches of 50 awaited
 * together, with a one-second pause after every batch but the last, and
 * summarised; any failed request abandons the whole load.
 */
module PageListView {
  import opened Wrappers
  import opened Content
  import opened Retry
  import opened IndexAssembly
  import opened IndexFetch

  const TotalPages: int := 604
  const BatchSize: int := 50
  /** The number of times the outer loop runs. */
  const NumBatches: nat := 13

  /** `start` on the k-th run of `for (let start = 1; start <= totalPages; start += batchSize)`. */
  function BatchStart(k: nat): int {
    1 + BatchSize * k
  }

  /** `Math.min(start + batchSize - 1, totalPages)`. */
  function BatchEnd(k: nat): int {
    var last := BatchStart(k) + BatchSize - 1;
    if last <= TotalPages then last else TotalPages
  }

  /**
   * The batches start at 1, 51, ..., 601; each holds between 1 and 50 pages;
   * each begins right after the previous one ends; the last ends at 604 and
   * the loop stops after it; so every page lies in exactly one batch. A
   * pause follows each batch except the last.
   */
  lemma BatchesPartitionPages()
    ensures BatchStart(0) == 1 && BatchEnd(NumBatches - 1) == TotalPages
    ensures BatchStart(NumBatches - 1) <= TotalPages < BatchStart(NumBatches)
    ensures forall k: nat :: k < NumBatches ==> 1 <= BatchEnd(k) - BatchStart(k) + 1 <= BatchSize
    ensures forall k: nat :: k + 1 < NumBatches ==> BatchEnd(k) + 1 == BatchStart(k + 1)
    ensures forall k: nat :: k < NumBatches ==> (BatchEnd(k) < TotalPages <==> k + 1 < NumBatches)
    ensures forall p :: 1 <= p <= TotalPages ==> BatchOf(p) < NumBatches && InBatch(p, BatchOf(p))
    ensures forall p, k: nat :: 1 <= p <= TotalPages && k < NumBatches && InBatch(p, k) ==> k == BatchOf(p)
  {
  }

  /** The batch a page should fall in. */
  function BatchOf(p: int): nat
    requires p >= 1
  {
    (p - 1) / BatchSize
  }

  /** Page `p` is requested by the k-th batch. */
  predicate InBatch(p: int, k: nat) {
    BatchStart(k) <= p <= BatchEnd(k)
  }

  /** Summarising pages 1..done and then the next batch is summarising pages 1..done+count. */
  lemma AssembleNextBatch(net: int -> nat -> Attempt<VerseList>, done: nat, count: nat)
    requires AllReturned(BatchOutcomes(net, 1, done)) && AllReturned(BatchOutcomes(net, 1 + done, count))
    ensures AllReturned(BatchOutcomes(net, 1, done + count))
    ensures Assemble(1, Payloads(BatchOutcomes(net, 1, done + count)), UnknownIndonesian)
         == Assemble(1, Payloads(BatchOutcomes(net, 1, done)), UnknownIndonesian)
          + Assemble(1 + done, Payloads(BatchOutcomes(net, 1 + done, count)), UnknownIndonesian)
  {
    BatchOutcomesAppend(net, 1, done, count);
    PayloadsAppend(BatchOutcomes(net, 1, done), BatchOutcomes(net, 1 + done, count));
    AssembleAppend(1, Payloads(BatchOutcomes(net, 1, done)), Payloads(BatchOutcomes(net, 1 + done, count)), UnknownIndonesian);
  }

  /**
   * One run of the outer loop seen from the whole load: after pages 1..done
   * were requested and summarised, request and summarise the next `count`
   * pages; the load is still going iff pages 1..done+count all returned.
   */
  method ExtendLoad(net: int -> nat -> Attempt<VerseList>, done: nat, count: nat, requested: seq<int>, allPages: seq<Summary>)
    returns (ok: bool, requested': seq<int>, allPages': seq<Summary>)
    requires requested == Range(1, done)
    requires IndexOutcome(net, 1, done, UnknownIndonesian) == Some(allPages)
    ensures requested' == Range(1, done + count)
    ensures ok <==> IndexOutcome(net, 1, done + count, UnknownIndonesian).Some?
    ensures ok ==> IndexOutcome(net, 1, done + count, UnknownIndonesian) == Some(allPages')
  {
    var batchPages, ids := FetchIndex(net, 1 + done, count, UnknownIndonesian);
    RangeAppend(1, done, count);
    requested' := requested + ids;
    if batchPages.None? {
      FailureSpoilsEnclosingBatch(net, 1, done, count, done + count);
      ok, allPages' := false, allPages;
    } else {
      AssembleNextBatch(net, done, count);
      ok, allPages' := true, allPages + batchPages.value;
    }
  }

  /**
   * `fetchAllPages`. On success the list is the summary of all 604 pages in
   * order (page number `start + index` within each batch), all 604 pages were
   * requested in order in 13 batches, and 12 pauses were taken. On failure
   * no list is set; the pages requested are still a prefix 1..m, and the
   * batch that failed is not followed by a pause.
   */
  method FetchAllPages(net: int -> nat -> Attempt<VerseList>)
    returns (r: Result<seq<Summary>, string>, requested: seq<int>, batchSizes: seq<nat>, delays: nat)
    ensures r.Ok? <==> IndexOutcome(net, 1, TotalPages, UnknownIndonesian).Some?
    ensures r.Ok? ==> IndexOutcome(net, 1, TotalPages, UnknownIndonesian) == Some(r.value)
    ensures r.Ok? ==> requested == Range(1, TotalPages) && |batchSizes| == NumBatches && delays == NumBatches - 1
    ensures requested == Range(1, |requested|)
    ensures |batchSizes| <= NumBatches && forall k :: 0 <= k < |batchSizes| ==> batchSizes[k] <= BatchSize
    ensures forall k: nat :: k < |batchSizes| ==> batchSizes[k] == BatchEnd(k) - BatchStart(k) + 1
    ensures r.Err? ==> delays + 1 == |batchSizes|
  {
    var start := 1;
    var done: nat := 0;
    var k: nat := 0;
    var allPages: seq<Summary> := [];
    requested, batchSizes, delays := [], [], 0;
    while start <= TotalPages
      invariant k <= NumBatches && start == BatchStart(k)
      invariant done == if start <= TotalPages then start - 1 else TotalPages
      invariant requested == Range(1, done)
      invariant IndexOutcome(net, 1, done, UnknownIndonesian) == Some(allPages)
      invariant |batchSizes| == k && forall j :: 0 <= j < k ==> batchSizes[j] <= BatchSize
      invariant forall j: nat :: j < k ==> batchSizes[j] == BatchEnd(j) - BatchStart(j) + 1
      invariant delays == if start <= TotalPages then k else k - 1
      decreases TotalPages - start
    {
      var end := if start + BatchSize - 1 <= TotalPages then start + BatchSize - 1 else TotalPages;
      var count: nat := end - start + 1;
      var ok;
      ok, requested, allPages := ExtendLoad(net, done, count, requested, allPages);
      batchSizes := batchSizes + [count];
      if !ok {
        FailureSpoilsEnclosingBatch(net, 1, 0, done + count, TotalPages);
        assert IndexOutcome(net, 1, TotalPages, UnknownIndonesian).None?;
        r := Err("Gagal memuat daftar halaman");
        return;
      }
      if end < TotalPages {
        delays := delays + 1;
      }
      start := start + BatchSize;
      done := end;
      k := k + 1;
    }
    r := Ok(allPages);
  }
}
