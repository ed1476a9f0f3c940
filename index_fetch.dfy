/**
 * One group of index requests awaited together: ids `from .. from+count-1`
 * are fetched with retries and, when every request returned, their bodies
 * are summarised; a single failure makes the whole group fail.
 */
module IndexFetch {
  import opened Wrappers
  import opened Content
  import opened Retry
  import opened IndexAssembly

  /** What the group yields: the summaries, or `None` when `Promise.all` rejects. */
  function IndexOutcome(net: int -> nat -> Attempt<VerseList>, from: int, count: nat, unknownLatin: string): (r: Option<seq<Summary>>)
    ensures r.Some? <==> AllReturned(BatchOutcomes(net, from, count))
    ensures r.Some? ==> r.value == Assemble(from, Payloads(BatchOutcomes(net, from, count)), unknownLatin)
  {
    var outcomes := BatchOutcomes(net, from, count);
    if AllReturned(outcomes) then Some(Assemble(from, Payloads(outcomes), unknownLatin)) else None
  }

  /** Build the requests, await them together, and summarise the responses numbered from `from`. */
  method FetchIndex(net: int -> nat -> Attempt<VerseList>, from: int, count: nat, unknownLatin: string)
    returns (r: Option<seq<Summary>>, requested: seq<int>)
    ensures requested == Range(from, count)
    ensures r == IndexOutcome(net, from, count, unknownLatin)
  {
    var results;
    results, requested := FetchBatch(net, from, count);
    if AllReturned(results) {
      r := Some(Assemble(from, Payloads(results), unknownLatin));
    } else {
      r := None;
    }
  }
}
