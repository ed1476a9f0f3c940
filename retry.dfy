/**
 * The bounded retry loop `fetchWithRetry(url, retries = 3)`. The juz view,
 * the home view, the page index and the juz index each carry a copy with the
 * same logic; the home view's copy words its log and error messages in
 * English, which the model does not see.
 * The network is abstracted as `net`, the outcome of the i-th attempt
 * (fetch, status check and JSON parse together); the one-second pause
 * between attempts is counted, not timed.
 */
module Retry {

  /** The outcome of one attempt: the parsed body, or the error it raised. */
  datatype Attempt<T> = Success(data: T) | Failure(reason: string)

  /** How a call settles: it returns the data, rethrows the last error, or
      (with a non-positive attempt count) falls off the loop and returns `undefined`. */
  datatype Fetched<T> = Returned(data: T) | Thrown(reason: string) | ReturnedUndefined

  /** The attempt count every caller relies on (the parameter's default). */
  const DefaultRetries: int := 3

  /** The first attempt in `[from, bound)` that succeeds, or `bound` when none does. */
  function FirstSuccess<T>(net: nat -> Attempt<T>, from: nat, bound: nat): (k: nat)
    requires from <= bound
    ensures from <= k <= bound
    ensures forall j :: from <= j < k ==> net(j).Failure?
    ensures k < bound ==> net(k).Success?
    decreases bound - from
  {
    if from == bound then bound
    else if net(from).Success? then from
    else FirstSuccess(net, from + 1, bound)
  }

  /** What `fetchWithRetry(url, retries)` settles with. */
  function RetryOutcome<T>(net: nat -> Attempt<T>, retries: int): Fetched<T> {
    if retries <= 0 then ReturnedUndefined
    else
      var k := FirstSuccess(net, 0, retries);
      if k < retries then Returned(net(k).data) else Thrown(net(retries - 1).reason)
  }

  /** How many attempts that call makes. */
  function AttemptsMade<T>(net: nat -> Attempt<T>, retries: int): nat {
    if retries <= 0 then 0
    else
      var k := FirstSuccess(net, 0, retries);
      if k < retries then k + 1 else retries
  }

  /** How many one-second pauses that call makes: one after every failed attempt but the last. */
  function WaitsMade<T>(net: nat -> Attempt<T>, retries: int): nat {
    var a := AttemptsMade(net, retries);
    if a == 0 then 0 else a - 1
  }

  /** The loop itself: try, return on success, rethrow after the last attempt, otherwise wait and retry. */
  method FetchWithRetry<T>(net: nat -> Attempt<T>, retries: int) returns (r: Fetched<T>, attempts: nat, waits: nat)
    ensures r == RetryOutcome(net, retries)
    ensures attempts == AttemptsMade(net, retries)
    ensures waits == WaitsMade(net, retries)
  {
    attempts, waits := 0, 0;
    var i: nat := 0;
    while i < retries
      invariant if retries > 0 then i < retries else i == 0
      invariant attempts == i && waits == i
      invariant forall j :: 0 <= j < i ==> net(j).Failure?
    {
      var res := net(i);
      attempts := attempts + 1;
      if res.Success? {
        assert FirstSuccess(net, 0, retries) == i;
        r := Returned(res.data);
        return;
      }
      if i == retries - 1 {
        assert FirstSuccess(net, 0, retries) == retries;
        r := Thrown(res.reason);
        return;
      }
      waits := waits + 1;
      i := i + 1;
    }
    r := ReturnedUndefined;
  }

  /**
   * The promises of the retry loop: never more than `retries` attempts; the
   * data of the first successful attempt is returned; the error is rethrown
   * only when every attempt failed, and it is the last attempt's; a pause
   * follows every failed attempt except the last.
   */
  lemma RetryContract<T>(net: nat -> Attempt<T>, retries: int)
    ensures retries <= 0 ==> AttemptsMade(net, retries) == 0 && RetryOutcome(net, retries) == ReturnedUndefined
    ensures retries > 0 ==> 1 <= AttemptsMade(net, retries) <= retries
    ensures WaitsMade(net, retries) + 1 == AttemptsMade(net, retries) || AttemptsMade(net, retries) == 0
    ensures RetryOutcome(net, retries).Returned? <==> exists j :: 0 <= j < retries && net(j).Success?
    ensures RetryOutcome(net, retries).Returned? ==>
      var a := AttemptsMade(net, retries);
      net(a - 1) == Success(RetryOutcome(net, retries).data) && forall j :: 0 <= j < a - 1 ==> net(j).Failure?
    ensures RetryOutcome(net, retries).Thrown? ==>
      AttemptsMade(net, retries) == retries && RetryOutcome(net, retries).reason == net(retries - 1).reason
      && forall j :: 0 <= j < retries ==> net(j).Failure?
  {
    if retries > 0 {
      var k := FirstSuccess(net, 0, retries);
      if exists j :: 0 <= j < retries && net(j).Success? {
        var j :| 0 <= j < retries && net(j).Success?;
        assert k <= j;
      }
    }
  }

  /** A target that always fails is tried exactly `retries` times, with `retries - 1` pauses, and the failure is rethrown. */
  lemma AlwaysFailing<T>(net: nat -> Attempt<T>, retries: int)
    requires retries > 0
    requires forall j :: net(j).Failure?
    ensures RetryOutcome(net, retries) == Thrown(net(retries - 1).reason)
    ensures AttemptsMade(net, retries) == retries && WaitsMade(net, retries) == retries - 1
  {
  }

  /** With the default of three attempts, two failures followed by a success return the third attempt's data. */
  lemma TwoFailuresThenSuccess<T>(net: nat -> Attempt<T>)
    requires net(0).Failure? && net(1).Failure? && net(2).Success?
    ensures RetryOutcome(net, DefaultRetries) == Returned(net(2).data)
    ensures AttemptsMade(net, DefaultRetries) == 3 && WaitsMade(net, DefaultRetries) == 2
  {
    assert FirstSuccess(net, 0, 3) == 2;
  }

  // ---------------------------------------------------------------------
  // A batch of requests for consecutive ids awaited together with `Promise.all`.

  /** The ids `from, from + 1, ..., from + count - 1`. */
  function Range(from: int, count: nat): (r: seq<int>)
    ensures |r| == count
    ensures forall i :: 0 <= i < count ==> r[i] == from + i
  {
    seq(count, i => from + i)
  }

  /** How each request of the batch settles; `net(id)` answers the attempts for `id`. */
  function BatchOutcomes<T>(net: int -> nat -> Attempt<T>, from: int, count: nat): (r: seq<Fetched<T>>)
    ensures |r| == count
    ensures forall i :: 0 <= i < count ==> r[i] == RetryOutcome(net(from + i), DefaultRetries)
  {
    seq(count, i => RetryOutcome(net(from + i), DefaultRetries))
  }

  /** `Promise.all` resolves only when every request returned. */
  predicate AllReturned<T>(rs: seq<Fetched<T>>) {
    forall i :: 0 <= i < |rs| ==> rs[i].Returned?
  }

  /** The resolved values of a batch that returned. */
  function Payloads<T>(rs: seq<Fetched<T>>): (r: seq<T>)
    requires AllReturned(rs)
    ensures |r| == |rs|
    ensures forall i :: 0 <= i < |rs| ==> r[i] == rs[i].data
  {
    seq(|rs|, i requires 0 <= i < |rs| => rs[i].data)
  }

  /**
   * `for (let i = from; i < from + count; i++) promises.push(fetchWithRetry(url(i)))`
   * followed by `await Promise.all(promises)`, run one request after another.
   */
  method FetchBatch<T>(net: int -> nat -> Attempt<T>, from: int, count: nat) returns (results: seq<Fetched<T>>, requested: seq<int>)
    ensures results == BatchOutcomes(net, from, count)
    ensures requested == Range(from, count)
  {
    results, requested := [], [];
    var i := from;
    while i < from + count
      invariant from <= i <= from + count
      invariant results == BatchOutcomes(net, from, i - from)
      invariant requested == Range(from, i - from)
    {
      var r, attempts, waits := FetchWithRetry(net(i), DefaultRetries);
      results := results + [r];
      requested := requested + [i];
      i := i + 1;
    }
  }

  /** Two consecutive id ranges together form one range. */
  lemma RangeAppend(from: int, n: nat, m: nat)
    ensures Range(from, n) + Range(from + n, m) == Range(from, n + m)
  {
  }

  /** The outcomes of ids `from .. from+n+m-1` are those of the first `n` followed by those of the next `m`. */
  lemma BatchOutcomesAppend<T>(net: int -> nat -> Attempt<T>, from: int, n: nat, m: nat)
    ensures BatchOutcomes(net, from, n + m) == BatchOutcomes(net, from, n) + BatchOutcomes(net, from + n, m)
  {
  }

  /** Payloads of two batches that both returned, concatenated. */
  lemma PayloadsAppend<T>(a: seq<Fetched<T>>, b: seq<Fetched<T>>)
    requires AllReturned(a) && AllReturned(b)
    ensures AllReturned(a + b)
    ensures Payloads(a + b) == Payloads(a) + Payloads(b)
  {
  }

  /** A request that did not return in a sub-batch keeps the enclosing batch from resolving. */
  lemma FailureSpoilsEnclosingBatch<T>(net: int -> nat -> Attempt<T>, from: int, skip: nat, n: nat, total: nat)
    requires skip + n <= total && !AllReturned(BatchOutcomes(net, from + skip, n))
    ensures !AllReturned(BatchOutcomes(net, from, total))
  {
    var i :| 0 <= i < n && !BatchOutcomes(net, from + skip, n)[i].Returned?;
    assert BatchOutcomes(net, from, total)[skip + i] == BatchOutcomes(net, from + skip, n)[i];
  }
}
