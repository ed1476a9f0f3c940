/** The juz index: fetch juz 1..30, summarise each valid response, or show an error. */
module JuzListView {
  import opened Wrappers
  import opened Content
  import opened Retry
  import opened IndexAssembly
  import opened IndexFetch

  const JuzCount: int := 30

  /** `fetchAllJuz`: 30 requests for juz 1..30 in order; any failure sets the error instead of the list. */
  method FetchAllJuz(net: int -> nat -> Attempt<VerseList>) returns (r: Result<seq<Summary>, string>, requested: seq<int>)
    ensures requested == Range(1, 30)
    ensures r.Ok? <==> AllReturned(BatchOutcomes(net, 1, 30))
    ensures r.Ok? ==> r.value == Assemble(1, Payloads(BatchOutcomes(net, 1, 30)), UnknownIndonesian)
  {
    var juz;
    juz, requested := FetchIndex(net, 1, JuzCount, UnknownIndonesian);
    if juz.Some? {
      r := Ok(juz.value);
    } else {
      r := Err("Gagal memuat daftar Juz");
    }
  }

  /**
   * A loaded juz index numbers its entries by juz: numbers strictly increase
   * within 1..30, each entry's verse count is the length of that juz's verse
   * list, and only juz whose response lacked a verse list are missing.
   */
  lemma JuzIndexEntries(responses: seq<VerseList>)
    requires |responses| == 30
    ensures StrictlyIncreasing(Assemble(1, responses, UnknownIndonesian))
    ensures forall e :: e in Assemble(1, responses, UnknownIndonesian) ==>
      1 <= e.number <= 30 && responses[e.number - 1].Some? && e.totalAyahs == |responses[e.number - 1].value|
    ensures forall i :: 0 <= i < 30 && responses[i].Some? ==>
      exists e :: e in Assemble(1, responses, UnknownIndonesian) && e.number == i + 1
  {
    AssembleSpec(1, responses, UnknownIndonesian);
    forall i | 0 <= i < 30 && responses[i].Some?
      ensures exists e :: e in Assemble(1, responses, UnknownIndonesian) && e.number == i + 1
    {
      var e := Summarize(1 + i, responses[i].value, UnknownIndonesian);
      assert e in Assemble(1, responses, UnknownIndonesian);
    }
  }
}
