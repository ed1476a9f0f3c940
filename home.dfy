/**
 * The home view: the chapter catalogue (searchable), and short juz and page
 * indexes, loaded one after another; the first failure stops the load and
 * shows an error, keeping what was already set.
 */
module HomeView {
  import opened Wrappers
  import opened JsValues
  import opened Sequences
  import opened Content
  import opened Retry
  import opened IndexAssembly
  import opened IndexFetch

  const HomeJuzCount: nat := 30
  const HomePageCount: nat := 12

  /** One row of the chapter list, under the view's own field names. */
  datatype SurahItem = SurahItem(nomor: int, nama: string, namaLatin: string, arti: string, tempatTurun: string, jumlahAyat: int)

  function ToItem(s: ApiSurah): SurahItem {
    SurahItem(s.number, s.name, s.englishName, s.englishNameTranslation, s.revelationType, s.numberOfAyahs)
  }

  /** The catalogue entry a row was made from. */
  function FromItem(t: SurahItem): ApiSurah {
    ApiSurah(t.nomor, t.nama, t.namaLatin, t.arti, t.tempatTurun, t.jumlahAyat)
  }

  /** `surahData.data.map(s => ({ nomor: s.number, ... }))`. */
  function MapSurahList(data: seq<ApiSurah>): (r: seq<SurahItem>)
    ensures |r| == |data|
    ensures forall i :: 0 <= i < |data| ==> r[i] == ToItem(data[i])
  {
    seq(|data|, i requires 0 <= i < |data| => ToItem(data[i]))
  }

  function UnmapSurahList(items: seq<SurahItem>): (r: seq<ApiSurah>)
    ensures |r| == |items|
    ensures forall i :: 0 <= i < |items| ==> r[i] == FromItem(items[i])
  {
    seq(|items|, i requires 0 <= i < |items| => FromItem(items[i]))
  }

  /** The mapping renames fields and nothing else: the catalogue can be read back from the list, entry by entry and in order. */
  lemma SurahListRoundTrip(data: seq<ApiSurah>)
    ensures UnmapSurahList(MapSurahList(data)) == data
  {
  }

  /** The search predicate: the Latin name contains the query ignoring (ASCII) case, or the Arabic name contains it as typed. */
  predicate SearchMatches(s: SurahItem, q: string) {
    Includes(Lower(s.namaLatin), Lower(q)) || Includes(s.nama, q)
  }

  /** `filteredSurahs`. */
  function FilterSurahs(list: seq<SurahItem>, q: string): (r: seq<SurahItem>)
    ensures |r| <= |list|
  {
    if list == [] then []
    else if SearchMatches(list[0], q) then [list[0]] + FilterSurahs(list[1..], q)
    else FilterSurahs(list[1..], q)
  }

  /**
   * The search keeps exactly the rows that match, each as often as it
   * occurs, in their original order.
   */
  lemma FilterSurahsSpec(list: seq<SurahItem>, q: string)
    ensures forall i :: 0 <= i < |FilterSurahs(list, q)| ==> SearchMatches(FilterSurahs(list, q)[i], q)
    ensures forall s :: multiset(FilterSurahs(list, q))[s] == if SearchMatches(s, q) then multiset(list)[s] else 0
    ensures forall s :: s in FilterSurahs(list, q) <==> s in list && SearchMatches(s, q)
    ensures IsSubsequence(FilterSurahs(list, q), list)
  {
    FilterKeepsMatches(list, q);
    FilterCounts(list, q);
    FilterSubsequence(list, q);
    forall s ensures s in FilterSurahs(list, q) <==> s in list && SearchMatches(s, q) {
      assert (s in FilterSurahs(list, q)) == (multiset(FilterSurahs(list, q))[s] > 0);
      assert (s in list) == (multiset(list)[s] > 0);
    }
  }

  lemma {:induction false} FilterKeepsMatches(list: seq<SurahItem>, q: string)
    ensures forall i :: 0 <= i < |FilterSurahs(list, q)| ==> SearchMatches(FilterSurahs(list, q)[i], q)
  {
    if list != [] {
      FilterKeepsMatches(list[1..], q);
    }
  }

  lemma {:induction false} FilterCounts(list: seq<SurahItem>, q: string)
    ensures forall s :: multiset(FilterSurahs(list, q))[s] == if SearchMatches(s, q) then multiset(list)[s] else 0
  {
    if list != [] {
      FilterCounts(list[1..], q);
      assert list == [list[0]] + list[1..];
    }
  }

  lemma {:induction false} FilterSubsequence(list: seq<SurahItem>, q: string)
    ensures IsSubsequence(FilterSurahs(list, q), list)
  {
    if list != [] {
      FilterSubsequence(list[1..], q);
      var r := FilterSurahs(list, q);
      var t := FilterSurahs(list[1..], q);
      if SearchMatches(list[0], q) {
        assert r[1..] == t;
      } else {
        assert IsSubsequence(r, list) by { assert t == [] || IsSubsequence(t, list[1..]); }
      }
    }
  }

  /** An empty search box shows every chapter. */
  lemma {:induction false} EmptySearchKeepsAll(list: seq<SurahItem>)
    ensures FilterSurahs(list, "") == list
  {
    if list != [] {
      IncludesEmpty(Lower(list[0].namaLatin));
      assert Lower("") == "";
      EmptySearchKeepsAll(list[1..]);
    }
  }

  /** The home view's state. */
  class HomePage {
    var surahs: seq<SurahItem>
    var juz: seq<Summary>
    var pages: seq<Summary>
    var search: string
    var loading: bool
    var error: Option<string>

    constructor ()
      ensures surahs == [] && juz == [] && pages == [] && search == "" && loading && error == None
    {
      surahs, juz, pages, search, loading, error := [], [], [], "", true, None;
    }

    /** The chapters on screen. */
    function Visible(): (r: seq<SurahItem>)
      reads this
      ensures IsSubsequence(r, surahs)
    {
      FilterSurahsSpec(surahs, search);
      FilterSurahs(surahs, search)
    }

    /** Typing in the search box. */
    method SetSearch(q: string)
      modifies this
      ensures search == q
      ensures surahs == old(surahs) && juz == old(juz) && pages == old(pages)
      ensures loading == old(loading) && error == old(error)
    {
      search := q;
    }

    /**
     * `fetchData`: the catalogue is fetched with retries and must have a
     * `data` list; then juz 1..30 and then pages 1..12 are fetched, each
     * group awaited together and summarised with the English fallback
     * names. Whatever step throws first sets the error; lists set before it
     * stay set, later requests are never made.
     */
    method FetchData(catalogue: nat -> Attempt<Option<seq<ApiSurah>>>,
                     juzNet: int -> nat -> Attempt<VerseList>, pageNet: int -> nat -> Attempt<VerseList>)
      returns (juzRequested: seq<int>, pageRequested: seq<int>)
      modifies this
      ensures !loading && search == old(search)
      ensures
        var o := RetryOutcome(catalogue, DefaultRetries);
        var j := IndexOutcome(juzNet, 1, HomeJuzCount, UnknownEnglish);
        var p := IndexOutcome(pageNet, 1, HomePageCount, UnknownEnglish);
        if !(o.Returned? && o.data.Some?) then
          surahs == old(surahs) && juz == old(juz) && pages == old(pages) && error.Some?
          && juzRequested == [] && pageRequested == []
        else
          surahs == MapSurahList(o.data.value) && juzRequested == Range(1, HomeJuzCount) &&
          if j.None? then
            juz == old(juz) && pages == old(pages) && error.Some? && pageRequested == []
          else
            juz == j.value && pageRequested == Range(1, HomePageCount) &&
            if p.None? then pages == old(pages) && error.Some?
            else pages == p.value && error == old(error)
    {
      loading := true;
      juzRequested, pageRequested := [], [];
      var surahData, attempts, waits := FetchWithRetry(catalogue, DefaultRetries);
      if !(surahData.Returned? && surahData.data.Some?) {
        error := Some("Gagal memuat data");
        loading := false;
        return;
      }
      surahs := MapSurahList(surahData.data.value);
      juzRequested, pageRequested := FetchIndexes(juzNet, pageNet);
    }

    /** The part of `fetchData` after the catalogue was set: juz 1..30, then pages 1..12. */
    method FetchIndexes(juzNet: int -> nat -> Attempt<VerseList>, pageNet: int -> nat -> Attempt<VerseList>)
      returns (juzRequested: seq<int>, pageRequested: seq<int>)
      modifies this
      ensures !loading && search == old(search) && surahs == old(surahs) && juzRequested == Range(1, HomeJuzCount)
      ensures
        var j := IndexOutcome(juzNet, 1, HomeJuzCount, UnknownEnglish);
        var p := IndexOutcome(pageNet, 1, HomePageCount, UnknownEnglish);
        if j.None? then
          juz == old(juz) && pages == old(pages) && error.Some? && pageRequested == []
        else
          juz == j.value && pageRequested == Range(1, HomePageCount) &&
          if p.None? then pages == old(pages) && error.Some?
          else pages == p.value && error == old(error)
    {
      pageRequested := [];
      var juzList;
      juzList, juzRequested := FetchIndex(juzNet, 1, HomeJuzCount, UnknownEnglish);
      if juzList.None? {
        error := Some("Gagal memuat data");
        loading := false;
        return;
      }
      juz := juzList.value;

      var pageList;
      pageList, pageRequested := FetchIndex(pageNet, 1, HomePageCount, UnknownEnglish);
      if pageList.None? {
        error := Some("Gagal memuat data");
        loading := false;
        return;
      }
      pages := pageList.value;
      loading := false;
    }
  }
}
