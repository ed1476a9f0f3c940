/**
 * The single-verse view: the route's verse number selects a verse of the
 * chapter's Arabic and Indonesian editions, the star toggles a bookmark keyed
 * by the two route strings, and the previous/next buttons step through
 * verses and roll over into the neighbouring chapter.
 */
module AyahView {
  import opened Wrappers
  import opened JsValues
  import opened Content
  import opened Bookmarks
  import opened SurahView

  const LoadFailed: string := "Gagal memuat data ayat. Silakan coba lagi nanti."

  /** One edition of the chapter: `data.data[0]` (Arabic) or `data.data[1]` (Indonesian). */
  datatype Edition = Edition(englishName: string, name: string, ayahs: seq<ApiVerse>)

  /** The two editions the request asks for. */
  datatype AyahResponse = AyahResponse(arabic: Edition, indonesian: Edition)

  /** The verse the view shows. */
  datatype AyahData = AyahData(
    surahName: string, surahArabicName: string,
    ayahNumber: int, totalAyahs: nat, globalAyahNumber: int,
    arabic: string, translation: string)

  /** `parseInt(ayahNum, 10) - 1`. */
  function AyahIndex(ayahNum: string): JsNumber {
    AddJs(ParseInt(ayahNum, true), -1)
  }

  /** The index selects a verse of both editions. */
  predicate Selects(ayahNum: string, resp: AyahResponse) {
    var i := AyahIndex(ayahNum);
    i.Int? && 0 <= i.i < |resp.arabic.ayahs| && i.i < |resp.indonesian.ayahs|
  }

  /**
   * `fetchAyah`. `None` stands for a failed request or a body without both
   * editions. An index outside the Arabic edition throws explicitly; a `NaN`
   * index passes that test but reading the verse it selects throws, and so
   * does an index past the end of the Indonesian edition. Every throw shows
   * the same error.
   */
  function LoadAyah(ayahNum: string, response: Option<AyahResponse>): (r: Result<AyahData, string>)
    ensures r.Ok? <==> response.Some? && Selects(ayahNum, response.value)
    ensures r.Err? ==> r.error == LoadFailed
    ensures r.Ok? ==>
      var i := AyahIndex(ayahNum).i;
      var arabic := response.value.arabic;
      r.value.totalAyahs == |arabic.ayahs|
      && r.value.ayahNumber == arabic.ayahs[i].numberInSurah
      && r.value.globalAyahNumber == arabic.ayahs[i].number
      && r.value.arabic == arabic.ayahs[i].text
      && r.value.translation == response.value.indonesian.ayahs[i].text
      && r.value.surahName == arabic.englishName && r.value.surahArabicName == arabic.name
  {
    match response
    case None => Err(LoadFailed)
    case Some(data) =>
      var arabicVerses := data.arabic.ayahs;
      var indoVerses := data.indonesian.ayahs;
      var ayahIndex := AyahIndex(ayahNum);
      if ayahIndex.Int? && (ayahIndex.i < 0 || ayahIndex.i >= |arabicVerses|) then Err(LoadFailed)
      else if ayahIndex.NaN? || ayahIndex.i >= |indoVerses| then Err(LoadFailed)
      else
        var arabic := arabicVerses[ayahIndex.i];
        var indo := indoVerses[ayahIndex.i];
        Ok(AyahData(data.arabic.englishName, data.arabic.name, arabic.numberInSurah, |arabicVerses|,
                    arabic.number, arabic.text, indo.text))
  }

  /** The verse number written in a route by the previous/next buttons selects the verse at that position. */
  lemma {:induction false} RouteSelectsVerse(n: nat, resp: AyahResponse)
    requires 1 <= n <= |resp.arabic.ayahs| && |resp.indonesian.ayahs| == |resp.arabic.ayahs|
    ensures LoadAyah(NatToString(n), Some(resp)).Ok?
    ensures LoadAyah(NatToString(n), Some(resp)).value.ayahNumber == resp.arabic.ayahs[n - 1].numberInSurah
  {
    ParseIntOfNatToString(n, true);
  }

  // ---------------------------------------------------------------------
  // Bookmarks.

  /** `b.surah === surahId && b.ayah === ayahNum`, both route strings. */
  function AyahKey(surahId: string, ayahNum: string): Key {
    SurahAyah(Str(surahId), Str(ayahNum))
  }

  /** The record the verse view pushes: it carries the key and the verse's chapter names. */
  function AyahRecord(surahId: string, ayahNum: string, d: AyahData, now: int): (b: Bookmark)
    ensures Matches(b, AyahKey(surahId, ayahNum))
    ensures b.surahName == Str(d.surahName) && b.arabName == Str(d.surahArabicName)
  {
    Bookmark(Str(surahId), Str(ayahNum), Undef, Undef, Undef, Str(d.surahName), Str(d.surahArabicName), Undef, Undef, now)
  }

  /** `toggleBookmark()` on a loaded verse. */
  method ToggleBookmark(store: Store, surahId: string, ayahNum: string, d: AyahData, now: int)
    modifies store
    ensures store.bookmarks == ToggleList(old(store.bookmarks), AyahKey(surahId, ayahNum), AyahRecord(surahId, ayahNum, d, now))
    ensures store.stored == Some(store.bookmarks)
  {
    store.Toggle(AyahKey(surahId, ayahNum), AyahRecord(surahId, ayahNum, d, now));
  }

  /**
   * A star click flips the star, and leaves every other key's records as
   * they were.
   */
  lemma AyahStarToggles(list: seq<Bookmark>, surahId: string, ayahNum: string, d: AyahData, now: int)
    ensures IsBookmarked(ToggleList(list, AyahKey(surahId, ayahNum), AyahRecord(surahId, ayahNum, d, now)), AyahKey(surahId, ayahNum))
         == !IsBookmarked(list, AyahKey(surahId, ayahNum))
    ensures RemoveMatching(ToggleList(list, AyahKey(surahId, ayahNum), AyahRecord(surahId, ayahNum, d, now)), AyahKey(surahId, ayahNum))
         == RemoveMatching(list, AyahKey(surahId, ayahNum))
  {
    ToggleFlips(list, AyahKey(surahId, ayahNum), AyahRecord(surahId, ayahNum, d, now));
    ToggleKeepsOthers(list, AyahKey(surahId, ayahNum), AyahRecord(surahId, ayahNum, d, now));
  }

  /**
   * The chapter view stores the verse as a number and the verse view as the
   * route string, so neither view sees a star the other one set on the same
   * verse: toggling in one view leaves the other view's star as it was.
   */
  lemma ViewsDoNotShareStars(list: seq<Bookmark>, surahId: string, n: int, info: SurahInfo, ayahNum: string, d: AyahData, now: int)
    ensures !Matches(SurahRecord(surahId, n, info, now), AyahKey(surahId, ayahNum))
    ensures !Matches(AyahRecord(surahId, ayahNum, d, now), SurahKey(surahId, n))
    ensures IsBookmarked(ToggleList(list, SurahKey(surahId, n), SurahRecord(surahId, n, info, now)), AyahKey(surahId, ayahNum))
         == IsBookmarked(list, AyahKey(surahId, ayahNum))
    ensures IsBookmarked(ToggleList(list, AyahKey(surahId, ayahNum), AyahRecord(surahId, ayahNum, d, now)), SurahKey(surahId, n))
         == IsBookmarked(list, SurahKey(surahId, n))
  {
    OtherKeyUnaffected(list, SurahKey(surahId, n), SurahRecord(surahId, n, info, now), AyahKey(surahId, ayahNum));
    OtherKeyUnaffected(list, AyahKey(surahId, ayahNum), AyahRecord(surahId, ayahNum, d, now), SurahKey(surahId, n));
  }

  /** When no record can match both keys and the new record does not match `other`, a toggle leaves `other`'s star alone. */
  lemma OtherKeyUnaffected(list: seq<Bookmark>, k: Key, record: Bookmark, other: Key)
    requires !Matches(record, other)
    requires forall b: Bookmark :: !(Matches(b, k) && Matches(b, other))
    ensures IsBookmarked(ToggleList(list, k, record), other) == IsBookmarked(list, other)
  {
    RemoveMatchingSpec(list, k);
    var r := ToggleList(list, k, record);
    if IsBookmarked(list, other) {
      var i :| 0 <= i < |list| && Matches(list[i], other);
      if IsBookmarked(list, k) {
        assert multiset(r)[list[i]] == multiset(list)[list[i]] > 0;
        assert list[i] in r;
        var j :| 0 <= j < |r| && r[j] == list[i];
      } else {
        assert r[i] == list[i];
      }
    }
  }

  // ---------------------------------------------------------------------
  // Navigation.

  /** Where a button sends the reader. */
  datatype Nav = ToAyah(surahId: string, ayah: int) | ToSurah(chapter: int) | Stay

  /** `navigateToPrevAyah`. */
  function NavigatePrev(surahId: string, d: AyahData): Nav {
    if d.ayahNumber > 1 then ToAyah(surahId, d.ayahNumber - 1)
    else if GreaterJs(ParseInt(surahId, false), 1) then ToSurah(ParseInt(surahId, false).i - 1)
    else Stay
  }

  /** `navigateToNextAyah`. */
  function NavigateNext(surahId: string, d: AyahData): Nav {
    if d.ayahNumber < d.totalAyahs then ToAyah(surahId, d.ayahNumber + 1)
    else if LessJs(ParseInt(surahId, false), LastSurah) then ToSurah(ParseInt(surahId, false).i + 1)
    else Stay
  }

  /** `ayahNumber === 1 && surahId === '1'`. */
  predicate PrevButtonDisabled(surahId: string, d: AyahData) {
    d.ayahNumber == 1 && surahId == "1"
  }

  /** `ayahNumber === totalAyahs && surahId === '114'`. */
  predicate NextButtonDisabled(surahId: string, d: AyahData) {
    d.ayahNumber == d.totalAyahs && surahId == "114"
  }

  /** The chapter-link target at the foot of the view, `None` for the inert `#` link. */
  function ChapterPrevLink(surahId: string): (t: Option<int>)
    ensures t.Some? <==> GreaterJs(ParseInt(surahId, false), 1)
    ensures t.Some? ==> t.value == ParseInt(surahId, false).i - 1 && t.value >= 1
  {
    var p := ParseInt(surahId, false);
    if GreaterJs(p, 1) then Some(p.i - 1) else None
  }

  function ChapterNextLink(surahId: string): (t: Option<int>)
    ensures t.Some? <==> LessJs(ParseInt(surahId, false), LastSurah)
    ensures t.Some? ==> t.value == ParseInt(surahId, false).i + 1 && t.value <= LastSurah
  {
    var p := ParseInt(surahId, false);
    if LessJs(p, LastSurah) then Some(p.i + 1) else None
  }

  /**
   * Previous steps back one verse while there is one; from the first verse
   * it goes where the previous-chapter link points, or nowhere when that
   * link is inert.
   */
  lemma PrevFollowsChapterLink(surahId: string, d: AyahData)
    ensures d.ayahNumber > 1 ==> NavigatePrev(surahId, d) == ToAyah(surahId, d.ayahNumber - 1)
    ensures d.ayahNumber <= 1 ==>
      NavigatePrev(surahId, d) == match ChapterPrevLink(surahId) case Some(c) => ToSurah(c) case None => Stay
  {
  }

  /** Next mirrors this at the last verse. */
  lemma NextFollowsChapterLink(surahId: string, d: AyahData)
    ensures d.ayahNumber < d.totalAyahs ==> NavigateNext(surahId, d) == ToAyah(surahId, d.ayahNumber + 1)
    ensures d.ayahNumber >= d.totalAyahs ==>
      NavigateNext(surahId, d) == match ChapterNextLink(surahId) case Some(c) => ToSurah(c) case None => Stay
  {
  }

  /** A disabled previous button would do nothing anyway. */
  lemma PrevDisabledStays(surahId: string, d: AyahData)
    requires PrevButtonDisabled(surahId, d)
    ensures NavigatePrev(surahId, d) == Stay
  {
    ParseFirstChapter();
  }

  /** A disabled next button would do nothing anyway. */
  lemma NextDisabledStays(surahId: string, d: AyahData)
    requires NextButtonDisabled(surahId, d)
    ensures NavigateNext(surahId, d) == Stay
  {
    ParseLastChapter();
  }

  lemma ParseFirstChapter()
    ensures ParseInt("1", false) == Int(1)
  {
    ParseIntOfNatToString(1, false);
    assert NatToString(1) == "1";
  }

  lemma ParseLastChapter()
    ensures ParseInt("114", false) == Int(114)
  {
    ParseIntOfDigits("114", false);
    DigitsOfLastChapter();
  }

  lemma DigitsOfLastChapter()
    ensures DigitsValue("114", 10) == 114
  {
    assert "114"[..2] == "11";
    assert "11"[..1] == "1";
    assert "1"[..0] == "";
  }

  /**
   * The converse fails: the disabled test compares the route string, so at
   * `/ayah/01/1` (or `/ayah/00/1`) the previous button is enabled yet does
   * nothing.
   */
  lemma EnabledButtonMayStay(n: nat, d: AyahData)
    requires n <= 1 && d.ayahNumber == 1
    ensures !PrevButtonDisabled("0" + NatToString(n), d) && NavigatePrev("0" + NatToString(n), d) == Stay
  {
    ParseIntLeadingZero(n, false);
  }

  /**
   * On a chapter with consecutively numbered verses, following the next
   * button from a verse that is not the last opens the following verse, and
   * the previous button from a verse that is not the first opens the one
   * before.
   */
  lemma {:induction false} StepsReachNeighbourVerse(surahId: string, ayahNum: string, resp: AyahResponse)
    requires |resp.indonesian.ayahs| == |resp.arabic.ayahs|
    requires forall i :: 0 <= i < |resp.arabic.ayahs| ==> resp.arabic.ayahs[i].numberInSurah == i + 1
    requires LoadAyah(ayahNum, Some(resp)).Ok?
    ensures var d := LoadAyah(ayahNum, Some(resp)).value;
      NavigateNext(surahId, d).ToAyah? ==>
        LoadAyah(NatToString(d.ayahNumber + 1), Some(resp)).Ok? &&
        LoadAyah(NatToString(d.ayahNumber + 1), Some(resp)).value.ayahNumber == d.ayahNumber + 1
    ensures var d := LoadAyah(ayahNum, Some(resp)).value;
      NavigatePrev(surahId, d).ToAyah? ==>
        LoadAyah(NatToString(d.ayahNumber - 1), Some(resp)).Ok? &&
        LoadAyah(NatToString(d.ayahNumber - 1), Some(resp)).value.ayahNumber == d.ayahNumber - 1
  {
    var d := LoadAyah(ayahNum, Some(resp)).value;
    var i := AyahIndex(ayahNum).i;
    assert d.ayahNumber == i + 1;
    if NavigateNext(surahId, d).ToAyah? {
      RouteSelectsVerse(i + 2, resp);
    }
    if NavigatePrev(surahId, d).ToAyah? {
      RouteSelectsVerse(i, resp);
    }
  }
}
