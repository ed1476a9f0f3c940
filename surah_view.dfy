/**
 * The chapter reading view: one plain request for the chapter's verses, the
 * verse list and chapter header derived from it, and the star on each verse
 * toggling a bookmark keyed by the route id and the verse's number within the
 * chapter (a number, not a string).
 */
module SurahView {
  import opened Wrappers
  import opened JsValues
  import opened Content
  import opened Bookmarks
  import opened ChapterLinks

  const LastSurah: int := 114
  const LoadFailed: string := "Gagal memuat data surah. Silakan coba lagi nanti."

  /** The parsed body of `GET /surah/<id>/quran-uthmani`: `data` with its names and verses. */
  datatype SurahResponse = SurahResponse(englishName: string, name: string, revelationType: string, ayahs: seq<ApiVerse>)

  /** One verse as the chapter view keeps it. */
  datatype SurahVerse = SurahVerse(arab: string, number: int, globalAyahNumber: int)

  /** The chapter header. */
  datatype SurahInfo = SurahInfo(name: string, arabName: string, numberOfAyahs: nat, revelationType: string)

  datatype SurahContent = SurahContent(info: SurahInfo, ayahs: seq<SurahVerse>)

  function ToSurahVerse(a: ApiVerse): SurahVerse {
    SurahVerse(a.text, a.numberInSurah, a.number)
  }

  /**
   * `fetchSurah`. `None` stands for every way the request can throw: a
   * failed request, a status that is not ok, or a body without `data.ayahs`.
   * The header counts the verses loaded and the list keeps them in order.
   */
  function LoadSurah(response: Option<SurahResponse>): (r: Result<SurahContent, string>)
    ensures r.Ok? <==> response.Some?
    ensures r.Err? ==> r.error == LoadFailed
    ensures r.Ok? ==> r.value.info.numberOfAyahs == |r.value.ayahs| == |response.value.ayahs|
    ensures r.Ok? ==> forall i :: 0 <= i < |r.value.ayahs| ==>
      r.value.ayahs[i].number == response.value.ayahs[i].numberInSurah
      && r.value.ayahs[i].globalAyahNumber == response.value.ayahs[i].number
      && r.value.ayahs[i].arab == response.value.ayahs[i].text
    ensures r.Ok? ==> r.value.info.name == response.value.englishName && r.value.info.arabName == response.value.name
                      && r.value.info.revelationType == response.value.revelationType
  {
    match response
    case None => Err(LoadFailed)
    case Some(data) =>
      var arabic := data.ayahs;
      var ayahData := seq(|arabic|, i requires 0 <= i < |arabic| => ToSurahVerse(arabic[i]));
      Ok(SurahContent(SurahInfo(data.englishName, data.name, |arabic|, data.revelationType), ayahData))
  }

  /** `b.surah === id && b.ayah === ayahNum`, with `ayahNum` the verse's number. */
  function SurahKey(id: string, ayahNum: int): Key {
    SurahAyah(Str(id), Num(ayahNum))
  }

  /** The record the chapter view pushes: it carries the key and the header's names. */
  function SurahRecord(id: string, ayahNum: int, info: SurahInfo, now: int): (b: Bookmark)
    ensures Matches(b, SurahKey(id, ayahNum))
    ensures b.surahName == Str(info.name) && b.arabName == Str(info.arabName)
    ensures b.juz == Undef && b.globalAyahNumber == Undef
  {
    Bookmark(Str(id), Num(ayahNum), Undef, Undef, Undef, Str(info.name), Str(info.arabName), Undef, Undef, now)
  }

  /** `toggleBookmark(ayahNum)`: toggle, then persist. */
  method ToggleBookmark(store: Store, id: string, ayahNum: int, info: SurahInfo, now: int)
    modifies store
    ensures store.bookmarks == ToggleList(old(store.bookmarks), SurahKey(id, ayahNum), SurahRecord(id, ayahNum, info, now))
    ensures store.stored == Some(store.bookmarks)
  {
    store.Toggle(SurahKey(id, ayahNum), SurahRecord(id, ayahNum, info, now));
  }

  /**
   * A star click flips that verse's star, leaves every other key's records
   * as they were, and a second click on a star that was off restores the
   * list.
   */
  lemma SurahStarToggles(list: seq<Bookmark>, id: string, n: int, info: SurahInfo, now: int, later: int)
    ensures IsBookmarked(ToggleList(list, SurahKey(id, n), SurahRecord(id, n, info, now)), SurahKey(id, n)) == !IsBookmarked(list, SurahKey(id, n))
    ensures RemoveMatching(ToggleList(list, SurahKey(id, n), SurahRecord(id, n, info, now)), SurahKey(id, n)) == RemoveMatching(list, SurahKey(id, n))
    ensures !IsBookmarked(list, SurahKey(id, n)) ==>
      ToggleList(ToggleList(list, SurahKey(id, n), SurahRecord(id, n, info, now)), SurahKey(id, n), SurahRecord(id, n, info, later)) == list
  {
    ToggleFlips(list, SurahKey(id, n), SurahRecord(id, n, info, now));
    ToggleKeepsOthers(list, SurahKey(id, n), SurahRecord(id, n, info, now));
    if !IsBookmarked(list, SurahKey(id, n)) {
      ToggleTwice(list, SurahKey(id, n), SurahRecord(id, n, info, now), SurahRecord(id, n, info, later));
    }
  }

  /**
   * On a chapter whose id parses to 1..114 the previous/next links stay in
   * 1..114, and each is greyed out exactly at its end of the range.
   */
  lemma SurahLinksClamped(id: string, j: int)
    requires ParseInt(id, false) == Int(j) && 1 <= j <= LastSurah
    ensures PrevTarget(id).Int? && 1 <= PrevTarget(id).i <= LastSurah
    ensures NextTarget(id, LastSurah).Int? && 1 <= NextTarget(id, LastSurah).i <= LastSurah
    ensures PrevDisabled(id) <==> j == 1
    ensures NextDisabled(id, LastSurah) <==> j == LastSurah
  {
    LinksClamped(id, j, LastSurah);
  }
}
