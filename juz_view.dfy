/**
 * The juz reading view: the route id is validated against 1..30, the juz's
 * verses are fetched with retries and flattened, and the star on each verse
 * toggles a bookmark keyed by the route id and the verse's global number.
 */
module JuzView {
  import opened Wrappers
  import opened JsValues
  import opened Content
  import opened Retry
  import opened Bookmarks
  import opened ChapterLinks

  const LastJuz: int := 30
  const InvalidJuzId: string := "ID Juz tidak valid"

  /** `parseInt(id)`, rejected when it is `NaN` or outside 1..30. */
  function ValidateJuzId(id: string): (r: Result<int, string>)
    ensures r.Ok? <==> ParseInt(id, false).Int? && 1 <= ParseInt(id, false).i <= LastJuz
    ensures r.Ok? ==> ParseInt(id, false) == Int(r.value)
    ensures r.Err? ==> r.error == InvalidJuzId
  {
    var juzId := ParseInt(id, false);
    if juzId.NaN? || juzId.i < 1 || juzId.i > LastJuz then Err(InvalidJuzId) else Ok(juzId.i)
  }

  /** The route `/juz/<n>` written by a link is accepted exactly when `n` is in 1..30, and names juz `n`. */
  lemma JuzRouteRoundTrip(n: nat)
    ensures ValidateJuzId(NatToString(n)).Ok? <==> 1 <= n <= LastJuz
    ensures ValidateJuzId(NatToString(n)).Ok? ==> ValidateJuzId(NatToString(n)).value == n
  {
    ParseIntOfNatToString(n, false);
  }

  /**
   * `parseInt` stops at the first non-digit, so a route such as `/juz/7abc`
   * opens juz 7: a suffix that does not start with a digit is ignored. (With
   * a leading `0` the suffix may instead start a hexadecimal `0x` number.)
   */
  lemma JuzRouteIgnoresSuffix(n: nat, rest: string)
    requires n >= 1
    requires rest == [] || DigitValue(rest[0], 10) < 0
    ensures ValidateJuzId(NatToString(n) + rest).Ok? <==> n <= LastJuz
    ensures n <= LastJuz ==> ValidateJuzId(NatToString(n) + rest) == Ok(n)
  {
    ParseIntIgnoresTail(n, rest, false);
  }

  /** Following the previous or next link of a valid juz view opens a valid juz view. */
  lemma LinksOpenValidJuz(id: string)
    requires ValidateJuzId(id).Ok?
    ensures PrevTarget(id).Int? && ValidateJuzId(NatToString(PrevTarget(id).i)) == Ok(PrevTarget(id).i)
    ensures NextTarget(id, LastJuz).Int? && ValidateJuzId(NatToString(NextTarget(id, LastJuz).i)) == Ok(NextTarget(id, LastJuz).i)
  {
    LinksClamped(id, ValidateJuzId(id).value, LastJuz);
    JuzRouteRoundTrip(PrevTarget(id).i);
    JuzRouteRoundTrip(NextTarget(id, LastJuz).i);
  }

  /** One verse as the juz view keeps it. */
  datatype JuzVerse = JuzVerse(arab: string, number: int, globalAyahNumber: int, surahNumber: int, surahName: string, surahArabic: string)

  function ToJuzVerse(a: ApiVerse): JuzVerse
    requires a.surah.Some?
  {
    JuzVerse(a.text, a.numberInSurah, a.number, a.surah.value.number, a.surah.value.englishName, a.surah.value.name)
  }

  /** `juzAyahs.map(...)`, which throws as soon as a verse has no chapter to read `surah.number` from. */
  function JuzVerses(verses: seq<ApiVerse>): (r: Option<seq<JuzVerse>>)
    ensures r.Some? <==> forall i :: 0 <= i < |verses| ==> verses[i].surah.Some?
    ensures r.Some? ==> |r.value| == |verses| && forall i :: 0 <= i < |verses| ==> r.value[i] == ToJuzVerse(verses[i])
  {
    if verses == [] then Some([])
    else if verses[0].surah.None? then None
    else
      match JuzVerses(verses[1..])
      case None => None
      case Some(rest) => Some([ToJuzVerse(verses[0])] + rest)
  }

  /**
   * `fetchJuz`: an invalid id is reported without any request; otherwise
   * juz `j` is fetched with retries, and the view shows its verses only when
   * the request returned a body with a verse list whose every verse names
   * its chapter.
   */
  method LoadJuz(id: string, net: int -> nat -> Attempt<VerseList>) returns (r: Result<seq<JuzVerse>, string>, attempts: nat)
    ensures ValidateJuzId(id).Err? ==> r == Err(InvalidJuzId) && attempts == 0
    ensures ValidateJuzId(id).Ok? ==>
      var o := RetryOutcome(net(ValidateJuzId(id).value), DefaultRetries);
      attempts == AttemptsMade(net(ValidateJuzId(id).value), DefaultRetries) &&
      (r.Ok? <==> o.Returned? && o.data.Some? && forall i :: 0 <= i < |o.data.value| ==> o.data.value[i].surah.Some?) &&
      (r.Ok? ==> |r.value| == |o.data.value| && forall i :: 0 <= i < |r.value| ==> r.value[i] == ToJuzVerse(o.data.value[i]))
  {
    var juzId := ValidateJuzId(id);
    if juzId.Err? {
      return Err(InvalidJuzId), 0;
    }
    var res, waits;
    res, attempts, waits := FetchWithRetry(net(juzId.value), DefaultRetries);
    if !(res.Returned? && res.data.Some?) {
      return Err("Gagal memuat Juz: Data Juz tidak valid"), attempts;
    }
    var ayahData := JuzVerses(res.data.value);
    if ayahData.None? {
      return Err("Gagal memuat Juz: surah tidak ada"), attempts;
    }
    r := Ok(ayahData.value);
  }

  /** `b.juz === id && b.globalAyahNumber === ayah.globalAyahNumber`. */
  function JuzKey(id: string, v: JuzVerse): Key {
    JuzAyah(Str(id), Num(v.globalAyahNumber))
  }

  /** The record the juz view pushes: it carries the key, and no `surah` or `ayah` field. */
  function JuzRecord(id: string, v: JuzVerse, now: int): (b: Bookmark)
    ensures Matches(b, JuzKey(id, v))
    ensures b.surah == Undef && b.ayah == Undef
  {
    Bookmark(Undef, Undef, Str(id), Num(v.globalAyahNumber),
             Num(v.surahNumber), Str(v.surahName), Undef, Str(v.surahArabic), Num(v.number), now)
  }

  /** `toggleBookmark(index)` for the verse shown at `index`. */
  method ToggleBookmark(store: Store, id: string, ayahs: seq<JuzVerse>, index: nat, now: int)
    requires index < |ayahs|
    modifies store
    ensures store.bookmarks == ToggleList(old(store.bookmarks), JuzKey(id, ayahs[index]), JuzRecord(id, ayahs[index], now))
    ensures store.stored == Some(store.bookmarks)
  {
    store.Toggle(JuzKey(id, ayahs[index]), JuzRecord(id, ayahs[index], now));
  }

  /**
   * A star click flips that verse's star, leaves every other key's records
   * as they were, and a second click on a star that was off restores the
   * list.
   */
  lemma JuzStarToggles(list: seq<Bookmark>, id: string, v: JuzVerse, now: int, later: int)
    ensures IsBookmarked(ToggleList(list, JuzKey(id, v), JuzRecord(id, v, now)), JuzKey(id, v)) == !IsBookmarked(list, JuzKey(id, v))
    ensures RemoveMatching(ToggleList(list, JuzKey(id, v), JuzRecord(id, v, now)), JuzKey(id, v)) == RemoveMatching(list, JuzKey(id, v))
    ensures !IsBookmarked(list, JuzKey(id, v)) ==>
      ToggleList(ToggleList(list, JuzKey(id, v), JuzRecord(id, v, now)), JuzKey(id, v), JuzRecord(id, v, later)) == list
  {
    ToggleFlips(list, JuzKey(id, v), JuzRecord(id, v, now));
    ToggleKeepsOthers(list, JuzKey(id, v), JuzRecord(id, v, now));
    if !IsBookmarked(list, JuzKey(id, v)) {
      ToggleTwice(list, JuzKey(id, v), JuzRecord(id, v, now), JuzRecord(id, v, later));
    }
  }
}
