/**
 * The already-parsed shapes of the content provider's responses that the
 * views read. Missing strings are modelled as the empty string and a missing
 * verse number as 0, which is how the `||` fallbacks in the views treat them
 * (both are falsy).
 */
module Content {
  import opened Wrappers

  /** `ayah.surah`: the chapter a verse belongs to. */
  datatype SurahRef = SurahRef(number: int, englishName: string, name: string)

  /** One verse of an edition: its text, number within its chapter, global number and (optional) chapter. */
  datatype ApiVerse = ApiVerse(text: string, numberInSurah: int, number: int, surah: Option<SurahRef>)

  /** `res.data?.ayahs` of a juz or page response: `None` when the body lacks the verse list. */
  type VerseList = Option<seq<ApiVerse>>

  /** One entry of the chapter catalogue `GET /surah`. */
  datatype ApiSurah = ApiSurah(
    number: int, name: string, englishName: string,
    englishNameTranslation: string, revelationType: string, numberOfAyahs: int)
}
