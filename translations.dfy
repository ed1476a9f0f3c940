/**
 * On-demand translations in the juz and chapter views: one fetch per
 * language, remembered for the lifetime of the view, and a selected language
 * (or none, meaning original script only). The juz view keys a translation
 * by the verse's position in the juz, the chapter view by its number within
 * the chapter.
 */
module Translations {
  import opened Wrappers
  import opened Retry

  datatype Language = Language(code: string, name: string, edition: string)

  /** The languages offered by the chapter view. */
  const SurahLanguages: seq<Language> := [
    Language("id", "Indonesia", "id.indonesian"),
    Language("en", "English", "en.sahih"),
    Language("fr", "Français", "fr.hamidullah"),
    Language("tr", "Türkçe", "tr.ates"),
    Language("ur", "اردو", "ur.jalandhry")
  ]

  /** The juz view offers the same languages and the original script edition as well. */
  const JuzLanguages: seq<Language> := [Language("ar", "Arab", "quran-uthmani")] + SurahLanguages

  /** `availableLanguages.find(lang => lang.code === code)` finds something. */
  predicate Offers(languages: seq<Language>, code: string) {
    exists i | 0 <= i < |languages| :: languages[i].code == code
  }

  /** One verse of a translation edition as the content provider returns it. */
  datatype TranslatedVerse = TranslatedVerse(numberInSurah: int, text: string)

  /** The juz view's `reduce((acc, ayah, index) => { acc[index] = ayah.text })`. */
  function ByIndex(verses: seq<TranslatedVerse>): (m: map<int, string>)
    ensures forall i :: i in m <==> 0 <= i < |verses|
    ensures forall i :: 0 <= i < |verses| ==> m[i] == verses[i].text
  {
    if verses == [] then map[]
    else ByIndex(verses[..|verses| - 1])[|verses| - 1 := verses[|verses| - 1].text]
  }

  /** The chapter view's `reduce((acc, ayah) => { acc[ayah.numberInSurah] = ayah.text })`: later verses overwrite earlier ones. */
  function ByNumberInSurah(verses: seq<TranslatedVerse>): map<int, string> {
    if verses == [] then map[]
    else ByNumberInSurah(verses[..|verses| - 1])[verses[|verses| - 1].numberInSurah := verses[|verses| - 1].text]
  }

  /**
   * The chapter map has one entry per distinct verse number, and each entry
   * holds the text of the last verse carrying that number.
   */
  lemma {:induction false} ByNumberInSurahSpec(verses: seq<TranslatedVerse>)
    ensures forall k :: k in ByNumberInSurah(verses) <==> exists i :: 0 <= i < |verses| && verses[i].numberInSurah == k
    ensures forall i :: 0 <= i < |verses| && (forall j :: i < j < |verses| ==> verses[j].numberInSurah != verses[i].numberInSurah)
              ==> ByNumberInSurah(verses)[verses[i].numberInSurah] == verses[i].text
  {
    if verses != [] {
      var init := verses[..|verses| - 1];
      ByNumberInSurahSpec(init);
      forall i | 0 <= i < |init| ensures init[i] == verses[i] { }
    }
  }

  /** When verse numbers are distinct, every verse finds its own text under its own number. */
  lemma DistinctNumbersLookUpOwnText(verses: seq<TranslatedVerse>, i: nat)
    requires i < |verses|
    requires forall a, b :: 0 <= a < b < |verses| ==> verses[a].numberInSurah != verses[b].numberInSurah
    ensures verses[i].numberInSurah in ByNumberInSurah(verses)
    ensures ByNumberInSurah(verses)[verses[i].numberInSurah] == verses[i].text
  {
    ByNumberInSurahSpec(verses);
  }

  /** The translation state of a juz or chapter view. */
  class TranslationPanel {
    const languages: seq<Language>
    var translations: map<string, map<int, string>>
    var selected: Option<string>
    var loading: bool

    constructor (languages: seq<Language>)
      ensures this.languages == languages
      ensures translations == map[] && selected == None && !loading
    {
      this.languages := languages;
      translations := map[];
      selected := None;
      loading := false;
    }

    /** Store a fetched translation under its language and select it. */
    method Install(code: string, m: map<int, string>)
      modifies this
      ensures translations == old(translations)[code := m] && selected == Some(code) && !loading
    {
      translations := translations[code := m];
      selected := Some(code);
      loading := false;
    }

    /**
     * The juz view's `fetchTranslation(code)`: a cached language is selected
     * with no request; an unknown one raises and changes nothing; otherwise
     * the edition is fetched with retries and, when it has verses, stored by
     * position and selected. `Some(verses)` is a body with `data.ayahs`.
     */
    method FetchJuzTranslation(code: string, net: nat -> Attempt<Option<seq<TranslatedVerse>>>) returns (attempts: nat)
      modifies this
      ensures !loading
      ensures code in old(translations) ==> attempts == 0 && selected == Some(code) && translations == old(translations)
      ensures code !in old(translations) && !Offers(languages, code) ==>
        attempts == 0 && selected == old(selected) && translations == old(translations)
      ensures code !in old(translations) && Offers(languages, code) ==>
        attempts == AttemptsMade(net, DefaultRetries) &&
        var o := RetryOutcome(net, DefaultRetries);
        if o.Returned? && o.data.Some?
        then translations == old(translations)[code := ByIndex(o.data.value)] && selected == Some(code)
        else translations == old(translations) && selected == old(selected)
    {
      loading := true;
      attempts := 0;
      if code in translations {
        selected := Some(code);
        loading := false;
        return;
      }
      if !Offers(languages, code) {
        loading := false;
        return;
      }
      var res, waits;
      res, attempts, waits := FetchWithRetry(net, DefaultRetries);
      if res.Returned? && res.data.Some? {
        Install(code, ByIndex(res.data.value));
      } else {
        loading := false;
      }
    }

    /**
     * The chapter view's `fetchTranslation(code)`, with a single plain fetch:
     * `response` is `None` when the request fails or its body has no verse
     * list. The translation is stored by verse number within the chapter.
     */
    method FetchSurahTranslation(code: string, response: Option<seq<TranslatedVerse>>) returns (requested: bool)
      modifies this
      ensures !loading
      ensures requested <==> code !in old(translations) && Offers(languages, code)
      ensures code in old(translations) ==> selected == Some(code) && translations == old(translations)
      ensures !requested && code !in old(translations) ==> selected == old(selected) && translations == old(translations)
      ensures requested && response.Some? ==>
        translations == old(translations)[code := ByNumberInSurah(response.value)] && selected == Some(code)
      ensures requested && response.None? ==> translations == old(translations) && selected == old(selected)
    {
      loading := true;
      requested := false;
      if code in translations {
        selected := Some(code);
        loading := false;
        return;
      }
      if !Offers(languages, code) {
        loading := false;
        return;
      }
      requested := true;
      if response.Some? {
        Install(code, ByNumberInSurah(response.value));
      } else {
        loading := false;
      }
    }

    /** The "original script only" button: deselect, keeping every cached translation. */
    method Deselect()
      modifies this
      ensures selected == None && translations == old(translations) && loading == old(loading)
    {
      selected := None;
    }

    /**
     * The per-verse translate button of the juz view: with a language
     * selected it deselects; otherwise it asks for the Indonesian translation.
     */
    method ToggleJuzTranslation(net: nat -> Attempt<Option<seq<TranslatedVerse>>>) returns (attempts: nat)
      modifies this
      ensures old(selected).Some? ==>
        selected == None && translations == old(translations) && attempts == 0 && loading == old(loading)
      ensures old(selected).None? ==> !loading
      ensures old(selected).None? && "id" in old(translations) ==>
        attempts == 0 && selected == Some("id") && translations == old(translations)
      ensures old(selected).None? && "id" !in old(translations) && !Offers(languages, "id") ==>
        attempts == 0 && selected == None && translations == old(translations)
      ensures old(selected).None? && "id" !in old(translations) && Offers(languages, "id") ==>
        attempts == AttemptsMade(net, DefaultRetries) &&
        var o := RetryOutcome(net, DefaultRetries);
        if o.Returned? && o.data.Some?
        then translations == old(translations)["id" := ByIndex(o.data.value)] && selected == Some("id")
        else translations == old(translations) && selected == None
    {
      if selected.Some? {
        Deselect();
        attempts := 0;
      } else {
        attempts := FetchJuzTranslation("id", net);
      }
    }

    /** The per-verse translate button of the chapter view. */
    method ToggleSurahTranslation(response: Option<seq<TranslatedVerse>>) returns (requested: bool)
      modifies this
      ensures old(selected).Some? ==>
        selected == None && translations == old(translations) && !requested && loading == old(loading)
      ensures old(selected).None? ==> !loading && (requested <==> "id" !in old(translations) && Offers(languages, "id"))
      ensures old(selected).None? && "id" in old(translations) ==> selected == Some("id") && translations == old(translations)
      ensures old(selected).None? && !requested && "id" !in old(translations) ==>
        selected == None && translations == old(translations)
      ensures old(selected).None? && requested && response.Some? ==>
        translations == old(translations)["id" := ByNumberInSurah(response.value)] && selected == Some("id")
      ensures old(selected).None? && requested && response.None? ==> translations == old(translations) && selected == None
    {
      if selected.Some? {
        Deselect();
        requested := false;
      } else {
        requested := FetchSurahTranslation("id", response);
      }
    }

    /** The text a verse shows under key `key` (its position in a juz, its number in a chapter). */
    function TextFor(key: int): (t: Option<string>)
      reads this
      ensures t.Some? <==> selected.Some? && selected.value in translations && key in translations[selected.value]
    {
      if selected.Some? && selected.value in translations && key in translations[selected.value]
      then Some(translations[selected.value][key])
      else None
    }
  }

  /** After the juz view installs a translation, the verse at position `i` shows the `i`-th translated verse. */
  lemma JuzVerseShowsItsTranslation(p: TranslationPanel, code: string, verses: seq<TranslatedVerse>, i: nat)
    requires p.selected == Some(code) && code in p.translations && p.translations[code] == ByIndex(verses)
    requires i < |verses|
    ensures p.TextFor(i) == Some(verses[i].text)
  {
  }

  /** After the chapter view installs a translation with distinct verse numbers, each verse number shows its own text. */
  lemma SurahVerseShowsItsTranslation(p: TranslationPanel, code: string, verses: seq<TranslatedVerse>, i: nat)
    requires p.selected == Some(code) && code in p.translations && p.translations[code] == ByNumberInSurah(verses)
    requires i < |verses|
    requires forall a, b :: 0 <= a < b < |verses| ==> verses[a].numberInSurah != verses[b].numberInSurah
    ensures p.TextFor(verses[i].numberInSurah) == Some(verses[i].text)
  {
    DistinctNumbersLookUpOwnText(verses, i);
  }

  /** With no language selected no verse shows a translation. */
  lemma DeselectedShowsNothing(p: TranslationPanel, key: int)
    requires p.selected.None?
    ensures p.TextFor(key).None?
  {
  }
}
