/**
 * The transform shared by the juz index, the page index and the home view:
 * the i-th response of a batch becomes entry number `base + i`, responses
 * without a verse list are dropped, and missing chapter names or first-verse
 * numbers fall back to defaults. The three views name the entry's number
 * field differently (`juz`, `page`, `number`) and the home view also keeps
 * the verse array; the model has one entry shape for all of them.
 */
module IndexAssembly {
  import opened Wrappers
  import opened Content

  /** Fallback Latin name on the index pages (Indonesian) and the home view (English). */
  const UnknownIndonesian: string := "Tidak Diketahui"
  const UnknownEnglish: string := "Unknown"
  /** Fallback Arabic name, shared by all three views. */
  const UnknownArabic: string := "غير معروف"

  /**
   * One entry of an index: its number (juz or page), the chapter named by
   * its first verse, that verse's number within its chapter, and the verse
   * count. The juz index shows `totalAyahs`, the page index `firstAyahNumber`.
   */
  datatype Summary = Summary(number: int, surahName: string, surahArabic: string, firstAyahNumber: int, totalAyahs: nat)

  /** `ayahs[0]?.surah?.englishName || unknown` and its siblings. */
  function Summarize(number: int, verses: seq<ApiVerse>, unknownLatin: string): (e: Summary)
    ensures e.number == number && e.totalAyahs == |verses|
    ensures e.surahName == if verses != [] && verses[0].surah.Some? && verses[0].surah.value.englishName != ""
                           then verses[0].surah.value.englishName else unknownLatin
    ensures e.surahArabic == if verses != [] && verses[0].surah.Some? && verses[0].surah.value.name != ""
                             then verses[0].surah.value.name else UnknownArabic
    ensures e.firstAyahNumber == if verses != [] && verses[0].numberInSurah != 0 then verses[0].numberInSurah else 1
  {
    var first: Option<ApiVerse> := if verses == [] then None else Some(verses[0]);
    var surah: Option<SurahRef> := if first.Some? then first.value.surah else None;
    var latin := if surah.Some? then surah.value.englishName else "";
    var arabic := if surah.Some? then surah.value.name else "";
    var ayah := if first.Some? then first.value.numberInSurah else 0;
    Summary(number,
            if latin != "" then latin else unknownLatin,
            if arabic != "" then arabic else UnknownArabic,
            if ayah != 0 then ayah else 1,
            |verses|)
  }

  /** `responses.map((r, index) => r.data?.ayahs ? summary(base + index) : null).filter(x => x !== null)`. */
  function Assemble(base: int, responses: seq<VerseList>, unknownLatin: string): seq<Summary>
    decreases |responses|
  {
    if responses == [] then []
    else
      (if responses[0].Some? then [Summarize(base, responses[0].value, unknownLatin)] else [])
      + Assemble(base + 1, responses[1..], unknownLatin)
  }

  /** The number of responses that carry a verse list. */
  function CountValid(responses: seq<VerseList>): nat {
    if responses == [] then 0 else (if responses[0].Some? then 1 else 0) + CountValid(responses[1..])
  }

  predicate StrictlyIncreasing(s: seq<Summary>) {
    forall i, j :: 0 <= i < j < |s| ==> s[i].number < s[j].number
  }

  /**
   * Assembly keeps one entry per valid response, numbered by the response's
   * position: numbers lie in `[base, base + |responses|)` and strictly
   * increase, every entry is the summary of a valid response at its own
   * position, and every valid response has its entry.
   */
  lemma AssembleSpec(base: int, responses: seq<VerseList>, unknownLatin: string)
    ensures |Assemble(base, responses, unknownLatin)| == CountValid(responses)
    ensures StrictlyIncreasing(Assemble(base, responses, unknownLatin))
    ensures forall e :: e in Assemble(base, responses, unknownLatin) ==>
      base <= e.number < base + |responses|
      && responses[e.number - base].Some?
      && e == Summarize(e.number, responses[e.number - base].value, unknownLatin)
    ensures forall i :: 0 <= i < |responses| && responses[i].Some? ==>
      Summarize(base + i, responses[i].value, unknownLatin) in Assemble(base, responses, unknownLatin)
  {
    AssembleCount(base, responses, unknownLatin);
    AssembleSound(base, responses, unknownLatin);
    AssembleIncreasing(base, responses, unknownLatin);
    AssembleComplete(base, responses, unknownLatin);
  }

  lemma {:induction false} AssembleCount(base: int, responses: seq<VerseList>, unknownLatin: string)
    ensures |Assemble(base, responses, unknownLatin)| == CountValid(responses)
    decreases |responses|
  {
    if responses != [] { AssembleCount(base + 1, responses[1..], unknownLatin); }
  }

  lemma {:induction false} AssembleSound(base: int, responses: seq<VerseList>, unknownLatin: string)
    ensures forall e :: e in Assemble(base, responses, unknownLatin) ==>
      base <= e.number < base + |responses|
      && responses[e.number - base].Some?
      && e == Summarize(e.number, responses[e.number - base].value, unknownLatin)
    decreases |responses|
  {
    if responses != [] {
      var tail := responses[1..];
      AssembleSound(base + 1, tail, unknownLatin);
      var rest := Assemble(base + 1, tail, unknownLatin);
      forall e | e in rest
        ensures base <= e.number < base + |responses| && responses[e.number - base].Some?
        ensures e == Summarize(e.number, responses[e.number - base].value, unknownLatin)
      {
        assert responses[e.number - base] == tail[e.number - (base + 1)];
      }
    }
  }

  lemma {:induction false} AssembleNumbersFrom(base: int, responses: seq<VerseList>, unknownLatin: string)
    ensures forall i :: 0 <= i < |Assemble(base, responses, unknownLatin)| ==> Assemble(base, responses, unknownLatin)[i].number >= base
    decreases |responses|
  {
    if responses != [] { AssembleNumbersFrom(base + 1, responses[1..], unknownLatin); }
  }

  lemma {:induction false} AssembleIncreasing(base: int, responses: seq<VerseList>, unknownLatin: string)
    ensures StrictlyIncreasing(Assemble(base, responses, unknownLatin))
    decreases |responses|
  {
    if responses != [] {
      var tail := responses[1..];
      AssembleIncreasing(base + 1, tail, unknownLatin);
      AssembleNumbersFrom(base + 1, tail, unknownLatin);
      var rest := Assemble(base + 1, tail, unknownLatin);
      if responses[0].Some? {
        var all := [Summarize(base, responses[0].value, unknownLatin)] + rest;
        assert Assemble(base, responses, unknownLatin) == all;
        forall i, j | 0 <= i < j < |all| ensures all[i].number < all[j].number {
          assert all[j] == rest[j - 1];
          if i > 0 { assert all[i] == rest[i - 1]; }
        }
      } else {
        assert Assemble(base, responses, unknownLatin) == rest;
      }
    }
  }

  lemma {:induction false} AssembleComplete(base: int, responses: seq<VerseList>, unknownLatin: string)
    ensures forall i :: 0 <= i < |responses| && responses[i].Some? ==>
      Summarize(base + i, responses[i].value, unknownLatin) in Assemble(base, responses, unknownLatin)
    decreases |responses|
  {
    if responses != [] {
      var tail := responses[1..];
      AssembleComplete(base + 1, tail, unknownLatin);
      var head := if responses[0].Some? then [Summarize(base, responses[0].value, unknownLatin)] else [];
      var rest := Assemble(base + 1, tail, unknownLatin);
      assert Assemble(base, responses, unknownLatin) == head + rest;
      forall i | 0 <= i < |responses| && responses[i].Some?
        ensures Summarize(base + i, responses[i].value, unknownLatin) in head + rest
      {
        if i > 0 {
          assert tail[i - 1] == responses[i];
          assert Summarize(base + 1 + (i - 1), tail[i - 1].value, unknownLatin) in rest;
        } else {
          assert head[0] == Summarize(base + i, responses[i].value, unknownLatin);
        }
      }
    }
  }

  /** Assembling two consecutive batches is assembling their concatenation. */
  lemma {:induction false} AssembleAppend(base: int, a: seq<VerseList>, b: seq<VerseList>, unknownLatin: string)
    ensures Assemble(base, a + b, unknownLatin) == Assemble(base, a, unknownLatin) + Assemble(base + |a|, b, unknownLatin)
    decreases |a|
  {
    if a == [] {
      assert a + b == b;
    } else {
      assert (a + b)[0] == a[0];
      assert (a + b)[1..] == a[1..] + b;
      AssembleAppend(base + 1, a[1..], b, unknownLatin);
    }
  }
}
