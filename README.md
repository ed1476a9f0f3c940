# Al-Kalam reading views, modelled in Dafny

This project models the logic of the Al-Kalam Quran reader, a React
application. The markup, `fetch` calls and audio elements are abstracted
away. What remains is modelled:

- **Bookmark list.** It is shared by every reading view under one storage
  key. Views toggle records by a composite key and compare fields with
  strict `===`. The bookmark page lists records newest first, removes them by
  chapter/verse and clears them all.
- **Play-all machine.** The juz and chapter views share it. Its state is a
  current verse index (or none) and a playing flag.
- **Bounded retry loop** (`fetchWithRetry`, three attempts, a one-second
  pause after each failed attempt but the last).
- **Index loading.** The juz index, the page index and the home view fetch
  groups of ids awaited together (with `Promise.all`). They number the valid
  responses by position, drop malformed ones, and fill in fallback names.
  The page index does this in fixed batches of 50 over pages 1..604.
- **Route handling.** This covers `parseInt` of route ids, the juz id range
  check, the verse index check, and the previous/next links and buttons with
  their clamping and chapter rollover.
- **Translation memo.** Each language is fetched once per view and then only
  selected or deselected.
- **Chapter search** on the home view.

Modules follow the source: one per page component (`JuzView`, `SurahView`,
`AyahView`, `BookmarkListView`, `PageListView`, `JuzListView`, `HomeView`).
Shared modules hold logic that several pages repeat, apart from message text and field names:

- `Retry`, `IndexAssembly` and `IndexFetch`;
- `Bookmarks`, the list operations and the `Store` class holding the view's
  copy and the persisted copy;
- `Playback`, `Translations` and `ChapterLinks`;
- `JsValues`, the JavaScript value semantics the pages rely on: `Val` for
  record fields, `parseInt` as `JsNumber`, `Math.max`/`Math.min` with `NaN`,
  and ASCII lower-casing.

State that the source updates step by step is modelled as classes whose
methods are proved against specification functions:

- `Store`, `BookmarkListPage`, `Player`, `TranslationPanel` and `HomePage`;
- the retry loop, the batch loop and the 13-iteration page loop.

Derivations are functions with lemmas.

The network is an input. `net(i)` is the outcome of the i-th attempt
(request, status check and JSON parse together). For batched loads,
`net(id)(i)` is the i-th attempt for that id. The chapter and verse views
make one plain request, so their parsed response (or `None` when it throws)
is the input. A bookmark's ISO date is modelled as the instant it denotes (an
`int`), and the clock is a parameter `now`.

Some behaviour of the code is easy to get wrong, and the model follows the
code:

- **The chapter view does not check its id.** It requests whatever the route
  holds. Only the juz view checks 1..30 before requesting
  (`src/pages/Juz.jsx:43-48`).
- **A failed audio start only clears the playing flag.** The index stays set
  and the playback is not reset (`src/pages/Juz.jsx:160-163`).
- **More than an out-of-range index fails in the verse view.** It also fails
  on a verse number that does not parse. `NaN` passes the explicit range test,
  and then reading the verse throws. It also fails on an Indonesian edition
  shorter than the Arabic one (`src/pages/Ayah.jsx:27-33`). Every throw shows
  the same message.
- **Stars are not shared between views.** The chapter view stores the verse
  number as a number, and the verse view stores it as the route string. A
  star set in one view is invisible in the other.
- **Deleting one juz-made bookmark deletes them all.** Records from the juz
  view have no `surah` or `ayah` field. The delete button on one of them
  therefore removes every record the juz view wrote.
- **The disabled tests compare route strings.** At `/ayah/01/1` the previous
  button is enabled but does nothing.
- **The juz translation asks for the raw route id.** The verses are requested with the parsed juz number (`src/pages/Juz.jsx:52`), but the translation with the route string as written (`src/pages/Juz.jsx:89`). So `/juz/7abc` shows juz 7 but requests the translation of `7abc`. The model passes each request's outcome in as `net` and does not model the URL.
- **A failed request is not retried at the group level.** Any failure
  abandons the whole index load, and a page batch that failed is not followed
  by a pause.

## Model

| member | source | states |
|---|---|---|
| JsValues.NatToString | src/pages/Juz.jsx:458 | the decimal spelling written into a route is non-empty, all digits, and has no leading zero |
| JsValues.ParseIntOfNatToString | src/pages/Juz.jsx:43 | `parseInt` reads the decimal spelling of every natural number back as that number, with or without radix 10 |
| JsValues.ParseIntIgnoresTail | src/pages/Juz.jsx:43 | `parseInt` of a positive number's spelling followed by anything not starting with a digit is that number |
| JsValues.ParseIntLeadingZero | src/pages/Ayah.jsx:96 | a `0` in front of a decimal spelling does not change what `parseInt` reads |
| JsValues.MaxJs | src/pages/Juz.jsx:458 | `Math.max(a, b)` is `NaN` exactly when `b` is; otherwise it is the larger of the two |
| JsValues.MinJs | src/pages/Juz.jsx:496 | `Math.min(a, b)` is `NaN` exactly when `b` is; otherwise it is the smaller of the two |
| JsValues.Lower | src/pages/Home.jsx:97 | lower-casing keeps the length and maps each character through ASCII case folding |
| JsValues.IncludesEmpty | src/pages/Home.jsx:97-98 | every string includes the empty query |
| Bookmarks.RemoveMatching | src/pages/BookmarkList.jsx:17 | the filtered list is never longer than the input |
| Bookmarks.RemoveMatchingSpec | src/pages/BookmarkList.jsx:16-19 | removal keeps every non-matching record with its multiplicity and in order (a subsequence), and leaves no match |
| Bookmarks.RemoveAbsent | src/pages/BookmarkList.jsx:17 | removing a key that no record has leaves the list unchanged |
| Bookmarks.RemoveIdempotent | src/pages/BookmarkList.jsx:17 | removing the same key twice is removing it once |
| Bookmarks.RemoveAppend | src/pages/Juz.jsx:117-119 | removal distributes over concatenation |
| Bookmarks.ToggleFlips | src/pages/Juz.jsx:109-134 | with a record carrying the key, a toggle flips whether the key is bookmarked |
| Bookmarks.ToggleWhenPresent | src/pages/Juz.jsx:116-119 | a present key: every match goes, the list gets shorter, other records keep their counts and order |
| Bookmarks.ToggleWhenAbsent | src/pages/Juz.jsx:120-130 | an absent key: exactly the new record is appended at the end, the prefix is the old list |
| Bookmarks.ToggleKeepsOthers | src/pages/Juz.jsx:111-130 | records under other keys form the same sequence before and after a toggle |
| Bookmarks.ToggleTwice | src/pages/Juz.jsx:109-130 | toggling an absent key twice gives back the original list |
| Bookmarks.InsertByDate | src/pages/BookmarkList.jsx:11 | insertion adds exactly the one record (multiset and length) |
| Bookmarks.SortByDateDesc | src/pages/BookmarkList.jsx:11 | the sort is a permutation of its input |
| Bookmarks.InsertKeepsSorted | src/pages/BookmarkList.jsx:11 | inserting into a newest-first list keeps it newest first, and the new head is the record or the old head |
| Bookmarks.InsertWithDate | src/pages/BookmarkList.jsx:11 | insertion puts the record ahead of every record with the same date (stability) |
| Bookmarks.SortByDateDescSpec | src/pages/BookmarkList.jsx:11 | the sorted list is newest first and a permutation, and records with equal dates keep their stored order |
| Bookmarks.StoredOrEmpty | src/pages/BookmarkList.jsx:10 | nothing stored reads as the empty list, anything stored as itself |
| Bookmarks.Store.constructor | src/pages/Juz.jsx:9 | a view's list starts as the stored list, or empty |
| Bookmarks.Store.Toggle | src/pages/Surah.jsx:100-116 | the new list is the toggle of the old one, and the persisted copy equals it |
| BookmarkListView.BookmarkListPage.constructor | src/pages/BookmarkList.jsx:5-7 | the page mounts with an empty list, the spinner on and the dialog closed |
| BookmarkListView.BookmarkListPage.Load | src/pages/BookmarkList.jsx:9-14 | the list becomes the stored list (empty if none) sorted newest first, and the spinner stops |
| BookmarkListView.BookmarkListPage.RemoveBookmark | src/pages/BookmarkList.jsx:16-20 | the list loses exactly the records whose `surah` and `ayah` are strictly equal to the arguments, and is persisted |
| BookmarkListView.BookmarkListPage.OpenDeleteModal | src/pages/BookmarkList.jsx:58 | the dialog opens and nothing else changes |
| BookmarkListView.BookmarkListPage.CancelDelete | src/pages/BookmarkList.jsx:154 | the dialog closes and nothing else changes |
| BookmarkListView.BookmarkListPage.ClearAll | src/pages/BookmarkList.jsx:22-26 | both copies are empty, the dialog is closed, and the empty state shows with no "delete all" button |
| BookmarkListView.EmptyStateXorClearAll | src/pages/BookmarkList.jsx:56-68 | exactly one of the empty state and the "delete all" button is shown |
| BookmarkListView.LoadNothingStored | src/pages/BookmarkList.jsx:10 | with nothing stored the loaded list is empty |
| BookmarkListView.LoadedListIsSortedPermutation | src/pages/BookmarkList.jsx:10-11 | the loaded list is a newest-first permutation of the stored one |
| BookmarkListView.DeleteRowRemovesIt | src/pages/BookmarkList.jsx:128 | a row's delete button always removes that row's own record |
| BookmarkListView.DeletingJuzRowRemovesAllJuzRows | src/pages/BookmarkList.jsx:17 | deleting one record without `surah`/`ayah` removes every such record |
| Playback.TogglePlayAllSpec | src/pages/Juz.jsx:136-144 | play-all stops when playing and otherwise starts at verse 0; pressed twice from stopped it stops again |
| Playback.EndedStaysInRange | src/pages/Juz.jsx:165-172 | "ended" advances the index by one while a next verse exists, and otherwise stops with no index; it never leaves the verse range |
| Playback.EventsKeepIndexInRange | src/pages/Surah.jsx:118-153 | every event keeps a present index below the verse count (play-all only with at least one verse; the verse button for a loaded verse) |
| Playback.PlayAllOnEmptyLeavesRange | src/pages/Surah.jsx:123 | with no verses loaded, play-all sets an index that names no verse |
| Playback.PressVerseSpec | src/pages/Juz.jsx:334-342 | the verse button stops its own verse if it is playing, otherwise plays it, and no other verse is playing after the press |
| Playback.PlayFailedStops | src/pages/Juz.jsx:160-163 | a failed start clears the playing flag, keeps the index, and no verse is shown as playing |
| Playback.PlayAllVisitsEveryVerse | src/pages/Surah.jsx:146-153 | from play-all, after k "ended" events verse k is playing, and after the last one the machine is stopped |
| Playback.Player.constructor | src/pages/Surah.jsx:11-12 | a view mounts stopped, with no index |
| Playback.Player.ClickPlayAll | src/pages/Surah.jsx:118-126 | the fields move as the play-all transition says |
| Playback.Player.ClickVersePlay | src/pages/Surah.jsx:307-315 | the fields move as the verse-button transition says |
| Playback.Player.AudioEnded | src/pages/Surah.jsx:146-153 | the fields move as the "ended" transition says |
| Playback.Player.AudioPlayFailed | src/pages/Surah.jsx:141-144 | the fields move as the "play failed" transition says |
| Retry.FirstSuccess | src/pages/Juz.jsx:28-32 | the first successful attempt in a range: all before it failed, and it succeeded unless it is the bound |
| Retry.FetchWithRetry | src/pages/Juz.jsx:27-39 | the loop settles as the retry outcome says, making the stated number of attempts and pauses |
| Retry.RetryContract | src/pages/Juz.jsx:27-39 | at most `retries` attempts; returns iff some attempt succeeds, with the first success's data; rethrows the last error only when all failed; one pause fewer than attempts |
| Retry.AlwaysFailing | src/pages/Home.jsx:15-27 | a target that always fails is tried exactly `retries` times with `retries - 1` pauses, and its last error is rethrown |
| Retry.TwoFailuresThenSuccess | src/pages/PageList.jsx:9-21 | two failures then a success return the third attempt's data after three attempts and two pauses |
| Retry.Range | src/pages/JuzList.jsx:28-30 | the ids requested are `from, from+1, ...` in order, `count` of them |
| Retry.BatchOutcomes | src/pages/JuzList.jsx:27-32 | the i-th request of a group settles as the retry loop does for id `from + i` |
| Retry.Payloads | src/pages/JuzList.jsx:32 | a group that resolved yields each request's data in order |
| Retry.FetchBatch | src/pages/JuzList.jsx:27-32 | the group requests ids `from..from+count-1` in order and collects how each settles |
| Retry.RangeAppend | src/pages/PageList.jsx:33-38 | two consecutive id ranges form one range |
| Retry.BatchOutcomesAppend | src/pages/PageList.jsx:33-40 | the outcomes of a long range are those of its two parts, concatenated |
| Retry.PayloadsAppend | src/pages/PageList.jsx:40-54 | two resolved groups together resolve, with the payloads concatenated |
| Retry.FailureSpoilsEnclosingBatch | src/pages/PageList.jsx:40 | a request that did not return keeps any enclosing group from resolving |
| IndexAssembly.Summarize | src/pages/PageList.jsx:46-51 | an entry carries its number and verse count; names fall back when the first verse or its chapter or name is missing, the first verse number falls back to 1 |
| IndexAssembly.AssembleSpec | src/pages/JuzList.jsx:33-44 | one entry per valid response, numbered `base + position`, strictly increasing and within range; each entry summarises its own response; every valid response has its entry |
| IndexAssembly.AssembleCount | src/pages/JuzList.jsx:44 | the number of entries is the number of valid responses |
| IndexAssembly.AssembleSound | src/pages/PageList.jsx:41-52 | every entry is the summary of a valid response at the position its number names |
| IndexAssembly.AssembleIncreasing | src/pages/PageList.jsx:41-54 | entry numbers strictly increase |
| IndexAssembly.AssembleComplete | src/pages/Home.jsx:49-61 | every valid response has its entry |
| IndexAssembly.AssembleAppend | src/pages/PageList.jsx:54 | assembling two consecutive batches is assembling their concatenation |
| IndexFetch.IndexOutcome | src/pages/Home.jsx:44-62 | a group yields a list iff every request returned, and the list is the assembly of the payloads |
| IndexFetch.FetchIndex | src/pages/Home.jsx:44-62 | the group requests its ids in order and yields the group's outcome |
| PageListView.BatchesPartitionPages | src/pages/PageList.jsx:29-38 | batches start at 1, 51, ..., 601, hold 1..50 pages, are contiguous and end at 604; there are 13; every page lies in exactly one; a pause follows all but the last |
| PageListView.AssembleNextBatch | src/pages/PageList.jsx:41-54 | the summaries of pages 1..done followed by the next batch's are the summaries of pages 1..done+count |
| PageListView.ExtendLoad | src/pages/PageList.jsx:34-54 | one loop run extends the requested pages and the list to 1..done+count, and the load carries on iff all of those returned |
| PageListView.FetchAllPages | src/pages/PageList.jsx:26-66 | it succeeds iff every page of 1..604 returned, with the summaries in page order, 13 batches of at most 50 and 12 pauses; the k-th batch requested has exactly the size of batch k of the partition; on failure pages 1..m were requested and no pause follows the failed batch |
| JuzListView.FetchAllJuz | src/pages/JuzList.jsx:24-51 | juz 1..30 are requested in order; the list is set iff all returned and is their assembly |
| JuzListView.JuzIndexEntries | src/pages/JuzList.jsx:33-44 | entries are numbered by juz within 1..30, strictly increasing, with `totalAyahs` the length of that juz's verse list, and every valid juz is present |
| HomeView.MapSurahList | src/pages/Home.jsx:34-41 | the list has one row per catalogue entry, in order, with the fields renamed |
| HomeView.UnmapSurahList | src/pages/Home.jsx:34-41 | the reverse renaming, row by row |
| HomeView.SurahListRoundTrip | src/pages/Home.jsx:34-41 | the catalogue can be read back from the list, so the mapping loses nothing and keeps order |
| HomeView.FilterSurahs | src/pages/Home.jsx:95-99 | the search result is never longer than the list |
| HomeView.FilterSurahsSpec | src/pages/Home.jsx:95-99 | the search keeps exactly the matching rows, each as often as it occurs, as an order-preserving subsequence; a row is shown iff it is listed and matches |
| HomeView.EmptySearchKeepsAll | src/pages/Home.jsx:95-99 | an empty query shows every chapter |
| HomeView.HomePage.constructor | src/pages/Home.jsx:8-13 | the view mounts with empty lists, an empty query, the spinner on and no error |
| HomeView.HomePage.Visible | src/pages/Home.jsx:95-99 | the chapters on screen are a subsequence of the loaded list |
| HomeView.HomePage.SetSearch | src/pages/Home.jsx:143 | typing sets the query and nothing else |
| HomeView.HomePage.FetchData | src/pages/Home.jsx:29-93 | catalogue, then juz 1..30, then pages 1..12: each list is set iff its step and all before it succeeded; the first failure sets the error and later requests are never made |
| HomeView.HomePage.FetchIndexes | src/pages/Home.jsx:44-82 | juz 1..30 then pages 1..12, with the English fallback names; a failed group sets the error and stops |
| ChapterLinks.LinksClamped | src/pages/Juz.jsx:458-500 | for an id parsing to 1..last both links stay in 1..last, each is disabled exactly when it would lead to the same id, and an enabled link steps by one |
| ChapterLinks.NonNumericIdLinks | src/pages/Juz.jsx:458-462 | a non-numeric id makes both targets `NaN` and leaves both links enabled |
| JuzView.ValidateJuzId | src/pages/Juz.jsx:43-48 | the id is accepted iff it parses to a number in 1..30, and the error is "ID Juz tidak valid" otherwise |
| JuzView.JuzRouteRoundTrip | src/pages/Juz.jsx:43-48 | the route `/juz/<n>` is accepted exactly for n in 1..30 and names juz n |
| JuzView.JuzRouteIgnoresSuffix | src/pages/Juz.jsx:43 | a suffix not starting with a digit is ignored, so `/juz/7abc` opens juz 7 |
| JuzView.LinksOpenValidJuz | src/pages/Juz.jsx:458-500 | from a valid juz view, both links open a valid juz view and name the target juz |
| JuzView.JuzVerses | src/pages/Juz.jsx:55-63 | the verses map one to one and in order, and mapping fails iff some verse has no chapter |
| JuzView.LoadJuz | src/pages/Juz.jsx:42-72 | an invalid id fails with no request; otherwise the juz's verses are shown iff the retried request returned a verse list whose every verse names its chapter, mapped in order |
| JuzView.JuzRecord | src/pages/Juz.jsx:121-129 | the pushed record carries the juz key and has no `surah` or `ayah` |
| JuzView.ToggleBookmark | src/pages/Juz.jsx:109-134 | the stored list is toggled with the verse's juz key and record, and persisted |
| JuzView.JuzStarToggles | src/pages/Juz.jsx:109-134 | a click flips the verse's star, keeps other keys' records, and two clicks from off restore the list |
| SurahView.LoadSurah | src/pages/Surah.jsx:28-61 | the view loads iff the request did not throw; the header counts the verses loaded, and verses and names come over field by field in order |
| SurahView.SurahRecord | src/pages/Surah.jsx:106-112 | the pushed record carries the chapter key (verse as a number) and the header's names |
| SurahView.ToggleBookmark | src/pages/Surah.jsx:100-116 | the stored list is toggled with the verse's chapter key and record, and persisted |
| SurahView.SurahStarToggles | src/pages/Surah.jsx:100-116 | a click flips the verse's star, keeps other keys' records, and two clicks from off restore the list |
| SurahView.SurahLinksClamped | src/pages/Surah.jsx:384-406 | for a chapter id in 1..114 the links stay in 1..114, each disabled exactly at its end |
| AyahView.LoadAyah | src/pages/Ayah.jsx:24-45 | the verse loads iff the response exists and `parseInt(ayahNum, 10) - 1` selects a verse of both editions; fields come from the selected verse and `totalAyahs` is the verse count |
| AyahView.RouteSelectsVerse | src/pages/Ayah.jsx:27-33 | the route written for verse n loads the verse at position n |
| AyahView.AyahRecord | src/pages/Ayah.jsx:81-87 | the pushed record carries the two route strings as key, and the chapter names |
| AyahView.ToggleBookmark | src/pages/Ayah.jsx:76-91 | the stored list is toggled with the route-string key and record, and persisted |
| AyahView.AyahStarToggles | src/pages/Ayah.jsx:74-91 | a click flips the star and keeps other keys' records |
| AyahView.ViewsDoNotShareStars | src/pages/Ayah.jsx:74 | a record from the chapter view never matches the verse view's key and vice versa, so a toggle in one leaves the other's star as it was |
| AyahView.OtherKeyUnaffected | src/pages/Ayah.jsx:76-88 | a toggle leaves a second key's star alone when no record can match both |
| AyahView.ChapterPrevLink | src/pages/Ayah.jsx:238-251 | the previous-chapter link is live iff the id parses above 1, and then points one chapter back (at least 1) |
| AyahView.ChapterNextLink | src/pages/Ayah.jsx:253-267 | the next-chapter link is live iff the id parses below 114, and then points one chapter on (at most 114) |
| AyahView.PrevFollowsChapterLink | src/pages/Ayah.jsx:93-99 | previous steps back one verse, or from the first verse goes where the previous-chapter link points, or nowhere |
| AyahView.NextFollowsChapterLink | src/pages/Ayah.jsx:101-107 | next steps on one verse, or from the last verse goes where the next-chapter link points, or nowhere |
| AyahView.PrevDisabledStays | src/pages/Ayah.jsx:206-208 | a disabled previous button would do nothing |
| AyahView.NextDisabledStays | src/pages/Ayah.jsx:220-222 | a disabled next button would do nothing |
| AyahView.EnabledButtonMayStay | src/pages/Ayah.jsx:208 | at `/ayah/01/1` (or `/ayah/00/1`), verse 1, the previous button is enabled yet does nothing |
| AyahView.StepsReachNeighbourVerse | src/pages/Ayah.jsx:93-107 | on consecutively numbered verses, a step within the chapter loads the neighbouring verse |
| Translations.ByIndex | src/pages/Juz.jsx:92-95 | the juz translation map has exactly the keys 0..n-1, and key i holds the i-th text |
| Translations.ByNumberInSurahSpec | src/pages/Surah.jsx:82-85 | the chapter map has a key iff some verse has that number, holding the last such verse's text |
| Translations.DistinctNumbersLookUpOwnText | src/pages/Surah.jsx:82-85 | with distinct verse numbers each verse finds its own text |
| Translations.TranslationPanel.constructor | src/pages/Juz.jsx:12-14 | nothing cached, nothing selected, not loading |
| Translations.TranslationPanel.Install | src/pages/Juz.jsx:97-102 | the fetched map is cached under its code and selected |
| Translations.TranslationPanel.FetchJuzTranslation | src/pages/Juz.jsx:77-107 | a cached language is selected with no request; an unknown one changes nothing; otherwise the retried fetch caches and selects the map by position, or changes nothing when it fails |
| Translations.TranslationPanel.FetchSurahTranslation | src/pages/Surah.jsx:63-98 | as in the juz view with one plain request, and keyed by verse number |
| Translations.TranslationPanel.Deselect | src/pages/Surah.jsx:245 | selection is cleared and every cached translation is kept |
| Translations.TranslationPanel.ToggleJuzTranslation | src/pages/Juz.jsx:416-420 | with a selection it deselects without a request; otherwise it runs the juz fetch for Indonesian, which selects the cached map or else fetches with retries, installs the map by position and selects it, or leaves nothing selected when the fetch fails or Indonesian is not offered |
| Translations.TranslationPanel.ToggleSurahTranslation | src/pages/Surah.jsx:353-357 | the same for the chapter view: cached Indonesian is selected with no request; otherwise one request is made exactly when Indonesian is offered, and its map by verse number is installed and selected, or nothing is selected when it failed |
| Translations.TranslationPanel.TextFor | src/pages/Juz.jsx:307-310 | a verse shows text iff a language is selected, cached, and has its key |
| Translations.JuzVerseShowsItsTranslation | src/pages/Juz.jsx:307-310 | after a juz translation is installed, the verse at position i shows the i-th translated text |
| Translations.SurahVerseShowsItsTranslation | src/pages/Surah.jsx:282-283 | after a chapter translation is installed, each verse number shows its own text |
| Translations.DeselectedShowsNothing | src/pages/Surah.jsx:282-283 | with no language selected no verse shows a translation |

## Left out

- Network I/O, HTTP status codes and JSON parsing are not modelled. The outcome of each attempt is an input, and a body without the expected fields is `None`.
- `localStorage` and JSON (de)serialisation are not modelled. Persistence is a second field that holds the written list, and a throwing `JSON.parse` of a corrupt slot is not modelled.
- Timers are not modelled. The one-second pauses are counted, not timed.
- Audio elements, `scrollIntoView`, DOM refs, the scroll-to-top button and all rendering and styling are left out. Playback keeps only the "ended" and "play failed" events.
- `Promise.all` parallelism is not modelled. A group's requests run one after another, and only whether all returned matters. Which rejection wins, state-update batching, and late results after unmount are not modelled.
- Error text that includes `err.message` (the juz view, the index views, the home view) is abstracted. The model keeps only the fact that an error was set, and the fixed messages.
- Dates are not parsed from ISO strings. `Intl.DateTimeFormat` in `formatDate` is not modelled.
- `toLowerCase` is ASCII only. Unicode case mapping is not modelled.
- `JsValues.ParseInt` skips only ASCII whitespace before the number. JavaScript also skips the other Unicode white-space and line-terminator characters (U+00A0, U+FEFF, U+2028, U+2029 and the other space separators), so a route id like `"\u00A07"` reads as 7 in the browser and as `NaN` in the model.
- `parseInt` works on unbounded integers. Floating-point rounding of very long digit strings is not modelled.
- Missing response fields are modelled as `""` or `0`. Both are falsy, which is all the `||` fallbacks test.
- `SortByDateDesc`: the in-place `Array.prototype.sort` is modelled as a stable functional insertion sort over `seq`. Stability is what the JavaScript specification requires of `sort`.
- The index entries have one shape, `Summary`. The views name the number field differently (`juz`, `page` and `number`). The home view's entries also keep the whole verse array (`ayahs`, `src/pages/Home.jsx:56` and `:76`). The model does not carry it, because nothing renders it.
- React effect re-runs on route changes are not modelled. Each load is one call.
- src/components/NavBar.jsx, src/App.jsx and src/main.jsx (menu, route table and bootstrapping) are not part of this model.
- The tab switch on the home view and the list rendering of the index pages are markup only and are left out.
