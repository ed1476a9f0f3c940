/**
 * The bookmark list every reading view keeps under the single storage key
 * `bookmarks`: records compared field by field with strict equality, toggled
 * by a composite key, removed by key, cleared, and listed newest first.
 */
module Bookmarks {
  import opened Wrappers
  import opened JsValues
  import opened Sequences

  /**
   * One stored record. Each view writes a different subset of the fields and
   * leaves the others `Undef`: the chapter and verse views write `surah` and
   * `ayah`, the juz view writes `juz` and `globalAyahNumber`. The ISO date
   * string is modelled by the instant it denotes.
   */
  datatype Bookmark = Bookmark(
    surah: Val, ayah: Val,
    juz: Val, globalAyahNumber: Val,
    surahNumber: Val, surahName: Val, arabName: Val, surahArabic: Val, ayahNumber: Val,
    date: int)

  /** The composite key a view looks records up by. */
  datatype Key = SurahAyah(surah: Val, ayah: Val) | JuzAyah(juz: Val, globalAyah: Val)

  /** The `find`/`some`/`filter` predicate: both key fields are strictly equal. */
  predicate Matches(b: Bookmark, k: Key) {
    match k
    case SurahAyah(s, a) => b.surah == s && b.ayah == a
    case JuzAyah(j, g) => b.juz == j && b.globalAyahNumber == g
  }

  /** `list.find(b => matches)` is truthy, or `list.some(b => matches)`. */
  predicate IsBookmarked(list: seq<Bookmark>, k: Key) {
    exists i | 0 <= i < |list| :: Matches(list[i], k)
  }

  /** `list.filter(b => !matches)`. */
  function RemoveMatching(list: seq<Bookmark>, k: Key): (r: seq<Bookmark>)
    ensures |r| <= |list|
  {
    if list == [] then []
    else if Matches(list[0], k) then RemoveMatching(list[1..], k)
    else [list[0]] + RemoveMatching(list[1..], k)
  }

  /** What a star click computes: drop every match if there is one, otherwise append the new record. */
  function ToggleList(list: seq<Bookmark>, k: Key, record: Bookmark): seq<Bookmark> {
    if IsBookmarked(list, k) then RemoveMatching(list, k) else list + [record]
  }

  /**
   * Removal keeps exactly the records that do not match, in their original
   * order and with their multiplicities, and no record that does.
   */
  lemma {:induction false} RemoveMatchingSpec(list: seq<Bookmark>, k: Key)
    ensures forall i :: 0 <= i < |RemoveMatching(list, k)| ==> !Matches(RemoveMatching(list, k)[i], k)
    ensures forall b :: multiset(RemoveMatching(list, k))[b] == if Matches(b, k) then 0 else multiset(list)[b]
    ensures IsSubsequence(RemoveMatching(list, k), list)
    ensures !IsBookmarked(RemoveMatching(list, k), k)
  {
    if list != [] {
      RemoveMatchingSpec(list[1..], k);
      assert list == [list[0]] + list[1..];
      var r := RemoveMatching(list, k);
      var t := RemoveMatching(list[1..], k);
      if Matches(list[0], k) {
        assert r == t;
        assert IsSubsequence(r, list) by { assert t == [] || IsSubsequence(t, list[1..]); }
      } else {
        assert r == [list[0]] + t;
        assert r[1..] == t;
      }
    }
  }

  /** Removing a key no record has leaves the list as it is. */
  lemma {:induction false} RemoveAbsent(list: seq<Bookmark>, k: Key)
    requires !IsBookmarked(list, k)
    ensures RemoveMatching(list, k) == list
  {
    if list != [] {
      assert !Matches(list[0], k);
      assert !IsBookmarked(list[1..], k) by {
        forall i | 0 <= i < |list[1..]| ensures !Matches(list[1..][i], k) { assert list[1..][i] == list[i + 1]; }
      }
      RemoveAbsent(list[1..], k);
      assert list == [list[0]] + list[1..];
    }
  }

  /** Removal is idempotent. */
  lemma RemoveIdempotent(list: seq<Bookmark>, k: Key)
    ensures RemoveMatching(RemoveMatching(list, k), k) == RemoveMatching(list, k)
  {
    RemoveMatchingSpec(list, k);
    RemoveAbsent(RemoveMatching(list, k), k);
  }

  /** Removal distributes over concatenation. */
  lemma {:induction false} RemoveAppend(a: seq<Bookmark>, b: seq<Bookmark>, k: Key)
    ensures RemoveMatching(a + b, k) == RemoveMatching(a, k) + RemoveMatching(b, k)
  {
    if a != [] {
      assert (a + b)[1..] == a[1..] + b;
      assert (a + b)[0] == a[0];
      RemoveAppend(a[1..], b, k);
    } else {
      assert a + b == b;
    }
  }

  /** Toggling with a record that carries the key flips whether that key is bookmarked. */
  lemma ToggleFlips(list: seq<Bookmark>, k: Key, record: Bookmark)
    requires Matches(record, k)
    ensures IsBookmarked(ToggleList(list, k, record), k) == !IsBookmarked(list, k)
  {
    if IsBookmarked(list, k) {
      RemoveMatchingSpec(list, k);
    } else {
      var r := list + [record];
      assert Matches(r[|list|], k);
    }
  }

  /** When the key is present, every matching record goes and nothing else is touched. */
  lemma ToggleWhenPresent(list: seq<Bookmark>, k: Key, record: Bookmark)
    requires IsBookmarked(list, k)
    ensures !IsBookmarked(ToggleList(list, k, record), k)
    ensures |ToggleList(list, k, record)| < |list|
    ensures forall b :: !Matches(b, k) ==> multiset(ToggleList(list, k, record))[b] == multiset(list)[b]
    ensures IsSubsequence(ToggleList(list, k, record), list)
  {
    RemoveMatchingSpec(list, k);
    RemoveShortens(list, k);
  }

  lemma {:induction false} RemoveShortens(list: seq<Bookmark>, k: Key)
    requires IsBookmarked(list, k)
    ensures |RemoveMatching(list, k)| < |list|
  {
    if !Matches(list[0], k) {
      var i :| 0 <= i < |list| && Matches(list[i], k);
      assert list[1..][i - 1] == list[i];
      RemoveShortens(list[1..], k);
    }
  }

  /** When the key is absent, exactly the new record is appended at the end. */
  lemma ToggleWhenAbsent(list: seq<Bookmark>, k: Key, record: Bookmark)
    requires !IsBookmarked(list, k)
    ensures |ToggleList(list, k, record)| == |list| + 1
    ensures ToggleList(list, k, record)[..|list|] == list
    ensures ToggleList(list, k, record)[|list|] == record
  {
  }

  /** Records under other keys are the same sequence before and after a toggle. */
  lemma ToggleKeepsOthers(list: seq<Bookmark>, k: Key, record: Bookmark)
    requires Matches(record, k)
    ensures RemoveMatching(ToggleList(list, k, record), k) == RemoveMatching(list, k)
  {
    if IsBookmarked(list, k) {
      RemoveIdempotent(list, k);
    } else {
      RemoveAppend(list, [record], k);
      assert RemoveMatching([record], k) == [];
    }
  }

  /** Toggling the same key twice, starting from absent, gives back the original list. */
  lemma ToggleTwice(list: seq<Bookmark>, k: Key, record: Bookmark, again: Bookmark)
    requires Matches(record, k) && !IsBookmarked(list, k)
    ensures ToggleList(ToggleList(list, k, record), k, again) == list
  {
    ToggleFlips(list, k, record);
    ToggleKeepsOthers(list, k, record);
    RemoveAbsent(list, k);
  }

  // ---------------------------------------------------------------------
  // Listing newest first.

  /** Newest first: dates never increase along the list. */
  predicate SortedByDateDesc(s: seq<Bookmark>) {
    forall i, j :: 0 <= i < j < |s| ==> s[i].date >= s[j].date
  }

  /** The records of `s` saved at instant `d`, in order. */
  function WithDate(s: seq<Bookmark>, d: int): seq<Bookmark> {
    if s == [] then [] else (if s[0].date == d then [s[0]] else []) + WithDate(s[1..], d)
  }

  /** Insert `b` in front of the first record that is not newer than it. */
  function InsertByDate(b: Bookmark, s: seq<Bookmark>): (r: seq<Bookmark>)
    ensures multiset(r) == multiset(s) + multiset{b}
    ensures |r| == |s| + 1
  {
    if s == [] then [b]
    else if b.date >= s[0].date then [b] + s
    else
      assert s == [s[0]] + s[1..];
      [s[0]] + InsertByDate(b, s[1..])
  }

  /** `storedBookmarks.sort((a, b) => new Date(b.date) - new Date(a.date))`: a stable sort, newest first. */
  function SortByDateDesc(s: seq<Bookmark>): (r: seq<Bookmark>)
    ensures multiset(r) == multiset(s)
    ensures |r| == |s|
  {
    if s == [] then []
    else
      assert s == [s[0]] + s[1..];
      InsertByDate(s[0], SortByDateDesc(s[1..]))
  }

  lemma {:induction false} InsertKeepsSorted(b: Bookmark, s: seq<Bookmark>)
    requires SortedByDateDesc(s)
    ensures SortedByDateDesc(InsertByDate(b, s))
    ensures InsertByDate(b, s)[0] == b || (s != [] && InsertByDate(b, s)[0] == s[0])
  {
    if s != [] && b.date < s[0].date {
      InsertKeepsSorted(b, s[1..]);
      var t := InsertByDate(b, s[1..]);
      assert t[0].date <= s[0].date by {
        if t[0] != b { assert t[0] == s[1]; }
      }
      ConsSorted(s[0], t);
    }
  }

  /** A record no older than the head of a newest-first list can go in front of it. */
  lemma ConsSorted(x: Bookmark, t: seq<Bookmark>)
    requires SortedByDateDesc(t) && (t == [] || x.date >= t[0].date)
    ensures SortedByDateDesc([x] + t)
  {
    var r := [x] + t;
    forall i, j | 0 <= i < j < |r| ensures r[i].date >= r[j].date {
      assert r[j] == t[j - 1];
      if i > 0 { assert r[i] == t[i - 1]; }
    }
  }

  lemma {:induction false} InsertWithDate(b: Bookmark, s: seq<Bookmark>, d: int)
    ensures WithDate(InsertByDate(b, s), d) == (if b.date == d then [b] else []) + WithDate(s, d)
  {
    var own: seq<Bookmark> := if b.date == d then [b] else [];
    if s == [] {
      assert WithDate([b], d) == own + WithDate([b][1..], d);
      assert [b][1..] == [];
    } else if b.date >= s[0].date {
      var r := [b] + s;
      assert r[0] == b && r[1..] == s;
      assert WithDate(r, d) == own + WithDate(s, d);
    } else {
      var ins := InsertByDate(b, s[1..]);
      var head: seq<Bookmark> := if s[0].date == d then [s[0]] else [];
      var t := [s[0]] + ins;
      assert t[0] == s[0] && t[1..] == ins;
      assert WithDate(t, d) == head + WithDate(ins, d);
      InsertWithDate(b, s[1..], d);
      assert WithDate(ins, d) == own + WithDate(s[1..], d);
      assert WithDate(s, d) == head + WithDate(s[1..], d);
      var rest := WithDate(s[1..], d);
      if b.date == d {
        assert head == [];
        assert WithDate(t, d) == own + rest by { assert head + WithDate(ins, d) == WithDate(ins, d); }
        assert WithDate(s, d) == rest by { assert head + rest == rest; }
      } else {
        assert own == [];
        assert WithDate(ins, d) == rest by { assert own + rest == rest; }
        assert own + WithDate(s, d) == WithDate(s, d);
      }
    }
  }

  /**
   * Loading lists the stored records newest first; it is a permutation of
   * them, and records saved at the same instant keep their stored order.
   */
  lemma {:induction false} SortByDateDescSpec(s: seq<Bookmark>)
    ensures SortedByDateDesc(SortByDateDesc(s))
    ensures multiset(SortByDateDesc(s)) == multiset(s)
    ensures forall d :: WithDate(SortByDateDesc(s), d) == WithDate(s, d)
  {
    if s != [] {
      SortByDateDescSpec(s[1..]);
      InsertKeepsSorted(s[0], SortByDateDesc(s[1..]));
      forall d ensures WithDate(SortByDateDesc(s), d) == WithDate(s, d) {
        InsertWithDate(s[0], SortByDateDesc(s[1..]), d);
      }
    }
  }

  /** `JSON.parse(localStorage.getItem('bookmarks')) || []`: nothing stored reads as the empty list. */
  function StoredOrEmpty(stored: Option<seq<Bookmark>>): (r: seq<Bookmark>)
    ensures stored.None? ==> r == []
    ensures stored.Some? ==> r == stored.value
  {
    stored.GetOr([])
  }

  /**
   * A reading view's copy of the list (its component state) together with the
   * persisted copy (the storage slot; `None` when nothing was ever saved).
   */
  class Store {
    var bookmarks: seq<Bookmark>
    var stored: Option<seq<Bookmark>>

    /** The view mounts: its state starts as the stored list, or empty. */
    constructor (persisted: Option<seq<Bookmark>>)
      ensures bookmarks == StoredOrEmpty(persisted) && stored == persisted
    {
      bookmarks := StoredOrEmpty(persisted);
      stored := persisted;
    }

    /** A star click: toggle, then write the whole list back. */
    method Toggle(k: Key, record: Bookmark)
      modifies this
      ensures bookmarks == ToggleList(old(bookmarks), k, record)
      ensures stored == Some(bookmarks)
    {
      var updated := bookmarks;
      if IsBookmarked(updated, k) {
        updated := RemoveMatching(updated, k);
      } else {
        updated := updated + [record];
      }
      bookmarks := updated;
      stored := Some(updated);
    }
  }
}
