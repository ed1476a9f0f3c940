/**
 * The bookmark list page: it loads the stored list sorted newest first,
 * removes records by their chapter/verse fields, clears everything behind a
 * confirmation dialog, and shows an empty state when nothing is saved.
 */
module BookmarkListView {
  import opened Wrappers
  import opened JsValues
  import opened Bookmarks

  class BookmarkListPage {
    var bookmarks: seq<Bookmark>
    var stored: Option<seq<Bookmark>>
    var loading: bool
    var deleteModalOpen: bool

    /** The page mounts with an empty list, a spinner and the dialog closed. */
    constructor (persisted: Option<seq<Bookmark>>)
      ensures bookmarks == [] && stored == persisted && loading && !deleteModalOpen
    {
      bookmarks := [];
      stored := persisted;
      loading := true;
      deleteModalOpen := false;
    }

    /** The mount effect: read the stored list (empty when absent), sort it newest first, stop the spinner. */
    method Load()
      modifies this
      ensures bookmarks == SortByDateDesc(StoredOrEmpty(stored))
      ensures !loading
      ensures stored == old(stored) && deleteModalOpen == old(deleteModalOpen)
    {
      var list := StoredOrEmpty(stored);
      list := SortByDateDesc(list);
      bookmarks := list;
      loading := false;
    }

    /** `removeBookmark(surahId, ayahNum)`: filter out every record with both fields strictly equal, then persist. */
    method RemoveBookmark(surahId: Val, ayahNum: Val)
      modifies this
      ensures bookmarks == RemoveMatching(old(bookmarks), SurahAyah(surahId, ayahNum))
      ensures stored == Some(bookmarks)
      ensures loading == old(loading) && deleteModalOpen == old(deleteModalOpen)
    {
      var updated := RemoveMatching(bookmarks, SurahAyah(surahId, ayahNum));
      bookmarks := updated;
      stored := Some(updated);
    }

    /** The "delete all" button opens the confirmation dialog. */
    method OpenDeleteModal()
      modifies this
      ensures deleteModalOpen
      ensures bookmarks == old(bookmarks) && stored == old(stored) && loading == old(loading)
    {
      deleteModalOpen := true;
    }

    /** "Cancel" closes the dialog and changes nothing else. */
    method CancelDelete()
      modifies this
      ensures !deleteModalOpen
      ensures bookmarks == old(bookmarks) && stored == old(stored) && loading == old(loading)
    {
      deleteModalOpen := false;
    }

    /** `clearAllBookmarks`: empty list in state and in storage, dialog closed. */
    method ClearAll()
      modifies this
      ensures bookmarks == [] && stored == Some([]) && !deleteModalOpen
      ensures loading == old(loading)
      ensures ShowsEmptyState() && !ShowsClearAllButton()
    {
      bookmarks := [];
      stored := Some([]);
      deleteModalOpen := false;
    }

    /** `bookmarks.length === 0` selects the empty-state panel. */
    predicate ShowsEmptyState()
      reads this
    {
      |bookmarks| == 0
    }

    /** `bookmarks.length > 0` shows the "delete all" button. */
    predicate ShowsClearAllButton()
      reads this
    {
      |bookmarks| > 0
    }
  }

  /** Exactly one of the empty state and the "delete all" button is on screen. */
  lemma EmptyStateXorClearAll(page: BookmarkListPage)
    ensures page.ShowsEmptyState() <==> !page.ShowsClearAllButton()
  {
  }

  /** Nothing stored: the loaded list is empty. */
  lemma LoadNothingStored()
    ensures SortByDateDesc(StoredOrEmpty(None)) == []
  {
  }

  /** Loading yields a newest-first permutation of what was stored. */
  lemma LoadedListIsSortedPermutation(stored: Option<seq<Bookmark>>)
    ensures SortedByDateDesc(SortByDateDesc(StoredOrEmpty(stored)))
    ensures multiset(SortByDateDesc(StoredOrEmpty(stored))) == multiset(StoredOrEmpty(stored))
  {
    SortByDateDescSpec(StoredOrEmpty(stored));
  }

  /**
   * The delete button of a row removes by that row's own `surah` and `ayah`
   * fields; the row's record is always among those removed.
   */
  lemma DeleteRowRemovesIt(list: seq<Bookmark>, i: nat)
    requires i < |list|
    ensures list[i] !in RemoveMatching(list, SurahAyah(list[i].surah, list[i].ayah))
  {
    RemoveMatchingSpec(list, SurahAyah(list[i].surah, list[i].ayah));
  }

  /**
   * A record written by the juz view has no `surah` and no `ayah`, so the
   * delete button on any such row removes every record the juz view wrote,
   * whatever juz or verse they name.
   */
  lemma DeletingJuzRowRemovesAllJuzRows(list: seq<Bookmark>, i: nat)
    requires i < |list|
    requires list[i].surah == Undef && list[i].ayah == Undef
    ensures forall b: Bookmark :: b.surah == Undef && b.ayah == Undef ==>
      b !in RemoveMatching(list, SurahAyah(list[i].surah, list[i].ayah))
  {
    RemoveMatchingSpec(list, SurahAyah(Undef, Undef));
  }
}
