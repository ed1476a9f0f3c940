/**
 * The verse-by-verse "play all" machine shared, line for line, by the juz
 * and chapter views: a current index (or none) and a playing flag, driven by
 * the play-all button, a verse's own play button, and the audio element's
 * "ended" and "play failed" events. The audio element itself is not modelled;
 * `n` is the number of verses loaded.
 */
module Playback {
  import opened Wrappers

  datatype PlayState = PlayState(currentIndex: Option<nat>, isPlaying: bool)

  /** The state a view mounts with and returns to when playback stops. */
  const Stopped: PlayState := PlayState(None, false)

  /** The play-all button: stop when playing, otherwise start from the first verse. */
  function TogglePlayAll(s: PlayState): PlayState {
    if s.isPlaying then Stopped else PlayState(Some(0), true)
  }

  /** `currentIndex === index && isPlaying`: the verse at `index` is highlighted as playing. */
  predicate IsCurrentlyPlaying(s: PlayState, index: nat) {
    s.currentIndex == Some(index) && s.isPlaying
  }

  /** A verse's own play button: stop if that verse is playing, otherwise jump to it and play. */
  function PressVerse(s: PlayState, index: nat): PlayState {
    if IsCurrentlyPlaying(s, index) then Stopped else PlayState(Some(index), true)
  }

  /** The audio effect creates an element (and so can raise events) only when the index names a loaded verse. */
  predicate AudioAttached(s: PlayState, n: nat) {
    s.currentIndex.Some? && s.currentIndex.value < n
  }

  /** "Ended": advance to the next verse while there is one, otherwise stop with no index. */
  function Ended(s: PlayState, n: nat): PlayState {
    if !AudioAttached(s, n) then s
    else
      var i := s.currentIndex.value;
      if i + 1 < n then PlayState(Some(i + 1), s.isPlaying) else Stopped
  }

  /** `audio.play()` rejected: clear the playing flag and keep the index. */
  function PlayFailed(s: PlayState, n: nat): PlayState {
    if AudioAttached(s, n) then PlayState(s.currentIndex, false) else s
  }

  /** A present index always names a loaded verse. */
  predicate IndexInRange(s: PlayState, n: nat) {
    s.currentIndex.Some? ==> s.currentIndex.value < n
  }

  /** Play-all moves between exactly two states, and pressing it twice from stopped stops again. */
  lemma TogglePlayAllSpec(s: PlayState)
    ensures s.isPlaying ==> TogglePlayAll(s) == PlayState(None, false)
    ensures !s.isPlaying ==> TogglePlayAll(s) == PlayState(Some(0), true)
    ensures !s.isPlaying ==> TogglePlayAll(TogglePlayAll(s)) == Stopped
  {
  }

  /** The "ended" handler never produces an index at or beyond the verse count. */
  lemma EndedStaysInRange(s: PlayState, n: nat)
    requires AudioAttached(s, n)
    ensures IndexInRange(Ended(s, n), n)
    ensures Ended(s, n).currentIndex.Some? ==> Ended(s, n).currentIndex.value == s.currentIndex.value + 1
    ensures Ended(s, n).currentIndex.None? <==> s.currentIndex.value + 1 >= n
  {
  }

  /** Every event keeps the index in range (play-all needs at least one verse; the verse button names a loaded verse). */
  lemma EventsKeepIndexInRange(s: PlayState, n: nat, index: nat)
    requires IndexInRange(s, n)
    ensures n > 0 ==> IndexInRange(TogglePlayAll(s), n)
    ensures index < n ==> IndexInRange(PressVerse(s, index), n)
    ensures IndexInRange(Ended(s, n), n)
    ensures IndexInRange(PlayFailed(s, n), n)
  {
  }

  /** With no verses loaded, play-all still sets index 0, which names no verse. */
  lemma PlayAllOnEmptyLeavesRange()
    ensures !IndexInRange(TogglePlayAll(Stopped), 0)
  {
  }

  /** The verse button stops the verse that is playing and otherwise plays the pressed one. */
  lemma PressVerseSpec(s: PlayState, index: nat)
    ensures IsCurrentlyPlaying(s, index) ==> PressVerse(s, index) == Stopped
    ensures !IsCurrentlyPlaying(s, index) ==> IsCurrentlyPlaying(PressVerse(s, index), index)
    ensures forall j: nat :: j != index ==> !IsCurrentlyPlaying(PressVerse(s, index), j)
  {
  }

  /** A failed start leaves no verse highlighted as playing. */
  lemma PlayFailedStops(s: PlayState, n: nat, j: nat)
    requires AudioAttached(s, n)
    ensures !PlayFailed(s, n).isPlaying && PlayFailed(s, n).currentIndex == s.currentIndex
    ensures !IsCurrentlyPlaying(PlayFailed(s, n), j)
  {
  }

  /** The state after `k` consecutive "ended" events. */
  function EndedTimes(s: PlayState, n: nat, k: nat): PlayState {
    if k == 0 then s else Ended(EndedTimes(s, n, k - 1), n)
  }

  /**
   * Play-all from stopped plays the verses in order: after `k` "ended"
   * events the `k`-th verse is playing, and after the last one the machine is
   * stopped again.
   */
  lemma {:induction false} PlayAllVisitsEveryVerse(n: nat, k: nat)
    requires 0 < n && k <= n
    ensures EndedTimes(TogglePlayAll(Stopped), n, k) == if k < n then PlayState(Some(k), true) else Stopped
  {
    if k > 0 { PlayAllVisitsEveryVerse(n, k - 1); }
  }

  /** The playback fields of a juz or chapter view. */
  class Player {
    var currentIndex: Option<nat>
    var isPlaying: bool

    function State(): PlayState
      reads this
    {
      PlayState(currentIndex, isPlaying)
    }

    constructor ()
      ensures State() == Stopped
    {
      currentIndex, isPlaying := None, false;
    }

    method ClickPlayAll()
      modifies this
      ensures State() == TogglePlayAll(old(State()))
    {
      if isPlaying {
        currentIndex := None;
        isPlaying := false;
      } else {
        currentIndex := Some(0);
        isPlaying := true;
      }
    }

    method ClickVersePlay(index: nat)
      modifies this
      ensures State() == PressVerse(old(State()), index)
    {
      if currentIndex == Some(index) && isPlaying {
        isPlaying := false;
        currentIndex := None;
      } else {
        currentIndex := Some(index);
        isPlaying := true;
      }
    }

    /** The `onended` handler of the audio created for the current verse; `n` is `ayahs.length`. */
    method AudioEnded(n: nat)
      modifies this
      ensures State() == Ended(old(State()), n)
    {
      if currentIndex.Some? && currentIndex.value < n {
        if currentIndex.value + 1 < n {
          currentIndex := Some(currentIndex.value + 1);
        } else {
          isPlaying := false;
          currentIndex := None;
        }
      }
    }

    /** The `play().catch` handler of that audio. */
    method AudioPlayFailed(n: nat)
      modifies this
      ensures State() == PlayFailed(old(State()), n)
    {
      if currentIndex.Some? && currentIndex.value < n {
        isPlaying := false;
      }
    }
  }
}
