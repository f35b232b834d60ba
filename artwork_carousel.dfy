/**
 * The state machine of app/components/artwork/ArtworkCarousel.tsx: the index of the artwork on
 * screen, stepped forward and back with wrap-around, whether its text is shown, and which
 * artworks the reader has saved.
 */
module Carousel {
  import opened Wrappers
  import opened Types
  import opened PreferenceStorage

  /**
   * A JavaScript number used as an index: an integer, or NaN, which is what `x % 0` gives when
   * the list is empty and which every later step keeps.
   */
  datatype Position = Index(i: int) | NotANumber

  /** JavaScript's `a % n` for `n > 0`: truncated, so the remainder takes the sign of `a`. */
  function JsRem(a: int, n: int): (r: int)
    requires n > 0
    ensures a >= 0 ==> 0 <= r < n
    ensures a < 0 ==> -n < r <= 0
  {
    if a >= 0 then a % n else -((-a) % n)
  }

  /** `(prev + 1) % artworks.length` */
  function Next(p: Position, n: nat): Position {
    match p
    case NotANumber => NotANumber
    case Index(i) => if n == 0 then NotANumber else Index(JsRem(i + 1, n))
  }

  /** `(prev - 1 + artworks.length) % artworks.length` */
  function Prev(p: Position, n: nat): Position {
    match p
    case NotANumber => NotANumber
    case Index(i) => if n == 0 then NotANumber else Index(JsRem(i - 1 + n, n))
  }

  /** The position names an artwork of a list of `n`. */
  predicate InRange(p: Position, n: nat) {
    p.Index? && 0 <= p.i < n
  }

  /** `x % n == x` for a remainder already in range. */
  lemma ModSmall(x: int, n: int)
    requires 0 <= x < n
    ensures x % n == x
  {
  }

  /** `(x + n) % n == x` for `x` in range. */
  lemma ModShift(x: int, n: int)
    requires 0 <= x < n
    ensures (x + n) % n == x
  {
    assert (x + n) / n == 1;
  }

  /** Next from an artwork lands on the following one, and on the first after the last. */
  lemma NextInRange(p: Position, n: nat)
    requires InRange(p, n)
    ensures Next(p, n) == Index(if p.i == n - 1 then 0 else p.i + 1)
  {
    if p.i < n - 1 {
      ModSmall(p.i + 1, n);
    } else {
      ModShift(0, n);
    }
  }

  /** Previous from an artwork lands on the one before, and on the last before the first. */
  lemma PrevInRange(p: Position, n: nat)
    requires InRange(p, n)
    ensures Prev(p, n) == Index(if p.i == 0 then n - 1 else p.i - 1)
  {
    if p.i == 0 {
      ModSmall(n - 1, n);
    } else {
      ModShift(p.i - 1, n);
    }
  }

  /** Stepping either way from an artwork lands on an artwork. */
  lemma StepsStayInRange(p: Position, n: nat)
    requires InRange(p, n)
    ensures InRange(Next(p, n), n) && InRange(Prev(p, n), n)
    ensures Next(p, n) == Index(if p.i == n - 1 then 0 else p.i + 1)
    ensures Prev(p, n) == Index(if p.i == 0 then n - 1 else p.i - 1)
  {
    NextInRange(p, n);
    PrevInRange(p, n);
  }

  /** Next then previous, or previous then next, comes back to the same artwork. */
  lemma PrevUndoesNext(p: Position, n: nat)
    requires InRange(p, n)
    ensures Prev(Next(p, n), n) == p
    ensures Next(Prev(p, n), n) == p
  {
    StepsStayInRange(p, n);
    StepsStayInRange(Next(p, n), n);
    StepsStayInRange(Prev(p, n), n);
  }

  /** `k` presses of next. */
  function NextTimes(p: Position, n: nat, k: nat): Position {
    if k == 0 then p else Next(NextTimes(p, n, k - 1), n)
  }

  /** Up to `n` presses of next from artwork `i` count forward and wrap around once. */
  lemma {:induction false} NextTimesWraps(p: Position, n: nat, k: nat)
    requires InRange(p, n) && k <= n
    ensures NextTimes(p, n, k) == Index(if p.i + k < n then p.i + k else p.i + k - n)
  {
    if k > 0 {
      NextTimesWraps(p, n, k - 1);
      StepsStayInRange(NextTimes(p, n, k - 1), n);
    }
  }

  /** `n` presses of next come back to the artwork where they started. */
  lemma NextAllTheWayRound(p: Position, n: nat)
    requires InRange(p, n)
    ensures NextTimes(p, n, n) == p
  {
    NextTimesWraps(p, n, n);
  }

  /** On an empty list the first step gives NaN and no step leaves it. */
  lemma EmptyListGivesNaN(p: Position)
    ensures Next(p, 0) == NotANumber && Prev(p, 0) == NotANumber
    ensures Next(NotANumber, 0) == NotANumber
  {
  }

  /** The id set of the stored preferences has `id`. */
  predicate SavedId(prefs: UserPreferences, id: string) {
    HasKey(prefs.artworks, ArtworkKey, id)
  }

  /**
   * The saved map the mount effect builds: one entry per carousel artwork, telling whether the
   * preferences hold that artwork's id.
   */
  method ComputeSavedMap(artworks: seq<Artwork>, prefs: UserPreferences) returns (savedMap: map<string, bool>)
    ensures forall id :: id in savedMap <==> exists i :: 0 <= i < |artworks| && artworks[i].id == id
    ensures forall id :: id in savedMap ==> savedMap[id] == SavedId(prefs, id)
  {
    var savedIds := set j | 0 <= j < |prefs.artworks| :: prefs.artworks[j].artworkId;
    savedMap := map[];
    var i := 0;
    while i < |artworks|
      invariant 0 <= i <= |artworks|
      invariant forall id :: id in savedMap <==> exists j :: 0 <= j < i && artworks[j].id == id
      invariant forall id :: id in savedMap ==> savedMap[id] == (id in savedIds)
    {
      savedMap := savedMap[artworks[i].id := artworks[i].id in savedIds];
      i := i + 1;
    }
    forall id | id in savedMap
      ensures savedMap[id] == SavedId(prefs, id)
    {
      if id in savedIds {
        var j :| 0 <= j < |prefs.artworks| && prefs.artworks[j].artworkId == id;
        assert ArtworkKey(prefs.artworks[j]) == id;
      }
    }
  }

  /** The component's state; the artworks are its immutable property. */
  class ArtworkCarousel {
    const artworks: seq<Artwork>
    var currentIndex: Position
    var isSaved: map<string, bool>
    var showText: bool

    constructor (artworks: seq<Artwork>)
      ensures this.artworks == artworks
      ensures currentIndex == Index(0) && isSaved == map[] && !showText
    {
      this.artworks := artworks;
      currentIndex := Index(0);
      isSaved := map[];
      showText := false;
    }

    /** `isSaved[id]`: an id without an entry reads as not saved. */
    predicate MarkedSaved(id: string)
      reads this
    {
      id in isSaved && isSaved[id]
    }

    /** Every carousel artwork has an entry, and it agrees with the store. */
    predicate InSync(store: PreferenceStore)
      reads this, store
    {
      forall i :: 0 <= i < |artworks| ==>
        artworks[i].id in isSaved && isSaved[artworks[i].id] == ArtworkSaved(store.blob, artworks[i].id)
    }

    /** The mount effect: loads the preferences and rebuilds the saved map from them. */
    method RefreshSaved(store: PreferenceStore, now: Timestamp)
      modifies this
      ensures InSync(store)
      ensures forall id :: id in isSaved <==> exists i :: 0 <= i < |artworks| && artworks[i].id == id
      ensures currentIndex == old(currentIndex) && showText == old(showText)
    {
      var prefs := store.Load(now);
      isSaved := ComputeSavedMap(artworks, prefs);
    }

    /** handleNext */
    method HandleNext()
      modifies this
      ensures currentIndex == Next(old(currentIndex), |artworks|)
      ensures !showText && isSaved == old(isSaved)
    {
      currentIndex := Next(currentIndex, |artworks|);
      showText := false;
    }

    /** handlePrev */
    method HandlePrev()
      modifies this
      ensures currentIndex == Prev(old(currentIndex), |artworks|)
      ensures !showText && isSaved == old(isSaved)
    {
      currentIndex := Prev(currentIndex, |artworks|);
      showText := false;
    }

    /** The timer that reveals the text some time after the index changed. */
    method RevealText()
      modifies this
      ensures showText && currentIndex == old(currentIndex) && isSaved == old(isSaved)
    {
      showText := true;
    }

    /**
     * handleSave, reachable only from the save button, which is drawn only while an artwork is on
     * screen: stores a preference for it unless it is already marked saved, then marks it saved.
     */
    method HandleSave(store: PreferenceStore, now: Timestamp)
      requires InRange(currentIndex, |artworks|)
      modifies this, store
      ensures var a := artworks[old(currentIndex).i];
        store.blob == (if old(MarkedSaved(a.id)) then old(store.blob)
                       else AfterAddArtwork(old(store.blob), ArtworkPreference(a.id, a.title, a.artist, now, None, None), now)) &&
        isSaved == old(isSaved)[a.id := true]
      ensures currentIndex == old(currentIndex) && showText == old(showText)
      ensures old(InSync(store)) ==> InSync(store)
      ensures old(store.Valid()) ==> store.Valid()
    {
      var artwork := artworks[currentIndex.i];
      if !(artwork.id in isSaved && isSaved[artwork.id]) {
        store.AddArtworkPreference(artwork.id, artwork.title, artwork.artist, None, None, now);
        AddArtworkSavedIff(old(store.blob), ArtworkPreference(artwork.id, artwork.title, artwork.artist, now, None, None), now);
        isSaved := isSaved[artwork.id := true];
      } else {
        assert isSaved[artwork.id := true] == isSaved;
      }
    }

    /** Saving the same artwork twice writes the store once: the second save changes nothing. */
    method SaveTwice(store: PreferenceStore, now: Timestamp, later: Timestamp)
      requires InRange(currentIndex, |artworks|)
      modifies this, store
      ensures var a := artworks[old(currentIndex).i];
        store.blob == (if old(MarkedSaved(a.id)) then old(store.blob)
                       else AfterAddArtwork(old(store.blob), ArtworkPreference(a.id, a.title, a.artist, now, None, None), now))
    {
      HandleSave(store, now);
      HandleSave(store, later);
    }
  }
}
