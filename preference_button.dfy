/**
 * The save/unsave toggle of app/components/artwork/PreferenceButton.tsx: a flag that starts from
 * the stored preferences and flips on every click, adding or removing the artwork's preference.
 */
module PreferenceToggle {
  import opened Wrappers
  import opened Types
  import opened PreferenceStorage

  /** The button's state, for one artwork. */
  class PreferenceButton {
    const artworkId: string
    const artworkTitle: string
    const artist: string
    var isSaved: bool
    var isLoading: bool

    /** The flag agrees with the store. */
    predicate InSync(store: PreferenceStore)
      reads this, store
    {
      isSaved == ArtworkSaved(store.blob, artworkId)
    }

    /**
     * The initial state: on the server (no window) not saved; in the browser, saved exactly when the
     * loaded preferences hold a record for this artwork.
     */
    constructor (store: PreferenceStore, artworkId: string, artworkTitle: string, artist: string,
                 hasWindow: bool, now: Timestamp)
      ensures this.artworkId == artworkId && this.artworkTitle == artworkTitle && this.artist == artist
      ensures isSaved == (hasWindow && ArtworkSaved(store.blob, artworkId)) && !isLoading
      ensures hasWindow ==> InSync(store)
    {
      var saved := false;
      if hasWindow {
        var preferences := store.Load(now);
        saved := exists i :: 0 <= i < |preferences.artworks| && preferences.artworks[i].artworkId == artworkId;
        assert saved == HasKey(preferences.artworks, ArtworkKey, artworkId);
      }
      this.artworkId := artworkId;
      this.artworkTitle := artworkTitle;
      this.artist := artist;
      isSaved := saved;
      isLoading := false;
    }

    /**
     * handleClick: a saved artwork is removed from the store, an unsaved one is added with no rating
     * or notes, the flag flips, and loading is over when the handler returns. Whatever the flag said
     * before, afterwards it agrees with the store.
     */
    method HandleClick(store: PreferenceStore, now: Timestamp)
      modifies this, store
      ensures store.blob == (if old(isSaved) then AfterRemoveArtwork(old(store.blob), artworkId, now)
                             else AfterAddArtwork(old(store.blob), ArtworkPreference(artworkId, artworkTitle, artist, now, None, None), now))
      ensures isSaved == !old(isSaved) && !isLoading
      ensures InSync(store)
      ensures forall x :: x != artworkId ==> (ArtworkSaved(store.blob, x) <==> ArtworkSaved(old(store.blob), x))
      ensures old(store.Valid()) ==> store.Valid()
    {
      isLoading := true;
      if isSaved {
        store.RemoveArtworkPreference(artworkId, now);
        RemoveArtworkEffect(old(store.blob), artworkId, now);
        RemoveArtworkSavedIff(old(store.blob), artworkId, now);
        isSaved := false;
      } else {
        store.AddArtworkPreference(artworkId, artworkTitle, artist, None, None, now);
        AddArtworkEffect(old(store.blob), ArtworkPreference(artworkId, artworkTitle, artist, now, None, None), now);
        AddArtworkSavedIff(old(store.blob), ArtworkPreference(artworkId, artworkTitle, artist, now, None, None), now);
        isSaved := true;
      }
      isLoading := false;
    }
  }

  /** Two clicks from a state in sync leave the artwork saved as it was before. */
  method ClickTwice(button: PreferenceButton, store: PreferenceStore, now: Timestamp, later: Timestamp)
    requires button.InSync(store)
    modifies button, store
    ensures button.isSaved == old(button.isSaved) && button.InSync(store)
    ensures ArtworkSaved(store.blob, button.artworkId) == old(ArtworkSaved(store.blob, button.artworkId))
  {
    button.HandleClick(store, now);
    button.HandleClick(store, later);
  }
}
