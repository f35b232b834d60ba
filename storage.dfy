/**
 * The preference store of app/lib/preferences/storage.ts: one serialized UserPreferences record under
 * one storage key, loaded, changed and written back whole by every operation, and the recommendations
 * derived from the liked artworks.
 */
module PreferenceStorage {
  import opened Wrappers
  import opened Seqs
  import opened Text
  import opened Types

  /**
   * What the storage key holds: nothing, a value that does not parse as a preferences record
   * (`JSON.parse` or the reconstruction of a nested list throws), or a record.
   */
  datatype Blob = Absent | Corrupt | Stored(prefs: UserPreferences)

  // ---------------------------------------------------------------------------------------------
  // Records identified by a key: the remove-then-append pattern shared by the three lists.

  function ArtworkKey(a: ArtworkPreference): string { a.artworkId }
  function ArtistKey(a: ArtistPreference): string { a.artistId }
  function EpochKey(e: EpochPreference): string { e.epochId }

  /** Some record of `s` has key `k`. */
  predicate HasKey<T>(s: seq<T>, key: T -> string, k: string) {
    exists i :: 0 <= i < |s| && key(s[i]) == k
  }

  /** No two records of `s` share a key. */
  predicate UniqueKeys<T>(s: seq<T>, key: T -> string) {
    forall i, j :: 0 <= i < j < |s| ==> key(s[i]) != key(s[j])
  }

  /** The records whose key is not `k`. */
  function KeyIsNot<T>(key: T -> string, k: string): T -> bool {
    x => key(x) != k
  }

  /** `s.filter(x => key(x) !== k)` */
  function RemoveKey<T(==)>(s: seq<T>, key: T -> string, k: string): (r: seq<T>)
    ensures !HasKey(r, key, k)
    ensures forall i :: 0 <= i < |s| && key(s[i]) != k ==> s[i] in r
    ensures forall i :: 0 <= i < |r| ==> r[i] in s
    ensures IsSubsequence(r, s)
  {
    FilterSpec(s, KeyIsNot(key, k));
    Filter(s, KeyIsNot(key, k))
  }

  /** The filter on the record's key followed by `push(x)`: replace-not-merge upsert. */
  function UpsertKey<T(==)>(s: seq<T>, key: T -> string, x: T): seq<T> {
    RemoveKey(s, key, key(x)) + [x]
  }

  /** Removing a key that no record has changes nothing. */
  lemma RemoveAbsentKey<T>(s: seq<T>, key: T -> string, k: string)
    requires !HasKey(s, key, k)
    ensures RemoveKey(s, key, k) == s
  {
    FilterKeepsAll(s, KeyIsNot(key, k));
  }

  /** Removing a key that exactly one record has removes exactly that record. */
  lemma RemovePresentKey<T>(s: seq<T>, key: T -> string, k: string)
    requires UniqueKeys(s, key) && HasKey(s, key, k)
    ensures |RemoveKey(s, key, k)| == |s| - 1
  {
    var p := KeyIsNot(key, k);
    var i :| 0 <= i < |s| && key(s[i]) == k;
    assert s == s[..i] + [s[i]] + s[i + 1..];
    FilterConcat(s[..i] + [s[i]], s[i + 1..], p);
    FilterConcat(s[..i], [s[i]], p);
    FilterKeepsAll(s[..i], p);
    FilterKeepsAll(s[i + 1..], p);
  }

  /** Filtering never introduces a shared key. */
  lemma {:induction false} FilterKeepsUnique<T>(s: seq<T>, key: T -> string, p: T -> bool)
    requires UniqueKeys(s, key)
    ensures UniqueKeys(Filter(s, p), key)
  {
    if |s| > 0 {
      var tail := s[1..];
      assert UniqueKeys(tail, key) by {
        forall i, j | 0 <= i < j < |tail|
          ensures key(tail[i]) != key(tail[j])
        {
          assert tail[i] == s[i + 1] && tail[j] == s[j + 1];
        }
      }
      FilterKeepsUnique(tail, key, p);
      FilterSpec(tail, p);
      var rest := Filter(tail, p);
      if p(s[0]) {
        forall i | 0 <= i < |rest|
          ensures key(rest[i]) != key(s[0])
        {
          assert rest[i] in tail;
          var j :| 0 <= j < |tail| && tail[j] == rest[i];
          assert tail[j] == s[j + 1];
        }
        var r := [s[0]] + rest;
        assert Filter(s, p) == r;
        forall i, j | 0 <= i < j < |r|
          ensures key(r[i]) != key(r[j])
        {
          if i > 0 {
            assert r[i] == rest[i - 1] && r[j] == rest[j - 1];
          } else {
            assert r[j] == rest[j - 1];
          }
        }
      }
    }
  }

  /** After an upsert exactly one record has the key of `x`: `x` itself, in last place. */
  lemma UpsertExactlyOne<T>(s: seq<T>, key: T -> string, x: T)
    ensures |UpsertKey(s, key, x)| > 0
    ensures UpsertKey(s, key, x)[|UpsertKey(s, key, x)| - 1] == x
    ensures forall i :: 0 <= i < |UpsertKey(s, key, x)| - 1 ==> key(UpsertKey(s, key, x)[i]) != key(x)
  {
  }

  /**
   * An upsert keeps every record with another key, as often as the list holds it, in its original
   * relative order, and no other.
   */
  lemma UpsertKeepsOthers<T>(s: seq<T>, key: T -> string, x: T)
    ensures forall i :: 0 <= i < |s| && key(s[i]) != key(x) ==> s[i] in UpsertKey(s, key, x)
    ensures forall i :: 0 <= i < |UpsertKey(s, key, x)| - 1 ==> UpsertKey(s, key, x)[i] in s
    ensures IsSubsequence(UpsertKey(s, key, x)[..|UpsertKey(s, key, x)| - 1], s)
    ensures forall v :: multiset(UpsertKey(s, key, x)[..|UpsertKey(s, key, x)| - 1])[v] ==
                        (if key(v) != key(x) then multiset(s)[v] else 0)
  {
    var r := UpsertKey(s, key, x);
    assert r[..|r| - 1] == RemoveKey(s, key, key(x));
    FilterCounts(s, KeyIsNot(key, key(x)));
  }

  /**
   * On a list with unique keys an upsert replaces (same length) when the key is present and
   * appends (one longer) when it is new, and the keys stay unique.
   */
  lemma UpsertLength<T>(s: seq<T>, key: T -> string, x: T)
    requires UniqueKeys(s, key)
    ensures |UpsertKey(s, key, x)| == if HasKey(s, key, key(x)) then |s| else |s| + 1
    ensures UniqueKeys(UpsertKey(s, key, x), key)
  {
    if HasKey(s, key, key(x)) {
      RemovePresentKey(s, key, key(x));
    } else {
      RemoveAbsentKey(s, key, key(x));
    }
    FilterKeepsUnique(s, key, KeyIsNot(key, key(x)));
  }

  // ---------------------------------------------------------------------------------------------
  // The stored record and the operations on it.

  /** The record loadPreferences builds when nothing usable is stored. */
  function EmptyPreferences(now: Timestamp): UserPreferences {
    UserPreferences([], [], [], now)
  }

  /** What loadPreferences returns for a blob (dates re-parsed from ISO strings are the dates saved). */
  function Decode(blob: Blob, now: Timestamp): UserPreferences {
    match blob
    case Stored(p) => p
    case _ => EmptyPreferences(now)
  }

  /** At most one record per identifier in each of the three lists. */
  predicate WellFormed(p: UserPreferences) {
    UniqueKeys(p.artworks, ArtworkKey) && UniqueKeys(p.artists, ArtistKey) && UniqueKeys(p.epochs, EpochKey)
  }

  /** The record written by savePreferences: the same lists, stamped with the save time. */
  function Stamp(p: UserPreferences, now: Timestamp): UserPreferences {
    p.(lastUpdated := now)
  }

  function WithArtwork(p: UserPreferences, rec: ArtworkPreference): UserPreferences {
    p.(artworks := UpsertKey(p.artworks, ArtworkKey, rec))
  }

  function WithoutArtwork(p: UserPreferences, artworkId: string): UserPreferences {
    p.(artworks := RemoveKey(p.artworks, ArtworkKey, artworkId))
  }

  function WithArtist(p: UserPreferences, rec: ArtistPreference): UserPreferences {
    p.(artists := UpsertKey(p.artists, ArtistKey, rec))
  }

  function WithEpoch(p: UserPreferences, rec: EpochPreference): UserPreferences {
    p.(epochs := UpsertKey(p.epochs, EpochKey, rec))
  }

  /** The stored record holds an artwork preference for `artworkId`. */
  predicate ArtworkSaved(blob: Blob, artworkId: string) {
    blob.Stored? && HasKey(blob.prefs.artworks, ArtworkKey, artworkId)
  }

  /** The blob addArtworkPreference writes. */
  function AfterAddArtwork(blob: Blob, rec: ArtworkPreference, now: Timestamp): Blob {
    Stored(Stamp(WithArtwork(Decode(blob, now), rec), now))
  }

  /** The blob removeArtworkPreference writes. */
  function AfterRemoveArtwork(blob: Blob, artworkId: string, now: Timestamp): Blob {
    Stored(Stamp(WithoutArtwork(Decode(blob, now), artworkId), now))
  }

  /**
   * addArtworkPreference: afterwards the artwork is saved, its record is the last one and carries the
   * new fields, the artist and epoch lists are untouched, and a well-formed record stays well-formed.
   */
  lemma AddArtworkEffect(blob: Blob, rec: ArtworkPreference, now: Timestamp)
    ensures ArtworkSaved(AfterAddArtwork(blob, rec, now), rec.artworkId)
    ensures var after := AfterAddArtwork(blob, rec, now).prefs;
      after.artworks[|after.artworks| - 1] == rec &&
      after.artists == Decode(blob, now).artists && after.epochs == Decode(blob, now).epochs &&
      after.lastUpdated == now
    ensures WellFormed(Decode(blob, now)) ==> WellFormed(AfterAddArtwork(blob, rec, now).prefs)
  {
    var before := Decode(blob, now);
    UpsertExactlyOne(before.artworks, ArtworkKey, rec);
    var after := AfterAddArtwork(blob, rec, now).prefs;
    assert ArtworkKey(after.artworks[|after.artworks| - 1]) == rec.artworkId;
    if WellFormed(before) {
      UpsertLength(before.artworks, ArtworkKey, rec);
    }
  }

  /**
   * removeArtworkPreference: afterwards the artwork is not saved, every other artwork record is kept
   * in order, and the other lists are untouched; removing an absent id leaves the list as it was.
   */
  lemma RemoveArtworkEffect(blob: Blob, artworkId: string, now: Timestamp)
    ensures !ArtworkSaved(AfterRemoveArtwork(blob, artworkId, now), artworkId)
    ensures var before := Decode(blob, now); var after := AfterRemoveArtwork(blob, artworkId, now).prefs;
      IsSubsequence(after.artworks, before.artworks) &&
      (forall i :: 0 <= i < |before.artworks| && before.artworks[i].artworkId != artworkId ==>
        before.artworks[i] in after.artworks) &&
      after.artists == before.artists && after.epochs == before.epochs
    ensures !HasKey(Decode(blob, now).artworks, ArtworkKey, artworkId) ==>
      AfterRemoveArtwork(blob, artworkId, now).prefs.artworks == Decode(blob, now).artworks
  {
    var before := Decode(blob, now);
    if !HasKey(before.artworks, ArtworkKey, artworkId) {
      RemoveAbsentKey(before.artworks, ArtworkKey, artworkId);
    }
  }

  /** After the removal exactly the records with other keys that were there are still there. */
  lemma RemoveKeyHasKey<T>(s: seq<T>, key: T -> string, k: string, x: string)
    ensures HasKey(RemoveKey(s, key, k), key, x) <==> x != k && HasKey(s, key, x)
  {
    var r := RemoveKey(s, key, k);
    if x != k && HasKey(s, key, x) {
      var i :| 0 <= i < |s| && key(s[i]) == x;
      var j :| 0 <= j < |r| && r[j] == s[i];
    }
    if HasKey(r, key, x) {
      var j :| 0 <= j < |r| && key(r[j]) == x;
      var i :| 0 <= i < |s| && s[i] == r[j];
    }
  }

  /** A record appended to a list adds its key and no other. */
  lemma HasKeyAppend<T>(s: seq<T>, key: T -> string, y: T, x: string)
    ensures HasKey(s + [y], key, x) <==> key(y) == x || HasKey(s, key, x)
  {
    if HasKey(s + [y], key, x) && key(y) != x {
      var j :| 0 <= j < |s| + 1 && key((s + [y])[j]) == x;
      assert (s + [y])[j] == s[j];
    }
    if HasKey(s, key, x) {
      var j :| 0 <= j < |s| && key(s[j]) == x;
      assert (s + [y])[j] == s[j];
    }
    if key(y) == x {
      assert (s + [y])[|s|] == y;
    }
  }

  /** After addArtworkPreference exactly the added artwork and the artworks saved before are saved. */
  lemma AddArtworkSavedIff(blob: Blob, rec: ArtworkPreference, now: Timestamp)
    ensures forall x :: ArtworkSaved(AfterAddArtwork(blob, rec, now), x) <==> x == rec.artworkId || ArtworkSaved(blob, x)
  {
    var before := Decode(blob, now).artworks;
    var kept := RemoveKey(before, ArtworkKey, rec.artworkId);
    forall x
      ensures ArtworkSaved(AfterAddArtwork(blob, rec, now), x) <==> x == rec.artworkId || ArtworkSaved(blob, x)
    {
      RemoveKeyHasKey(before, ArtworkKey, rec.artworkId, x);
      HasKeyAppend(kept, ArtworkKey, rec, x);
    }
  }

  /** After removeArtworkPreference exactly the artworks saved before, other than the removed one, are saved. */
  lemma RemoveArtworkSavedIff(blob: Blob, artworkId: string, now: Timestamp)
    ensures forall x :: ArtworkSaved(AfterRemoveArtwork(blob, artworkId, now), x) <==> x != artworkId && ArtworkSaved(blob, x)
  {
    forall x
      ensures ArtworkSaved(AfterRemoveArtwork(blob, artworkId, now), x) <==> x != artworkId && ArtworkSaved(blob, x)
    {
      RemoveKeyHasKey(Decode(blob, now).artworks, ArtworkKey, artworkId, x);
    }
  }

  /** addArtistPreference and addEpochPreference: the same upsert on their own list, nothing else changed. */
  lemma AddArtistAndEpochEffect(p: UserPreferences, artist: ArtistPreference, epoch: EpochPreference)
    ensures var q := WithArtist(p, artist);
      q.artists[|q.artists| - 1] == artist &&
      (forall i :: 0 <= i < |q.artists| - 1 ==> q.artists[i].artistId != artist.artistId) &&
      q.artworks == p.artworks && q.epochs == p.epochs
    ensures var q := WithEpoch(p, epoch);
      q.epochs[|q.epochs| - 1] == epoch &&
      (forall i :: 0 <= i < |q.epochs| - 1 ==> q.epochs[i].epochId != epoch.epochId) &&
      q.artworks == p.artworks && q.artists == p.artists
    ensures WellFormed(p) ==> WellFormed(WithArtist(p, artist)) && WellFormed(WithEpoch(p, epoch))
  {
    UpsertExactlyOne(p.artists, ArtistKey, artist);
    UpsertExactlyOne(p.epochs, EpochKey, epoch);
    if WellFormed(p) {
      UpsertLength(p.artists, ArtistKey, artist);
      UpsertLength(p.epochs, EpochKey, epoch);
    }
  }

  /** The single storage key, with localStorage as the in-memory blob it holds. */
  class PreferenceStore {
    var blob: Blob

    constructor (initial: Blob)
      ensures blob == initial
    {
      blob := initial;
    }

    /** The stored record has at most one record per identifier in each list (or there is none). */
    predicate Valid()
      reads this
    {
      blob.Stored? ==> WellFormed(blob.prefs)
    }

    /** loadPreferences: the stored record, or empty lists when nothing usable is stored. */
    method Load(now: Timestamp) returns (p: UserPreferences)
      ensures p == Decode(blob, now)
      ensures blob.Stored? ==> p == blob.prefs
      ensures !blob.Stored? ==> p.artworks == [] && p.artists == [] && p.epochs == [] && p.lastUpdated == now
    {
      match blob
      case Stored(q) =>
        p := q;
      case _ =>
        p := EmptyPreferences(now);
    }

    /** savePreferences: stamps the record with the save time and writes it. */
    method Save(p: UserPreferences, now: Timestamp) returns (stamped: UserPreferences)
      modifies this
      ensures stamped == Stamp(p, now) && blob == Stored(stamped)
    {
      stamped := p.(lastUpdated := now);
      blob := Stored(stamped);
    }

    method AddArtworkPreference(artworkId: string, artworkTitle: string, artist: string,
                                rating: Option<int>, notes: Option<string>, now: Timestamp)
      modifies this
      ensures blob == AfterAddArtwork(old(blob), ArtworkPreference(artworkId, artworkTitle, artist, now, rating, notes), now)
      ensures old(Valid()) ==> Valid()
    {
      var preferences := Load(now);
      preferences := preferences.(artworks := Filter(preferences.artworks, KeyIsNot(ArtworkKey, artworkId)));
      var preference := ArtworkPreference(artworkId, artworkTitle, artist, now, rating, notes);
      preferences := preferences.(artworks := preferences.artworks + [preference]);
      var _ := Save(preferences, now);
      AddArtworkEffect(old(blob), preference, now);
    }

    method RemoveArtworkPreference(artworkId: string, now: Timestamp)
      modifies this
      ensures blob == AfterRemoveArtwork(old(blob), artworkId, now)
      ensures old(Valid()) ==> Valid()
    {
      var preferences := Load(now);
      preferences := preferences.(artworks := Filter(preferences.artworks, KeyIsNot(ArtworkKey, artworkId)));
      var _ := Save(preferences, now);
      if old(Valid()) && old(blob).Stored? {
        FilterKeepsUnique(old(blob).prefs.artworks, ArtworkKey, KeyIsNot(ArtworkKey, artworkId));
      }
    }

    /** addArtistPreference; `artworks` is the related artwork ids, `[]` when omitted. */
    method AddArtistPreference(artistId: string, artistName: string, artworks: Option<seq<string>>, now: Timestamp)
      modifies this
      ensures blob == Stored(Stamp(WithArtist(Decode(old(blob), now), ArtistPreference(artistId, artistName, now, artworks.GetOr([]))), now))
      ensures old(Valid()) ==> Valid()
    {
      var preferences := Load(now);
      preferences := preferences.(artists := Filter(preferences.artists, KeyIsNot(ArtistKey, artistId)));
      var preference := ArtistPreference(artistId, artistName, now, artworks.GetOr([]));
      preferences := preferences.(artists := preferences.artists + [preference]);
      var _ := Save(preferences, now);
      AddArtistAndEpochEffect(Decode(old(blob), now), preference, EpochPreference("", "", now, []));
    }

    /** addEpochPreference; `artworks` is the related artwork ids, `[]` when omitted. */
    method AddEpochPreference(epochId: string, epochName: string, artworks: Option<seq<string>>, now: Timestamp)
      modifies this
      ensures blob == Stored(Stamp(WithEpoch(Decode(old(blob), now), EpochPreference(epochId, epochName, now, artworks.GetOr([]))), now))
      ensures old(Valid()) ==> Valid()
    {
      var preferences := Load(now);
      preferences := preferences.(epochs := Filter(preferences.epochs, KeyIsNot(EpochKey, epochId)));
      var preference := EpochPreference(epochId, epochName, now, artworks.GetOr([]));
      preferences := preferences.(epochs := preferences.epochs + [preference]);
      var _ := Save(preferences, now);
      AddArtistAndEpochEffect(Decode(old(blob), now), ArtistPreference("", "", now, []), preference);
    }

    /** clearPreferences: removes the key. */
    method ClearPreferences()
      modifies this
      ensures blob == Absent
    {
      blob := Absent;
    }
  }

  /** A client of the store: after clearing, loading yields empty lists. */
  method ClearThenLoad(store: PreferenceStore, now: Timestamp) returns (p: UserPreferences)
    modifies store
    ensures p == EmptyPreferences(now)
  {
    store.ClearPreferences();
    p := store.Load(now);
  }

  // ---------------------------------------------------------------------------------------------
  // generateRecommendations

  /** `Math.min(count / 5, 1)`: a linear ramp that saturates at five liked works. */
  function Confidence(count: nat): real {
    if (count as real) / 5.0 < 1.0 then (count as real) / 5.0 else 1.0
  }

  /** `artist.toLowerCase().replace(/\s+/g, '-')` */
  function ArtistSlug(artist: string): string {
    ReplaceRuns(Lower(artist), IsJsSpace, '-')
  }

  function ReasonFor(count: nat): string {
    "You've liked " + NatToDecimal(count) + " artworks by this artist"
  }

  /** The recommendation pushed for an artist with `count` liked works. */
  function RecommendationFor(artist: string, count: nat): PreferenceRecommendation {
    PreferenceRecommendation(ArtistSuggestion, ArtistSlug(artist), artist, ReasonFor(count), Confidence(count))
  }

  /** The number of artwork records whose artist is `artist` (exact, case-sensitive match). */
  function ArtistCount(s: seq<ArtworkPreference>, artist: string): nat {
    if |s| == 0 then 0
    else ArtistCount(s[..|s| - 1], artist) + (if s[|s| - 1].artist == artist then 1 else 0)
  }

  /** The distinct artists of `s` in order of first appearance: the key order of the counts object. */
  function ArtistsInOrder(s: seq<ArtworkPreference>): seq<string> {
    if |s| == 0 then []
    else
      var d := ArtistsInOrder(s[..|s| - 1]);
      if s[|s| - 1].artist in d then d else d + [s[|s| - 1].artist]
  }

  /**
   * The keys of the counts object: each artist once, every artist of the records, and only
   * artists with a positive count.
   */
  lemma {:induction false} ArtistsInOrderSpec(s: seq<ArtworkPreference>)
    ensures Distinct(ArtistsInOrder(s))
    ensures forall i :: 0 <= i < |s| ==> s[i].artist in ArtistsInOrder(s)
    ensures forall i :: 0 <= i < |ArtistsInOrder(s)| ==> ArtistCount(s, ArtistsInOrder(s)[i]) > 0
  {
    if |s| > 0 {
      var init := s[..|s| - 1];
      ArtistsInOrderSpec(init);
      assert forall i :: 0 <= i < |s| - 1 ==> s[i] == init[i];
    }
  }

  /** An artist that does not appear has a count of zero. */
  lemma {:induction false} AbsentArtistCount(s: seq<ArtworkPreference>, artist: string)
    requires artist !in ArtistsInOrder(s)
    ensures ArtistCount(s, artist) == 0
  {
    if |s| > 0 {
      var d := ArtistsInOrder(s[..|s| - 1]);
      assert artist !in d;
      AbsentArtistCount(s[..|s| - 1], artist);
    }
  }

  /** One recommendation per listed artist with at least two liked works, in list order. */
  function Emit(artists: seq<string>, s: seq<ArtworkPreference>): seq<PreferenceRecommendation> {
    if |artists| == 0 then []
    else
      var last := artists[|artists| - 1];
      Emit(artists[..|artists| - 1], s) +
        (if ArtistCount(s, last) >= 2 then [RecommendationFor(last, ArtistCount(s, last))] else [])
  }

  /** The sort key: descending confidence is ascending negated confidence. */
  function NegatedConfidence(r: PreferenceRecommendation): real {
    -r.confidence
  }

  /**
   * generateRecommendations as a function of the artwork list; the empty epoch `forEach` changes
   * nothing and is left out.
   */
  function Recommendations(s: seq<ArtworkPreference>): seq<PreferenceRecommendation> {
    SortBy(Emit(ArtistsInOrder(s), s), NegatedConfidence)
  }

  /** Reading one more record: its artist is added if new, and its count goes up by one. */
  lemma CountStep(works: seq<ArtworkPreference>, i: nat)
    requires i < |works|
    ensures ArtistsInOrder(works[..i + 1]) ==
      if works[i].artist in ArtistsInOrder(works[..i]) then ArtistsInOrder(works[..i])
      else ArtistsInOrder(works[..i]) + [works[i].artist]
    ensures forall a :: ArtistCount(works[..i + 1], a) == ArtistCount(works[..i], a) + (if a == works[i].artist then 1 else 0)
    ensures works[i].artist !in ArtistsInOrder(works[..i]) ==> ArtistCount(works[..i], works[i].artist) == 0
  {
    assert works[..i + 1][..i] == works[..i];
    if works[i].artist !in ArtistsInOrder(works[..i]) {
      AbsentArtistCount(works[..i], works[i].artist);
    }
  }

  /**
   * The `forEach` that fills `artworkCounts`: the artists in order of first appearance, and for each
   * one the number of records naming it.
   */
  method CountByArtist(works: seq<ArtworkPreference>) returns (artworkCounts: map<string, nat>, keys: seq<string>)
    ensures keys == ArtistsInOrder(works)
    ensures forall a :: a in artworkCounts <==> a in keys
    ensures forall a :: a in artworkCounts ==> artworkCounts[a] == ArtistCount(works, a)
  {
    artworkCounts := map[];
    keys := [];
    var i := 0;
    while i < |works|
      invariant 0 <= i <= |works|
      invariant keys == ArtistsInOrder(works[..i])
      invariant forall a :: a in artworkCounts <==> a in keys
      invariant forall a :: a in artworkCounts ==> artworkCounts[a] == ArtistCount(works[..i], a)
    {
      var artist := works[i].artist;
      CountStep(works, i);
      if artist in artworkCounts {
        artworkCounts := artworkCounts[artist := artworkCounts[artist] + 1];
      } else {
        artworkCounts := artworkCounts[artist := 1];
        keys := keys + [artist];
      }
      i := i + 1;
    }
    assert works[..i] == works;
  }

  method GenerateRecommendations(preferences: UserPreferences) returns (recommendations: seq<PreferenceRecommendation>)
    ensures recommendations == Recommendations(preferences.artworks)
  {
    var works := preferences.artworks;
    var artworkCounts, keys := CountByArtist(works);
    var pending: seq<PreferenceRecommendation> := [];
    var j := 0;
    while j < |keys|
      invariant 0 <= j <= |keys|
      invariant pending == Emit(keys[..j], works)
    {
      var artist := keys[j];
      assert keys[..j + 1][..j] == keys[..j];
      if artworkCounts[artist] >= 2 {
        pending := pending + [RecommendationFor(artist, artworkCounts[artist])];
      }
      j := j + 1;
    }
    assert keys[..j] == keys;
    recommendations := SortBy(pending, NegatedConfidence);
  }

  /** Every emitted recommendation is the one for a listed artist with at least two liked works. */
  lemma {:induction false} EmitSound(artists: seq<string>, s: seq<ArtworkPreference>)
    ensures forall i :: 0 <= i < |Emit(artists, s)| ==>
      Emit(artists, s)[i].title in artists &&
      ArtistCount(s, Emit(artists, s)[i].title) >= 2 &&
      Emit(artists, s)[i] == RecommendationFor(Emit(artists, s)[i].title, ArtistCount(s, Emit(artists, s)[i].title))
  {
    if |artists| > 0 {
      EmitSound(artists[..|artists| - 1], s);
    }
  }

  /** Every listed artist with at least two liked works gets its recommendation. */
  lemma {:induction false} EmitComplete(artists: seq<string>, s: seq<ArtworkPreference>, artist: string)
    requires artist in artists && ArtistCount(s, artist) >= 2
    ensures RecommendationFor(artist, ArtistCount(s, artist)) in Emit(artists, s)
  {
    var init := artists[..|artists| - 1];
    if artist != artists[|artists| - 1] {
      assert artists == init + [artists[|artists| - 1]];
      EmitComplete(init, s, artist);
    }
  }

  /** Distinct artists give recommendations with distinct titles. */
  lemma {:induction false} EmitDistinctTitles(artists: seq<string>, s: seq<ArtworkPreference>)
    requires Distinct(artists)
    ensures forall i, j :: 0 <= i < j < |Emit(artists, s)| ==> Emit(artists, s)[i].title != Emit(artists, s)[j].title
  {
    if |artists| > 0 {
      var init := artists[..|artists| - 1];
      EmitDistinctTitles(init, s);
      EmitSound(init, s);
      assert artists[|artists| - 1] !in init;
    }
  }

  /**
   * The recommendations are exactly one per artist with at least two liked works: each is the one for
   * its artist (count, confidence `min(count/5, 1)`, slug id), no artist has two, and none is missing.
   */
  lemma RecommendationsExact(s: seq<ArtworkPreference>)
    ensures forall i :: 0 <= i < |Recommendations(s)| ==>
      ArtistCount(s, Recommendations(s)[i].title) >= 2 &&
      Recommendations(s)[i] == RecommendationFor(Recommendations(s)[i].title, ArtistCount(s, Recommendations(s)[i].title))
    ensures forall i, j :: 0 <= i < j < |Recommendations(s)| ==> Recommendations(s)[i].title != Recommendations(s)[j].title
  {
    var artists := ArtistsInOrder(s);
    var pending := Emit(artists, s);
    var r := Recommendations(s);
    ArtistsInOrderSpec(s);
    EmitSound(artists, s);
    EmitDistinctTitles(artists, s);
    forall i | 0 <= i < |r|
      ensures r[i] in pending
    {
      assert r[i] in multiset(r);
    }
    assert Distinct(pending);
    DistinctPermutation(pending, r);
  }

  /** An artist with at least two liked works is recommended. */
  lemma RecommendationsComplete(s: seq<ArtworkPreference>, artist: string)
    requires ArtistCount(s, artist) >= 2
    ensures RecommendationFor(artist, ArtistCount(s, artist)) in Recommendations(s)
  {
    if artist !in ArtistsInOrder(s) {
      AbsentArtistCount(s, artist);
    }
    EmitComplete(ArtistsInOrder(s), s, artist);
    var x := RecommendationFor(artist, ArtistCount(s, artist));
    assert x in multiset(Emit(ArtistsInOrder(s), s));
  }

  /** The list is ordered by non-increasing confidence, and every confidence lies in [0.4, 1]. */
  lemma RecommendationsOrdered(s: seq<ArtworkPreference>)
    ensures forall i, j :: 0 <= i < j < |Recommendations(s)| ==>
      Recommendations(s)[i].confidence >= Recommendations(s)[j].confidence
    ensures forall i :: 0 <= i < |Recommendations(s)| ==> 0.4 <= Recommendations(s)[i].confidence <= 1.0
  {
    var r := Recommendations(s);
    assert SortedBy(r, NegatedConfidence);
    forall i, j | 0 <= i < j < |r|
      ensures r[i].confidence >= r[j].confidence
    {
      assert NegatedConfidence(r[i]) <= NegatedConfidence(r[j]);
    }
    RecommendationsExact(s);
  }

  /**
   * Recommendations that tie on the sort key `k` (confidence `-k`) keep the order in which their
   * artists first appear.
   */
  lemma RecommendationsTiesKeepOrder(s: seq<ArtworkPreference>, k: real)
    ensures Filter(Recommendations(s), KeyIs(NegatedConfidence, k)) ==
            Filter(Emit(ArtistsInOrder(s), s), KeyIs(NegatedConfidence, k))
  {
    SortByStable(Emit(ArtistsInOrder(s), s), NegatedConfidence, k);
  }

  /** The counting pass on three works by `a` followed by one by `b`. */
  lemma ThreeAndOneCounts(w1: ArtworkPreference, w2: ArtworkPreference, w3: ArtworkPreference, w4: ArtworkPreference)
    requires w1.artist == w2.artist == w3.artist != w4.artist
    ensures ArtistsInOrder([w1, w2, w3, w4]) == [w1.artist, w4.artist]
    ensures ArtistCount([w1, w2, w3, w4], w1.artist) == 3
    ensures ArtistCount([w1, w2, w3, w4], w4.artist) == 1
  {
    var s := [w1, w2, w3, w4];
    var a, b := w1.artist, w4.artist;
    assert s[..3] == [w1, w2, w3] && [w1, w2, w3][..2] == [w1, w2] && [w1, w2][..1] == [w1] && [w1][..0] == [];
    assert ArtistsInOrder([w1]) == [a];
    assert ArtistsInOrder([w1, w2]) == [a];
    assert ArtistsInOrder([w1, w2, w3]) == [a];
    assert ArtistCount([w1], a) == 1 && ArtistCount([w1], b) == 0;
    assert ArtistCount([w1, w2], a) == 2 && ArtistCount([w1, w2], b) == 0;
    assert ArtistCount([w1, w2, w3], a) == 3 && ArtistCount([w1, w2, w3], b) == 0;
  }

  /** Three liked works by one artist and one by another give a single recommendation, at 0.6. */
  lemma ThreeAndOne(w1: ArtworkPreference, w2: ArtworkPreference, w3: ArtworkPreference, w4: ArtworkPreference)
    requires w1.artist == w2.artist == w3.artist != w4.artist
    ensures Recommendations([w1, w2, w3, w4]) == [RecommendationFor(w1.artist, 3)]
    ensures Recommendations([w1, w2, w3, w4])[0].confidence == 0.6
  {
    var s := [w1, w2, w3, w4];
    var a, b := w1.artist, w4.artist;
    ThreeAndOneCounts(w1, w2, w3, w4);
    var two := [a, b];
    assert two[..1] == [a] && [a][..0] == [];
    assert Emit([a], s) == [RecommendationFor(a, 3)];
    assert Emit(two, s) == [RecommendationFor(a, 3)];
    var one := [RecommendationFor(a, 3)];
    assert one[1..] == [];
    assert SortBy(one, NegatedConfidence) == InsertBy(one[0], [], NegatedConfidence);
  }

  /** No liked artworks, no recommendations. */
  lemma NoArtworksNoRecommendations()
    ensures Recommendations([]) == []
  {
  }
}
