/**
 * The de-duplication in getAllArtworks of app/lib/art/allArtworks.ts: a `reduce` that appends an
 * artwork unless the accumulator already holds one with its id.
 */
module ArtworkDedup {
  import opened Wrappers
  import opened Seqs
  import opened Types

  /** Some artwork of `s` has the id. */
  predicate HasArtworkId(s: seq<Artwork>, id: string) {
    exists j :: 0 <= j < |s| && s[j].id == id
  }

  /** No two artworks of `s` share an id. */
  predicate DistinctIds(s: seq<Artwork>) {
    forall i, j :: 0 <= i < j < |s| ==> s[i].id != s[j].id
  }

  /** Every id of `prefix` has an artwork in `acc`. */
  predicate Covers(acc: seq<Artwork>, prefix: seq<Artwork>) {
    forall k :: 0 <= k < |prefix| ==> HasArtworkId(acc, prefix[k].id)
  }

  /** Each artwork of `acc` is the first artwork of `prefix` with its id. */
  predicate FirstWins(acc: seq<Artwork>, prefix: seq<Artwork>) {
    forall j :: 0 <= j < |acc| ==> Find(prefix, ArtworkIdIs(acc[j].id)) == Some(acc[j])
  }

  /**
   * The reference for the de-duplication: the artworks of `s` at the positions where no earlier
   * artwork has the same id, in the order of `s`.
   */
  function FirstOccurrences(s: seq<Artwork>): seq<Artwork> {
    if |s| == 0 then []
    else
      var init := s[..|s| - 1];
      FirstOccurrences(init) + (if HasArtworkId(init, s[|s| - 1].id) then [] else [s[|s| - 1]])
  }

  /** One more artwork: it is kept exactly when no artwork before it has its id. */
  lemma FirstOccurrencesAppend(prefix: seq<Artwork>, x: Artwork)
    ensures FirstOccurrences(prefix + [x]) ==
      FirstOccurrences(prefix) + (if HasArtworkId(prefix, x.id) then [] else [x])
  {
    assert (prefix + [x])[..|prefix|] == prefix;
  }

  /** A record repeated after another keeps its first place: `[a, b, a]` gives `[a, b]`. */
  lemma RepeatedRecordKeepsFirstPlace(a: Artwork, b: Artwork)
    requires a.id != b.id
    ensures FirstOccurrences([a, b, a]) == [a, b]
  {
    FirstOccurrencesAppend([], a);
    FirstOccurrencesAppend([a], b);
    FirstOccurrencesAppend([a, b], a);
    assert [a] + [b] == [a, b] && [a, b] + [a] == [a, b, a];
    assert HasArtworkId([a, b], a.id) by {
      assert [a, b][0].id == a.id;
    }
  }

  /**
   * What a de-duplication of `prefix` must be: distinct ids, every id of `prefix`, for each id
   * the first artwork of `prefix` with it, the order of `prefix`; `prefix` itself when its ids
   * are already distinct.
   */
  ghost predicate DedupOf(acc: seq<Artwork>, prefix: seq<Artwork>) {
    && DistinctIds(acc)
    && Covers(acc, prefix)
    && FirstWins(acc, prefix)
    && IsSubsequence(acc, prefix)
    && (DistinctIds(prefix) ==> acc == prefix)
  }

  /** The first artwork found for an id stays the first one when the input grows. */
  lemma FirstStaysFirst(acc: seq<Artwork>, prefix: seq<Artwork>, x: Artwork)
    requires FirstWins(acc, prefix)
    ensures forall j :: 0 <= j < |acc| ==> Find(prefix + [x], ArtworkIdIs(acc[j].id)) == Some(acc[j])
  {
    forall j | 0 <= j < |acc|
      ensures Find(prefix + [x], ArtworkIdIs(acc[j].id)) == Some(acc[j])
    {
      FindConcat(prefix, [x], ArtworkIdIs(acc[j].id));
    }
  }

  /** An id that `acc` does not have is not in `prefix` either. */
  lemma UnseenId(acc: seq<Artwork>, prefix: seq<Artwork>, x: Artwork)
    requires Covers(acc, prefix)
    requires Find(acc, ArtworkIdIs(x.id)).None?
    ensures !HasArtworkId(acc, x.id)
    ensures Find(prefix, ArtworkIdIs(x.id)).None?
  {
    forall k | 0 <= k < |prefix|
      ensures prefix[k].id != x.id
    {
      assert HasArtworkId(acc, prefix[k].id);
    }
  }

  lemma AppendFirstWins(acc: seq<Artwork>, prefix: seq<Artwork>, x: Artwork)
    requires FirstWins(acc, prefix)
    requires Find(prefix, ArtworkIdIs(x.id)).None?
    ensures FirstWins(acc + [x], prefix + [x])
  {
    FirstStaysFirst(acc, prefix, x);
    FindConcat(prefix, [x], ArtworkIdIs(x.id));
    var next := acc + [x];
    forall j | 0 <= j < |next|
      ensures Find(prefix + [x], ArtworkIdIs(next[j].id)) == Some(next[j])
    {
      if j < |acc| {
        assert next[j] == acc[j];
      }
    }
  }

  lemma AppendCovers(acc: seq<Artwork>, prefix: seq<Artwork>, x: Artwork)
    requires Covers(acc, prefix)
    ensures Covers(acc + [x], prefix + [x])
  {
    var next, grown := acc + [x], prefix + [x];
    forall k | 0 <= k < |grown|
      ensures HasArtworkId(next, grown[k].id)
    {
      if k < |prefix| {
        var j :| 0 <= j < |acc| && acc[j].id == prefix[k].id;
        assert next[j] == acc[j];
      } else {
        assert next[|acc|] == x;
      }
    }
  }

  lemma AppendDistinct(acc: seq<Artwork>, x: Artwork)
    requires DistinctIds(acc)
    requires !HasArtworkId(acc, x.id)
    ensures DistinctIds(acc + [x])
  {
    var next := acc + [x];
    forall i, j | 0 <= i < j < |next|
      ensures next[i].id != next[j].id
    {
      assert next[i] == acc[i];
      if j < |acc| {
        assert next[j] == acc[j];
      }
    }
  }

  /** Distinct ids in a sequence are distinct in each of its prefixes. */
  lemma DistinctPrefix(prefix: seq<Artwork>, x: Artwork)
    requires DistinctIds(prefix + [x])
    ensures DistinctIds(prefix)
  {
    var grown := prefix + [x];
    forall i, j | 0 <= i < j < |prefix|
      ensures prefix[i].id != prefix[j].id
    {
      assert grown[i] == prefix[i] && grown[j] == prefix[j];
    }
  }

  /** An artwork with an unseen id is appended. */
  lemma DedupAppend(acc: seq<Artwork>, prefix: seq<Artwork>, x: Artwork)
    requires DedupOf(acc, prefix)
    requires Find(acc, ArtworkIdIs(x.id)).None?
    ensures DedupOf(acc + [x], prefix + [x])
  {
    UnseenId(acc, prefix, x);
    AppendDistinct(acc, x);
    AppendCovers(acc, prefix, x);
    AppendFirstWins(acc, prefix, x);
    SubsequenceAppend(acc, prefix, x);
    if DistinctIds(prefix + [x]) {
      DistinctPrefix(prefix, x);
    }
  }

  lemma SkipCovers(acc: seq<Artwork>, prefix: seq<Artwork>, x: Artwork)
    requires Covers(acc, prefix)
    requires Find(acc, ArtworkIdIs(x.id)).Some?
    ensures Covers(acc, prefix + [x])
  {
    var grown := prefix + [x];
    forall k | 0 <= k < |grown|
      ensures HasArtworkId(acc, grown[k].id)
    {
      if k < |prefix| {
        assert grown[k] == prefix[k];
      }
    }
  }

  /** A seen id read again was read before, so the input repeats an id. */
  lemma SkipRepeats(acc: seq<Artwork>, prefix: seq<Artwork>, x: Artwork)
    requires FirstWins(acc, prefix)
    requires Find(acc, ArtworkIdIs(x.id)).Some?
    ensures HasArtworkId(prefix, x.id)
    ensures !DistinctIds(prefix + [x])
  {
    var grown := prefix + [x];
    var j :| 0 <= j < |acc| && acc[j].id == x.id;
    FindFirst(prefix, ArtworkIdIs(acc[j].id));
    var i :| 0 <= i < |prefix| && prefix[i] == acc[j];
    assert grown[i].id == grown[|prefix|].id;
  }

  /** An artwork whose id was seen is dropped. */
  lemma DedupSkip(acc: seq<Artwork>, prefix: seq<Artwork>, x: Artwork)
    requires DedupOf(acc, prefix)
    requires Find(acc, ArtworkIdIs(x.id)).Some?
    ensures DedupOf(acc, prefix + [x])
  {
    FirstStaysFirst(acc, prefix, x);
    SkipCovers(acc, prefix, x);
    SubsequenceAppend(acc, prefix, x);
    SkipRepeats(acc, prefix, x);
  }

  /** Nothing read, nothing kept. */
  lemma DedupEmpty()
    ensures DedupOf([], [])
  {
  }

  /** An artwork whose id was not read before is a new first occurrence. */
  lemma FirstOccurrencesSnocNew(init: seq<Artwork>, x: Artwork)
    requires DedupOf(FirstOccurrences(init), init)
    requires Find(FirstOccurrences(init), ArtworkIdIs(x.id)).None?
    ensures DedupOf(FirstOccurrences(init + [x]), init + [x])
  {
    var acc := FirstOccurrences(init);
    UnseenId(acc, init, x);
    FirstOccurrencesAppend(init, x);
    assert FirstOccurrences(init + [x]) == acc + [x];
    DedupAppend(acc, init, x);
  }

  /** An artwork whose id was read before adds no first occurrence. */
  lemma FirstOccurrencesSnocSeen(init: seq<Artwork>, x: Artwork)
    requires DedupOf(FirstOccurrences(init), init)
    requires Find(FirstOccurrences(init), ArtworkIdIs(x.id)).Some?
    ensures DedupOf(FirstOccurrences(init + [x]), init + [x])
  {
    var acc := FirstOccurrences(init);
    SkipRepeats(acc, init, x);
    FirstOccurrencesAppend(init, x);
    assert FirstOccurrences(init + [x]) == acc;
    DedupSkip(acc, init, x);
  }

  /** The first occurrences of a sequence are a de-duplication of it. */
  lemma {:induction false} FirstOccurrencesSpec(s: seq<Artwork>)
    ensures DedupOf(FirstOccurrences(s), s)
  {
    if |s| == 0 {
      DedupEmpty();
    } else {
      var init, x := s[..|s| - 1], s[|s| - 1];
      assert s == init + [x];
      FirstOccurrencesSpec(init);
      if Find(FirstOccurrences(init), ArtworkIdIs(x.id)).None? {
        FirstOccurrencesSnocNew(init, x);
      } else {
        FirstOccurrencesSnocSeen(init, x);
      }
    }
  }

  /**
   * One step of the reduce, on the prefix `all[..i]`: `acc.find` on the first occurrences sees
   * the id exactly when an earlier artwork has it, so the step appends the first occurrences.
   */
  lemma DedupStep(acc: seq<Artwork>, all: seq<Artwork>, i: nat)
    requires i < |all|
    requires acc == FirstOccurrences(all[..i])
    ensures FirstOccurrences(all[..i + 1]) ==
      if Find(acc, ArtworkIdIs(all[i].id)).None? then acc + [all[i]] else acc
  {
    var prefix := all[..i];
    assert all[..i + 1] == prefix + [all[i]];
    FirstOccurrencesSpec(prefix);
    FirstOccurrencesAppend(prefix, all[i]);
    if Find(acc, ArtworkIdIs(all[i].id)).None? {
      UnseenId(acc, prefix, all[i]);
    } else {
      SkipRepeats(acc, prefix, all[i]);
    }
  }

  /** Once the whole input is read, the accumulator is its de-duplication. */
  lemma DedupDone(acc: seq<Artwork>, all: seq<Artwork>, i: nat)
    requires i == |all|
    requires acc == FirstOccurrences(all[..i])
    ensures acc == FirstOccurrences(all)
    ensures DistinctIds(acc) && Covers(acc, all) && FirstWins(acc, all) && IsSubsequence(acc, all)
    ensures DistinctIds(all) ==> acc == all
  {
    assert all[..i] == all;
    FirstOccurrencesSpec(all);
  }

  /**
   * The `reduce`: an artwork is appended to the accumulator unless `acc.find` sees its id already.
   * The result is the input restricted to the first occurrence of each id; so it has distinct ids, holds every id of the input, holds for each id the first
   * artwork of the input with it, keeps the input order, and is the input when its ids are
   * distinct.
   */
  method DedupById(all: seq<Artwork>) returns (unique: seq<Artwork>)
    ensures unique == FirstOccurrences(all)
    ensures DistinctIds(unique)
    ensures Covers(unique, all)
    ensures FirstWins(unique, all)
    ensures IsSubsequence(unique, all)
    ensures DistinctIds(all) ==> unique == all
  {
    var acc: seq<Artwork> := [];
    var i := 0;
    assert all[..0] == [];
    while i < |all|
      invariant 0 <= i <= |all|
      invariant acc == FirstOccurrences(all[..i])
    {
      DedupStep(acc, all, i);
      if Find(acc, ArtworkIdIs(all[i].id)).None? {
        acc := acc + [all[i]];
      }
      i := i + 1;
    }
    DedupDone(acc, all, i);
    unique := acc;
  }

}

/**
 * getAllArtworks of app/lib/art/allArtworks.ts: the sample artworks followed by the sample course's
 * artworks, de-duplicated by id. The sample course is an input: its artworks list, missing or present.
 */
module AllArtworks {
  import opened Wrappers
  import opened Seqs
  import opened Types
  import opened Connections
  import opened ArtworkDedup

  /** `[...sampleArtworks, ...(sampleCourse.artworks || [])]` */
  function Combined(courseArtworks: Option<seq<Artwork>>): seq<Artwork> {
    SampleArtworks + courseArtworks.GetOr([])
  }

  /**
   * getAllArtworks: the combined list restricted to the first artwork of each id, in the order of
   * the combined list.
   */
  method GetAllArtworks(courseArtworks: Option<seq<Artwork>>) returns (unique: seq<Artwork>)
    ensures unique == FirstOccurrences(Combined(courseArtworks))
    ensures DistinctIds(unique)
    ensures Covers(unique, Combined(courseArtworks))
    ensures FirstWins(unique, Combined(courseArtworks))
    ensures IsSubsequence(unique, Combined(courseArtworks))
    ensures DistinctIds(Combined(courseArtworks)) ==> unique == Combined(courseArtworks)
  {
    var allArtworks := SampleArtworks + courseArtworks.GetOr([]);
    unique := DedupById(allArtworks);
  }

  /** Without course artworks the result is the sample list itself, whose ids are distinct. */
  lemma SampleIdsDistinct()
    ensures DistinctIds(Combined(None))
  {
    SampleDataConsistent();
    assert Combined(None) == SampleArtworks;
  }

  /** On a shared id the sample artwork wins over the course's. */
  lemma SampleArtworksWin(courseArtworks: seq<Artwork>, a: Artwork)
    requires a in SampleArtworks
    ensures Find(SampleArtworks + courseArtworks, ArtworkIdIs(a.id)) == Some(a)
  {
    SampleDataConsistent();
    var k :| 0 <= k < |SampleArtworks| && SampleArtworks[k] == a;
    assert ArtworkIdIs(a.id)(SampleArtworks[k]);
    FindFirst(SampleArtworks, ArtworkIdIs(a.id));
    FindConcat(SampleArtworks, courseArtworks, ArtworkIdIs(a.id));
  }
}
