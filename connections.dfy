/** The sample artworks and connections of app/lib/art/connections.ts and their lookups. */
module Connections {
  import opened Wrappers
  import opened Seqs
  import opened Types

  const MatisseRedStudio: Artwork := Artwork(
    "matisse-red-studio", "The Red Studio", "Henri Matisse", 1911,
    "https://images.metmuseum.org/CRDImages/ep/original/DT1967.jpg",
    "A revolutionary work where Matisse unified space through color, creating a new visual language that would influence generations of artists.",
    "Modernism",
    Some("Oil on canvas"), Some("71 1/4 x 86 1/4 in. (181 x 219.1 cm)"), Some("Museum of Modern Art, New York"))

  const RothkoNo14: Artwork := Artwork(
    "rothko-no-14", "No. 14", "Mark Rothko", 1960,
    "https://www.sfmoma.org/wp-content/uploads/2017/06/60.16.jpg",
    "Rothko's color field paintings, inspired by Matisse's use of color as emotional expression, create meditative spaces of pure feeling.",
    "Modernism",
    Some("Oil on canvas"), Some("114 1/2 x 105 5/8 in. (290.8 x 268.3 cm)"), Some("San Francisco Museum of Modern Art"))

  /** The one sample artwork without dimensions. */
  const MonetWaterLilies: Artwork := Artwork(
    "monet-water-lilies", "Water Lilies", "Claude Monet", 1919,
    "https://www.metmuseum.org/toah/images/hb/hb_1983.532.jpg",
    "Monet's late works capture the fleeting effects of light and atmosphere, dissolving form into pure sensation.",
    "Impressionism",
    Some("Oil on canvas"), None, Some("Metropolitan Museum of Art, New York"))

  const SampleArtworks: seq<Artwork> := [MatisseRedStudio, RothkoNo14, MonetWaterLilies]

  const MatisseRothko: Connection := Connection(
    "matisse-rothko", "matisse-red-studio", "rothko-no-14", Influenced,
    "Matisse's revolutionary use of color as the primary means of expression in \"The Red Studio\" deeply influenced Rothko. " +
    "Rothko saw in Matisse's work the power of color to evoke emotion directly, without narrative or representation. " +
    "This insight led Rothko to develop his color field paintings, where large blocks of color create meditative, emotional experiences.",
    Some(0.9))

  const SampleConnections: seq<Connection> := [MatisseRothko]

  function Touches(artworkId: string): Connection -> bool {
    (c: Connection) => c.from == artworkId || c.to == artworkId
  }

  /** getConnectionsForArtwork: the sample connections with the artwork at either end, in order. */
  function GetConnectionsForArtwork(artworkId: string): (r: seq<Connection>)
    ensures forall i :: 0 <= i < |r| ==> r[i].from == artworkId || r[i].to == artworkId
    ensures forall i :: 0 <= i < |SampleConnections| && Touches(artworkId)(SampleConnections[i]) ==>
      SampleConnections[i] in r
    ensures forall i :: 0 <= i < |r| ==> r[i] in SampleConnections
    ensures IsSubsequence(r, SampleConnections)
  {
    FilterSpec(SampleConnections, Touches(artworkId));
    Filter(SampleConnections, Touches(artworkId))
  }

  /** getArtworkById: the first sample artwork with that id, if any. */
  function GetArtworkById(id: string): (r: Option<Artwork>)
    ensures r.None? <==> forall i :: 0 <= i < |SampleArtworks| ==> SampleArtworks[i].id != id
    ensures r.Some? ==>
      exists i :: 0 <= i < |SampleArtworks| && SampleArtworks[i] == r.value && r.value.id == id &&
        (forall j :: 0 <= j < i ==> SampleArtworks[j].id != id)
  {
    if Find(SampleArtworks, ArtworkIdIs(id)).Some? then
      FindFirst(SampleArtworks, ArtworkIdIs(id));
      Find(SampleArtworks, ArtworkIdIs(id))
    else None
  }

  /** Both ends of the Matisse-Rothko link see it; the Monet has no connection. */
  lemma SampleConnectionLookups()
    ensures GetConnectionsForArtwork("matisse-red-studio") == [MatisseRothko]
    ensures GetConnectionsForArtwork("rothko-no-14") == [MatisseRothko]
    ensures GetConnectionsForArtwork("monet-water-lilies") == []
  {
    assert SampleConnections[1..] == [];
  }

  /** The sample ids are distinct, and every connection endpoint resolves to a sample artwork. */
  lemma SampleDataConsistent()
    ensures forall i, j :: 0 <= i < j < |SampleArtworks| ==> SampleArtworks[i].id != SampleArtworks[j].id
    ensures forall i :: 0 <= i < |SampleConnections| ==>
      GetArtworkById(SampleConnections[i].from).Some? && GetArtworkById(SampleConnections[i].to).Some?
  {
    assert GetArtworkById("matisse-red-studio") == Some(MatisseRedStudio);
    assert GetArtworkById("rothko-no-14").Some? by {
      assert SampleArtworks[1].id == "rothko-no-14";
    }
  }
}
