/**
 * The records of app/types: courses and their parts, epochs, and the stored preferences with the
 * recommendations derived from them. Optional properties (`x?: T`) are `Option<T>`.
 */
module Types {
  import opened Wrappers

  /** A point in time, in milliseconds since 1970 (a JavaScript `Date`). */
  type Timestamp = int

  datatype Artwork = Artwork(
    id: string,
    title: string,
    artist: string,
    year: int,
    imageUrl: string,
    description: string,
    epoch: string,
    medium: Option<string>,
    dimensions: Option<string>,
    location: Option<string>)

  /** The artworks with the given id (`a => a.id === id`). */
  function ArtworkIdIs(id: string): Artwork -> bool {
    (a: Artwork) => a.id == id
  }

  datatype DeepDive = DeepDive(
    id: string,
    title: string,
    content: string,
    artworks: Option<seq<string>>)

  datatype Lesson = Lesson(
    id: string,
    title: string,
    content: string,
    artworks: seq<string>,
    deepDives: Option<seq<DeepDive>>,
    order: int)

  /** The closed set of connection kinds ('influenced' | 'contemporary' | 'movement' | 'inspired'). */
  datatype ConnectionType = Influenced | Contemporary | Movement | Inspired

  /** `from` and `to` name an artist or an artwork; nothing says which, and nothing checks them. */
  datatype Connection = Connection(
    id: string,
    from: string,
    to: string,
    kind: ConnectionType,
    story: string,
    strength: Option<real>)

  datatype Course = Course(
    id: string,
    slug: string,
    title: string,
    description: string,
    epoch: string,
    lessons: seq<Lesson>,
    artworks: seq<Artwork>,
    connections: seq<Connection>,
    generatedAt: Timestamp,
    tags: Option<seq<string>>)

  datatype Epoch = Epoch(
    id: string,
    name: string,
    startYear: int,
    endYear: int,
    description: string,
    keyArtists: seq<string>,
    movements: seq<string>,
    culturalContext: string,
    story: Option<string>,
    color: Option<string>,
    imageUrl: Option<string>)

  datatype ArtworkPreference = ArtworkPreference(
    artworkId: string,
    artworkTitle: string,
    artist: string,
    timestamp: Timestamp,
    rating: Option<int>,
    notes: Option<string>)

  datatype ArtistPreference = ArtistPreference(
    artistId: string,
    artistName: string,
    timestamp: Timestamp,
    artworks: seq<string>)

  datatype EpochPreference = EpochPreference(
    epochId: string,
    epochName: string,
    timestamp: Timestamp,
    artworks: seq<string>)

  datatype UserPreferences = UserPreferences(
    artworks: seq<ArtworkPreference>,
    artists: seq<ArtistPreference>,
    epochs: seq<EpochPreference>,
    lastUpdated: Timestamp)

  /** 'artwork' | 'artist' | 'epoch' | 'course' */
  datatype RecommendationType = ArtworkSuggestion | ArtistSuggestion | EpochSuggestion | CourseSuggestion

  datatype PreferenceRecommendation = PreferenceRecommendation(
    kind: RecommendationType,
    id: string,
    title: string,
    reason: string,
    confidence: real)
}
