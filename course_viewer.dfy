/**
 * The state of app/components/course/CourseViewer.tsx: the lessons in display order, the deep dive
 * and the artwork a reader has opened, and the artworks shown as floating cards.
 */
module CourseView {
  import opened Wrappers
  import opened Seqs
  import opened Types

  /** The sort key of `(a, b) => a.order - b.order`. */
  function LessonOrder(l: Lesson): real {
    l.order as real
  }

  /** `[...course.lessons].sort((a, b) => a.order - b.order)`: a sorted copy. */
  function SortedLessons(course: Course): seq<Lesson> {
    SortBy(course.lessons, LessonOrder)
  }

  /** The sorted lessons are the course's lessons rearranged, in non-decreasing order. */
  lemma SortedLessonsSpec(course: Course)
    ensures |SortedLessons(course)| == |course.lessons|
    ensures multiset(SortedLessons(course)) == multiset(course.lessons)
    ensures forall i, j :: 0 <= i < j < |SortedLessons(course)| ==>
      SortedLessons(course)[i].order <= SortedLessons(course)[j].order
  {
    assert SortedBy(SortedLessons(course), LessonOrder);
  }

  /** The lessons whose order is `k`. */
  function OrderIs(k: int): Lesson -> bool {
    KeyIs(LessonOrder, k as real)
  }

  /** The sort is stable: the lessons with any one order value keep their relative position. */
  lemma SortedLessonsStable(course: Course, k: int)
    ensures Filter(SortedLessons(course), OrderIs(k)) == Filter(course.lessons, OrderIs(k))
  {
    SortByStable(course.lessons, LessonOrder, k as real);
  }

  /** The deep dives of one lesson (`l.deepDives || []`). */
  function DivesOf(l: Lesson): seq<DeepDive> {
    l.deepDives.GetOr([])
  }

  /** `lessons.flatMap((l) => l.deepDives || [])` */
  function AllDives(lessons: seq<Lesson>): seq<DeepDive> {
    Flatten(seq(|lessons|, i requires 0 <= i < |lessons| => DivesOf(lessons[i])))
  }

  function DeepDiveIdIs(id: string): DeepDive -> bool {
    (d: DeepDive) => d.id == id
  }

  /** The deep dive handleDeepDiveClick selects for `id`, if any. */
  function DeepDiveById(lessons: seq<Lesson>, id: string): Option<DeepDive> {
    Find(AllDives(lessons), DeepDiveIdIs(id))
  }

  /**
   * The lookup finds a deep dive exactly when some lesson has one with that id; what it finds has
   * that id, belongs to one of the lessons, and no deep dive before it in lesson order has that id.
   */
  lemma DeepDiveByIdSpec(lessons: seq<Lesson>, id: string)
    ensures DeepDiveById(lessons, id).Some? <==>
      exists i, j :: 0 <= i < |lessons| && 0 <= j < |DivesOf(lessons[i])| && DivesOf(lessons[i])[j].id == id
    ensures DeepDiveById(lessons, id).Some? ==>
      DeepDiveById(lessons, id).value.id == id &&
      (exists i :: 0 <= i < |lessons| && DeepDiveById(lessons, id).value in DivesOf(lessons[i])) &&
      exists k :: 0 <= k < |AllDives(lessons)| && AllDives(lessons)[k] == DeepDiveById(lessons, id).value &&
        forall m :: 0 <= m < k ==> AllDives(lessons)[m].id != id
  {
    var ss := seq(|lessons|, i requires 0 <= i < |lessons| => DivesOf(lessons[i]));
    var all := AllDives(lessons);
    var r := DeepDiveById(lessons, id);
    if r.Some? {
      FindFirst(all, DeepDiveIdIs(id));
      FlattenMember(ss, r.value);
      var i :| 0 <= i < |ss| && r.value in ss[i];
      var j :| 0 <= j < |DivesOf(lessons[i])| && DivesOf(lessons[i])[j] == r.value;
    }
    if exists i, j :: 0 <= i < |lessons| && 0 <= j < |DivesOf(lessons[i])| && DivesOf(lessons[i])[j].id == id {
      var i, j :| 0 <= i < |lessons| && 0 <= j < |DivesOf(lessons[i])| && DivesOf(lessons[i])[j].id == id;
      var d := DivesOf(lessons[i])[j];
      assert d in ss[i];
      FlattenMember(ss, d);
      var k :| 0 <= k < |all| && all[k] == d;
      assert DeepDiveIdIs(id)(all[k]);
    }
  }

  /**
   * `selectedArtworkData`: the first course artwork with the selected id. With nothing selected
   * (`find` compares every id with `null`) there is none.
   */
  function SelectedArtworkData(course: Course, selected: Option<string>): Option<Artwork> {
    match selected
    case None => None
    case Some(id) => Find(course.artworks, ArtworkIdIs(id))
  }

  /**
   * The artwork modal opens exactly when an artwork of the course has the selected id, and it shows
   * the first such artwork.
   */
  lemma SelectedArtworkDataSpec(course: Course, selected: Option<string>)
    ensures SelectedArtworkData(course, selected).Some? <==>
      selected.Some? && exists i :: 0 <= i < |course.artworks| && course.artworks[i].id == selected.value
    ensures SelectedArtworkData(course, selected).Some? ==>
      exists i :: 0 <= i < |course.artworks| && course.artworks[i] == SelectedArtworkData(course, selected).value &&
        course.artworks[i].id == selected.value &&
        forall j :: 0 <= j < i ==> course.artworks[j].id != selected.value
  {
    if SelectedArtworkData(course, selected).Some? {
      FindFirst(course.artworks, ArtworkIdIs(selected.value));
    }
  }

  /** The most floating cards shown. */
  const FloatingCards := 6

  /** `course.artworks.slice(0, 6)` */
  function FloatingArtworks(course: Course): seq<Artwork> {
    if |course.artworks| <= FloatingCards then course.artworks else course.artworks[..FloatingCards]
  }

  /** The floating cards are the first six artworks of the course, or all of them when there are fewer. */
  lemma FloatingArtworksSpec(course: Course)
    ensures |FloatingArtworks(course)| == if |course.artworks| < 6 then |course.artworks| else 6
    ensures forall i :: 0 <= i < |FloatingArtworks(course)| ==> FloatingArtworks(course)[i] == course.artworks[i]
  {
  }

  /** The component's selection state; the course is the component's immutable property. */
  class CourseViewer {
    const course: Course
    var selectedDeepDive: Option<DeepDive>
    var selectedArtwork: Option<string>

    constructor (course: Course)
      ensures this.course == course && selectedDeepDive == None && selectedArtwork == None
    {
      this.course := course;
      selectedDeepDive := None;
      selectedArtwork := None;
    }

    /** handleDeepDiveClick: selects the deep dive with that id, or leaves the selection as it was. */
    method HandleDeepDiveClick(deepDiveId: string)
      modifies this
      ensures selectedDeepDive == match DeepDiveById(SortedLessons(course), deepDiveId)
        case Some(d) => Some(d)
        case None => old(selectedDeepDive)
      ensures selectedArtwork == old(selectedArtwork)
    {
      var deepDive := Find(AllDives(SortedLessons(course)), DeepDiveIdIs(deepDiveId));
      if deepDive.Some? {
        selectedDeepDive := deepDive;
      }
    }

    /** The deep dive's Close button. */
    method CloseDeepDive()
      modifies this
      ensures selectedDeepDive == None && selectedArtwork == old(selectedArtwork)
    {
      selectedDeepDive := None;
    }

    /** handleArtworkClick: records the clicked id, whether or not the course has that artwork. */
    method HandleArtworkClick(artworkId: string)
      modifies this
      ensures selectedArtwork == Some(artworkId) && selectedDeepDive == old(selectedDeepDive)
    {
      selectedArtwork := Some(artworkId);
    }

    /** The artwork modal's onClose. */
    method CloseArtwork()
      modifies this
      ensures selectedArtwork == None && selectedDeepDive == old(selectedDeepDive)
    {
      selectedArtwork := None;
    }
  }
}
