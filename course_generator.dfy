/**
 * The course generator of app/lib/llm/courseGenerator.ts: the checks around the chat completion
 * call, the normalisation of the parsed reply into a Course, and the fallbacks of the epoch story.
 * The completion service and JSON.parse are parameters: `complete` maps the messages sent to the
 * reply received, `parse` maps the reply text to the parsed object or to nothing when it is not JSON.
 */
module CourseGenerator {
  import opened Wrappers
  import opened Seqs
  import opened Text
  import opened Types
  import opened PromptAssembly
  import opened PromptTemplates

  // ---------------------------------------------------------------------------------------------
  // The parsed reply, as far as the normaliser reads it.

  /** A lesson as the model sends it; the fields the normaliser defaults may be missing. */
  datatype RawLesson = RawLesson(
    id: string,
    title: string,
    content: string,
    artworks: Option<seq<string>>,
    deepDives: Option<seq<DeepDive>>,
    order: Option<int>)

  /** The parsed course object; `title` and `lessons` are dereferenced, the lists are defaulted. */
  datatype RawCourse = RawCourse(
    title: Option<string>,
    description: string,
    epoch: string,
    lessons: Option<seq<RawLesson>>,
    artworks: Option<seq<Artwork>>,
    connections: Option<seq<Connection>>,
    tags: Option<seq<string>>)

  /** Why generateCourse throws. */
  datatype CourseError =
    | MissingApiKey           // 'OPENAI_API_KEY is not set', before any request
    | Upstream(message: string) // the completion call failed; its error is re-thrown as it is
    | NoContent               // 'No content received from OpenAI'
    | MalformedJson           // JSON.parse threw
    | TitleMissing            // `courseData.title.toLowerCase()` on a missing title
    | LessonsMissing          // `courseData.lessons.map` on a missing list

  // ---------------------------------------------------------------------------------------------
  // The slug.

  /** The characters outside `[a-z0-9]`. */
  predicate NotSlugChar(c: char) {
    !('a' <= c <= 'z' || '0' <= c <= '9')
  }

  predicate IsSlugChar(c: char) {
    'a' <= c <= 'z' || '0' <= c <= '9' || c == '-'
  }

  /** `title.toLowerCase().replace(/[^a-z0-9]+/g, '-')` */
  function Slug(title: string): string {
    ReplaceRuns(Lower(title), NotSlugChar, '-')
  }

  /** A slug holds only `[a-z0-9-]` and never two hyphens in a row. */
  lemma SlugShape(title: string)
    ensures forall i :: 0 <= i < |Slug(title)| ==> IsSlugChar(Slug(title)[i])
    ensures forall i :: 0 <= i < |Slug(title)| - 1 ==> !(Slug(title)[i] == '-' && Slug(title)[i + 1] == '-')
  {
    ReplaceRunsAlphabet(Lower(title), NotSlugChar, '-');
    ReplaceRunsNoRepeat(Lower(title), NotSlugChar, '-');
  }

  /** Slugifying a slug returns it unchanged. */
  lemma SlugIdempotent(title: string)
    ensures Slug(Slug(title)) == Slug(title)
  {
    var s := Slug(title);
    SlugShape(title);
    assert Lower(s) == s;
    ReplaceRunsFixpoint(s, NotSlugChar, '-');
  }

  /** Each run of other characters becomes one hyphen. */
  lemma SlugOfColorAndFeeling()
    ensures Slug("Color and Feeling") == "color-and-feeling"
  {
    LowerOfColorAndFeeling();
    SlugTailOfColorAndFeeling();
    ReplaceRunsJoin("color", ' ', "and" + ([' '] + "feeling"), NotSlugChar, '-');
    assert "color" + ("-" + "and-feeling") == "color-and-feeling";
  }

  lemma LowerOfColorAndFeeling()
    ensures Lower("Color and Feeling") == "color" + ([' '] + ("and" + ([' '] + "feeling")))
  {
  }

  lemma SlugTailOfColorAndFeeling()
    ensures ReplaceRuns("and" + ([' '] + "feeling"), NotSlugChar, '-') == "and-feeling"
  {
    ReplaceRunsJoin("and", ' ', "feeling", NotSlugChar, '-');
    ReplaceRunsWord("feeling", NotSlugChar, '-');
    assert "and" + ("-" + "feeling") == "and-feeling";
  }

  /** A trailing hyphen is kept, not trimmed. */
  lemma SlugKeepsTrailingHyphen()
    ensures Slug("Hi!") == "hi-"
  {
    assert Lower("Hi!") == "hi" + ['!'];
    ReplaceRunsKeep("hi", ['!'], NotSlugChar, '-');
    assert ['!'] == ['!'] + "";
    ReplaceRunsSingle('!', "", NotSlugChar, '-');
    assert "hi" + ['-'] == "hi-";
  }

  /** A leading hyphen is kept, not trimmed. */
  lemma SlugKeepsLeadingHyphen()
    ensures Slug("!Hi") == "-hi"
  {
    assert Lower("!Hi") == ['!'] + "hi";
    ReplaceRunsSingle('!', "hi", NotSlugChar, '-');
    ReplaceRunsWord("hi", NotSlugChar, '-');
    assert ['-'] + "hi" == "-hi";
  }

  // ---------------------------------------------------------------------------------------------
  // Normalisation (the Course literal).

  /** `x || d` on a number: the value unless it is missing or zero. */
  predicate TruthyNumber(v: Option<int>) {
    v.Some? && v.value != 0
  }

  /** The stored lesson: `{...lesson, order: lesson.order || index + 1, artworks: ... || [], deepDives: ... || []}`. */
  function NormalizeLesson(l: RawLesson, index: nat): Lesson {
    Lesson(l.id, l.title, l.content, l.artworks.GetOr([]), Some(l.deepDives.GetOr([])),
      if TruthyNumber(l.order) then l.order.value else index + 1)
  }

  function NormalizeLessons(ls: seq<RawLesson>): seq<Lesson> {
    seq(|ls|, i requires 0 <= i < |ls| => NormalizeLesson(ls[i], i))
  }

  /** The Course built from the parsed reply, or the TypeError its construction throws. */
  function Normalize(raw: RawCourse, now: Timestamp): Result<Course, CourseError> {
    if raw.title.None? then Err(TitleMissing)
    else if raw.lessons.None? then Err(LessonsMissing)
    else
      var title := raw.title.value;
      Ok(Course(
        "course-" + IntToDecimal(now),
        Slug(title),
        title,
        raw.description,
        raw.epoch,
        NormalizeLessons(raw.lessons.value),
        raw.artworks.GetOr([]),
        raw.connections.GetOr([]),
        now,
        Some(raw.tags.GetOr([]))))
  }

  /** Normalisation fails exactly when the title or the lesson list is missing, the title checked first. */
  lemma NormalizeErrors(raw: RawCourse, now: Timestamp)
    ensures Normalize(raw, now).Err? <==> raw.title.None? || raw.lessons.None?
    ensures raw.title.None? ==> Normalize(raw, now) == Err(TitleMissing)
    ensures raw.title.Some? && raw.lessons.None? ==> Normalize(raw, now) == Err(LessonsMissing)
  {
  }

  /**
   * A normalised course keeps the title, description and epoch, derives the slug from the title,
   * is stamped with the generation time, and copies the top-level lists or defaults them to `[]`
   * without checking what they refer to.
   */
  lemma NormalizeCourse(raw: RawCourse, now: Timestamp)
    requires Normalize(raw, now).Ok?
    ensures var c := Normalize(raw, now).value;
      c.title == raw.title.value && c.slug == Slug(raw.title.value) &&
      c.description == raw.description && c.epoch == raw.epoch &&
      c.generatedAt == now && c.id == "course-" + IntToDecimal(now) &&
      (raw.artworks.Some? ==> c.artworks == raw.artworks.value) && (raw.artworks.None? ==> c.artworks == []) &&
      (raw.connections.Some? ==> c.connections == raw.connections.value) && (raw.connections.None? ==> c.connections == []) &&
      (raw.tags.Some? ==> c.tags == raw.tags) && (raw.tags.None? ==> c.tags == Some([]))
  {
  }

  /**
   * The normalised lessons are the source lessons in the same order, one for one: each keeps its
   * fields, its `order` is the source order when non-zero and its 1-based position otherwise, and
   * missing `artworks` and `deepDives` become `[]`.
   */
  lemma NormalizeLessonsSpec(ls: seq<RawLesson>)
    ensures |NormalizeLessons(ls)| == |ls|
    ensures forall i :: 0 <= i < |ls| ==>
      var l := NormalizeLessons(ls)[i];
      l.id == ls[i].id && l.title == ls[i].title && l.content == ls[i].content &&
      (TruthyNumber(ls[i].order) ==> l.order == ls[i].order.value) &&
      (!TruthyNumber(ls[i].order) ==> l.order == i + 1) &&
      (ls[i].artworks.Some? ==> l.artworks == ls[i].artworks.value) && (ls[i].artworks.None? ==> l.artworks == []) &&
      (ls[i].deepDives.Some? ==> l.deepDives == ls[i].deepDives) && (ls[i].deepDives.None? ==> l.deepDives == Some([]))
  {
  }

  /** The only defaulted orders are positions, so a lesson without an order gets a positive one. */
  lemma DefaultOrdersArePositive(ls: seq<RawLesson>)
    ensures forall i :: 0 <= i < |ls| && !TruthyNumber(ls[i].order) ==> NormalizeLessons(ls)[i].order > 0
    ensures forall i :: 0 <= i < |ls| ==> NormalizeLessons(ls)[i].order != 0
  {
  }

  // ---------------------------------------------------------------------------------------------
  // The calls around the completion service.

  datatype ChatMessage = ChatMessage(role: string, content: string)

  /** What a completion call yields: the call throws, or its first choice's content (possibly missing). */
  datatype Reply = Failed(message: string) | Replied(content: Option<string>)

  const CourseSystemRole: string :=
    "You are a poetic art historian and philosopher. You create inspiring, emotionally engaging courses about art appreciation. Always respond with valid JSON."

  const StorySystemRole: string :=
    "You are a poetic art historian. Write beautiful, inspiring narratives about art epochs."

  /** The messages generateCourse sends. */
  function CourseRequest(params: CourseParams): seq<ChatMessage> {
    [ChatMessage("system", CourseSystemRole), ChatMessage("user", CoursePrompt(params))]
  }

  /** The messages generateEpochStory sends. */
  function StoryRequest(epochName: string, context: string): seq<ChatMessage> {
    [ChatMessage("system", StorySystemRole), ChatMessage("user", EpochStoryPrompt(epochName, context))]
  }

  /** The system message and the course prompt as the user message. */
  method BuildCourseRequest(params: CourseParams) returns (request: seq<ChatMessage>)
    ensures request == CourseRequest(params)
  {
    var prompt := GenerateCoursePrompt(params);
    request := [ChatMessage("system", CourseSystemRole), ChatMessage("user", prompt)];
  }

  /** What generateCourse makes of a reply. */
  function CourseOutcome(reply: Reply, parse: string -> Option<RawCourse>, now: Timestamp): Result<Course, CourseError> {
    match reply
    case Failed(m) => Err(Upstream(m))
    case Replied(content) =>
      if !Truthy(content) then Err(NoContent)
      else match parse(content.value)
        case None => Err(MalformedJson)
        case Some(raw) => Normalize(raw, now)
  }

  /**
   * generateCourse: without a key it throws before sending anything; otherwise it sends one request
   * (the system role and the course prompt) and turns the reply into a Course or an error.
   */
  method GenerateCourse(params: CourseParams, apiKey: Option<string>, complete: seq<ChatMessage> -> Reply,
                        parse: string -> Option<RawCourse>, now: Timestamp)
    returns (r: Result<Course, CourseError>, sent: seq<seq<ChatMessage>>)
    ensures !Truthy(apiKey) ==> r == Err(MissingApiKey) && sent == []
    ensures Truthy(apiKey) ==> sent == [CourseRequest(params)] && r == CourseOutcome(complete(CourseRequest(params)), parse, now)
  {
    if !Truthy(apiKey) {
      return Err(MissingApiKey), [];
    }
    var request := BuildCourseRequest(params);
    sent := [request];
    var completion := complete(request);
    if completion.Failed? {
      return Err(Upstream(completion.message)), sent;
    }
    var content := completion.content;
    if !Truthy(content) {
      return Err(NoContent), sent;
    }
    var courseData := parse(content.value);
    if courseData.None? {
      return Err(MalformedJson), sent;
    }
    r := Normalize(courseData.value, now);
  }

  /**
   * The outcome of a reply: a failure is passed on unchanged, a missing or empty content is
   * NoContent, and a Course comes only from a non-empty content that parses and normalises.
   */
  lemma CourseOutcomeCases(reply: Reply, parse: string -> Option<RawCourse>, now: Timestamp)
    ensures reply.Failed? ==> CourseOutcome(reply, parse, now) == Err(Upstream(reply.message))
    ensures reply.Replied? ==> (CourseOutcome(reply, parse, now) == Err(NoContent) <==> !Truthy(reply.content))
    ensures CourseOutcome(reply, parse, now).Ok? ==>
      reply.Replied? && Truthy(reply.content) && parse(reply.content.value).Some? &&
      CourseOutcome(reply, parse, now) == Normalize(parse(reply.content.value).value, now)
  {
  }

  const KeyRequiredStory: string := "Epoch story generation requires OpenAI API key."
  const NoStory: string := "Unable to generate story."
  const StoryUnavailable: string := "Unable to generate story at this time."

  /** What generateEpochStory makes of a reply: the content, or a fallback sentence. */
  function StoryOutcome(reply: Reply): string {
    match reply
    case Failed(_) => StoryUnavailable
    case Replied(content) => if Truthy(content) then content.value else NoStory
  }

  /**
   * generateEpochStory never throws: without a key it returns the key-required sentence and sends
   * nothing; otherwise it sends one request and returns the reply's content or a fallback.
   */
  method GenerateEpochStory(epochName: string, context: string, apiKey: Option<string>,
                            complete: seq<ChatMessage> -> Reply)
    returns (story: string, sent: seq<seq<ChatMessage>>)
    ensures !Truthy(apiKey) ==> story == KeyRequiredStory && sent == []
    ensures Truthy(apiKey) ==> sent == [StoryRequest(epochName, context)] && story == StoryOutcome(complete(StoryRequest(epochName, context)))
    ensures |story| > 0
  {
    if !Truthy(apiKey) {
      return KeyRequiredStory, [];
    }
    var prompt := EpochStoryPrompt(epochName, context);
    var request := [ChatMessage("system", StorySystemRole), ChatMessage("user", prompt)];
    sent := [request];
    var completion := complete(request);
    if completion.Failed? {
      return StoryUnavailable, sent;
    }
    var content := completion.content;
    story := if Truthy(content) then content.value else NoStory;
  }

  /** The story is the non-empty content when there is one, and otherwise one of the two fallbacks. */
  lemma StoryOutcomeCases(reply: Reply)
    ensures reply.Replied? && Truthy(reply.content) ==> StoryOutcome(reply) == reply.content.value
    ensures reply.Replied? && !Truthy(reply.content) ==> StoryOutcome(reply) == NoStory
    ensures reply.Failed? ==> StoryOutcome(reply) == StoryUnavailable
    ensures |StoryOutcome(reply)| > 0
  {
  }
}
