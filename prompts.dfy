/**
 * The prompt texts of app/lib/llm/promptTemplates.ts: the course prompt with its fixed opening and
 * closing block, and the two single-template prompts for an epoch story and an artwork description.
 */
module PromptTemplates {
  import opened Wrappers
  import opened Text
  import opened PromptAssembly

  /** The fixed opening of the course prompt (note the space after "appreciation."). */
  const Preamble: string :=
    "You are a poetic art historian and philosopher, creating an inspiring course about art appreciation. \n" +
    "\n" +
    "Generate a comprehensive course that helps people discover their personal resonance with art. The course should be philosophical, poetic, and emotionally engaging.\n" +
    "\n" +
    ""

  /** The fixed JSON-format and guidelines block that follows the depth line. */
  const FormatBlock: string := "\n" + FormatBody

  const FormatBody: string :=
    "Please generate a course in the following JSON format:\n" +
    "{\n" +
    "  \"title\": \"Course title (poetic and inspiring)\",\n" +
    "  \"description\": \"A philosophical description of what this course offers\",\n" +
    "  \"epoch\": \"epoch name\",\n" +
    "  \"lessons\": [\n" +
    "    {\n" +
    "      \"id\": \"unique-id\",\n" +
    "      \"title\": \"Lesson title\",\n" +
    "      \"content\": \"Poetic, philosophical content that helps readers understand and feel the art. Write in a reflective, inspiring tone. Include historical context, emotional resonance, and personal reflection prompts.\",\n" +
    "      \"artworks\": [\"artwork-id-1\", \"artwork-id-2\"],\n" +
    "      \"order\": 1\n" +
    "    }\n" +
    "  ],\n" +
    "  \"artworks\": [\n" +
    "    {\n" +
    "      \"id\": \"unique-id\",\n" +
    "      \"title\": \"Artwork title\",\n" +
    "      \"artist\": \"Artist name\",\n" +
    "      \"year\": 1911,\n" +
    "      \"imageUrl\": \"URL or description of where to find image\",\n" +
    "      \"description\": \"Poetic description of the artwork, its emotional impact, and why it matters\",\n" +
    "      \"epoch\": \"epoch name\",\n" +
    "      \"medium\": \"medium used\",\n" +
    "      \"dimensions\": \"dimensions if known\",\n" +
    "      \"location\": \"museum or collection location\"\n" +
    "    }\n" +
    "  ],\n" +
    "  \"connections\": [\n" +
    "    {\n" +
    "      \"id\": \"unique-id\",\n" +
    "      \"from\": \"artist-or-artwork-id\",\n" +
    "      \"to\": \"artist-or-artwork-id\",\n" +
    "      \"type\": \"influenced|contemporary|movement|inspired\",\n" +
    "      \"story\": \"A poetic narrative about how these artists/works connect. Tell the story of influence, inspiration, or shared vision.\",\n" +
    "      \"strength\": 0.8\n" +
    "    }\n" +
    "  ],\n" +
    "  \"tags\": [\"relevant\", \"tags\"]\n" +
    "}\n" +
    "\n" +
    "Important guidelines:\n" +
    "- Write in a poetic, philosophical style that evokes emotion\n" +
    "- Help readers understand not just facts, but the feeling and meaning of art\n" +
    "- Include personal reflection questions\n" +
    "- Make connections between artists and movements clear and meaningful\n" +
    "- Each lesson should build understanding progressively\n" +
    "- Artworks should be described in ways that help readers see and feel them\n" +
    "- Connections should tell stories, not just list facts\n" +
    "\n" +
    "Generate the course now:"

  /** The value of `generateCoursePrompt(params)`. */
  function CoursePrompt(p: CourseParams): string {
    Assemble(Preamble, p, FormatBlock)
  }

  /** generateCoursePrompt: the preamble, then one `+=` per truthy field, then the closing block. */
  method GenerateCoursePrompt(params: CourseParams) returns (prompt: string)
    ensures prompt == CoursePrompt(params)
  {
    var depth := params.depth.GetOr(Intermediate);
    prompt := Preamble;
    if Truthy(params.topic) {
      prompt := prompt + ("Topic: " + params.topic.value + "\n");
    }
    assert prompt == Preamble + Line("Topic: ", params.topic);
    if Truthy(params.artist) {
      prompt := prompt + ("Focus Artist: " + params.artist.value + "\n");
    }
    assert prompt == Preamble + Line("Topic: ", params.topic) + Line("Focus Artist: ", params.artist);
    if Truthy(params.epoch) {
      prompt := prompt + ("Epoch: " + params.epoch.value + "\n");
    }
    assert prompt == Preamble + Line("Topic: ", params.topic) + Line("Focus Artist: ", params.artist) +
      Line("Epoch: ", params.epoch);
    if Truthy(params.focus) {
      prompt := prompt + ("Special Focus: " + params.focus.value + "\n");
    }
    assert prompt == Preamble + Line("Topic: ", params.topic) + Line("Focus Artist: ", params.artist) +
      Line("Epoch: ", params.epoch) + Line("Special Focus: ", params.focus);
    prompt := prompt + ("\nDepth Level: " + DepthName(depth) + "\n" + FormatBlock);
    AssembleLeft(Preamble, params, FormatBlock);
  }

  /** The parameters a course prompt was built from, as far as they show in it. */
  function ParseCoursePrompt(s: string): Option<CourseParams> {
    ParseAssembled(Preamble, FormatBlock, s)
  }

  /** Reading a course prompt back gives the parameters it was built from (falsy fields as absent). */
  lemma ParseCoursePromptRoundTrip(p: CourseParams)
    requires SingleLine(p)
    ensures ParseCoursePrompt(CoursePrompt(p)) == Some(Effective(p))
  {
    ParseAssembledRoundTrip(Preamble, p, FormatBlock);
  }

  /**
   * Each field's line is present exactly when the field is truthy: two single-line parameter sets
   * that give the same course prompt agree on every truthy field and on the effective depth.
   */
  lemma CoursePromptDeterminesParams(p: CourseParams, q: CourseParams)
    requires SingleLine(p) && SingleLine(q)
    requires CoursePrompt(p) == CoursePrompt(q)
    ensures Effective(p) == Effective(q)
  {
    ParseCoursePromptRoundTrip(p);
    ParseCoursePromptRoundTrip(q);
  }

  /** The prompt depends on the parameters only through their truthy fields and effective depth. */
  lemma CoursePromptOfEffective(p: CourseParams, q: CourseParams)
    requires Effective(p) == Effective(q)
    ensures CoursePrompt(p) == CoursePrompt(q)
  {
    LineOfEffective("Topic: ", p.topic, q.topic);
    LineOfEffective("Focus Artist: ", p.artist, q.artist);
    LineOfEffective("Epoch: ", p.epoch, q.epoch);
    LineOfEffective("Special Focus: ", p.focus, q.focus);
    assert p.depth.GetOr(Intermediate) == q.depth.GetOr(Intermediate);
  }

  /** The course prompt starts with the preamble. */
  lemma CoursePromptStarts(p: CourseParams)
    ensures StartsWith(CoursePrompt(p), Preamble)
  {
    AssembleStarts(Preamble, p, FormatBlock);
  }

  /**
   * The course prompt is the preamble with the field lines, then the depth line, then the whole
   * format block, which it thus ends with.
   */
  lemma CoursePromptLayout(p: CourseParams)
    ensures CoursePrompt(p) == Front(Preamble, p) + DepthLine(p.depth.GetOr(Intermediate)) + FormatBlock
    ensures EndsWith(CoursePrompt(p), FormatBlock)
  {
    AssembleSplit(Preamble, p, FormatBlock);
    AssembleEnds(Preamble, p, FormatBlock);
  }

  /** The course prompt contains the depth line, `Depth Level: intermediate` when no depth is given. */
  lemma CoursePromptNamesDepth(p: CourseParams)
    ensures Contains(CoursePrompt(p), "Depth Level: " + DepthName(p.depth.GetOr(Intermediate)))
    ensures p.depth.None? ==> Contains(CoursePrompt(p), "Depth Level: intermediate")
  {
    AssembleNamesDepth(Preamble, p, FormatBlock);
    IntermediateDepthText();
  }

  // ---------------------------------------------------------------------------------------------
  // The single-template prompts.

  /** generateEpochStoryPrompt(epochName, context) */
  function EpochStoryPrompt(epochName: string, context: string): (r: string)
    ensures OccursAt(r, epochName, |EpochStoryOpening|)
    ensures OccursAt(r, "Context: " + context, |EpochStoryOpening| + |epochName| + |EpochStoryMiddle|)
  {
    var r := EpochStoryOpening + epochName + EpochStoryMiddle + "Context: " + context + EpochStoryClosing;
    assert r[|EpochStoryOpening|..|EpochStoryOpening| + |epochName|] == epochName;
    var k := |EpochStoryOpening| + |epochName| + |EpochStoryMiddle|;
    assert r[k..k + |"Context: " + context|] == "Context: " + context;
    r
  }

  const EpochStoryOpening: string :=
    "You are a poetic art historian. Write a beautiful, inspiring narrative about the "

  const EpochStoryMiddle: string :=
    " epoch in art history.\n" +
    "\n"

  const EpochStoryClosing: string :=
    "\n" +
    "\n" +
    "Write a story that:\n" +
    "- Captures the spirit and emotion of this epoch\n" +
    "- Explains why it matters culturally and artistically\n" +
    "- Helps readers understand the human experience behind the art\n" +
    "- Is poetic and evocative, not just factual\n" +
    "- Connects the art to broader cultural movements\n" +
    "\n" +
    "Write 3-4 paragraphs in a reflective, inspiring tone."

  /** generateArtworkDescriptionPrompt({title, artist, year}): `artist's "title" (year)`. */
  function ArtworkDescriptionPrompt(title: string, artist: string, year: int): (r: string)
    ensures OccursAt(r, artist + "'s \"" + title + "\" (" + IntToDecimal(year) + ")", |ArtworkDescriptionOpening|)
  {
    var named := artist + "'s \"" + title + "\" (" + IntToDecimal(year) + ")";
    var r := ArtworkDescriptionOpening + named + ArtworkDescriptionClosing;
    assert r[|ArtworkDescriptionOpening|..|ArtworkDescriptionOpening| + |named|] == named;
    r
  }

  const ArtworkDescriptionOpening: string :=
    "You are a poetic art critic. Write a beautiful, emotional description of "

  const ArtworkDescriptionClosing: string :=
    "." +
    "\n" +
    "\n" +
    "Write in a way that:\n" +
    "- Helps someone truly see and feel the artwork\n" +
    "- Explains the emotional impact and meaning\n" +
    "- Connects to the artist's vision and the cultural moment\n" +
    "- Is poetic and inspiring, not just descriptive\n" +
    "- Invites personal reflection\n" +
    "\n" +
    "Write 2-3 paragraphs."
}
