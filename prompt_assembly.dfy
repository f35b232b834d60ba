/**
 * How app/lib/llm/promptTemplates.ts builds the course prompt, independent of its fixed texts: an
 * opening, one line per truthy field, the depth line, a closing block; and how such a prompt is read
 * back into the parameters it was built from.
 */
module PromptAssembly {
  import opened Wrappers
  import opened Text

  /** 'intro' | 'intermediate' | 'deep' */
  datatype Depth = Intro | Intermediate | Deep

  function DepthName(d: Depth): string {
    match d
    case Intro => "intro"
    case Intermediate => "intermediate"
    case Deep => "deep"
  }

  /** CourseGenerationParams: every field may be omitted. */
  datatype CourseParams = CourseParams(
    topic: Option<string>,
    artist: Option<string>,
    epoch: Option<string>,
    depth: Option<Depth>,
    focus: Option<string>)

  /** A string field is truthy when present and non-empty. */
  predicate Truthy(v: Option<string>) {
    v.Some? && |v.value| > 0
  }

  /** The line `heading + value + "\n"` for a truthy field, nothing otherwise. */
  function Line(heading: string, v: Option<string>): string {
    if Truthy(v) then heading + v.value + "\n" else ""
  }

  function DepthLine(d: Depth): string {
    "\nDepth Level: " + DepthName(d) + "\n"
  }

  /**
   * The course prompt between a given opening and a given closing block: the lines of the truthy
   * fields in the order topic, artist, epoch, focus, then the depth line.
   */
  function Assemble(opening: string, p: CourseParams, block: string): string {
    opening + (Line("Topic: ", p.topic) + (Line("Focus Artist: ", p.artist) +
      (Line("Epoch: ", p.epoch) + (Line("Special Focus: ", p.focus) +
      (DepthLine(p.depth.GetOr(Intermediate)) + block)))))
  }

  lemma AppendAssoc(a: string, b: string, c: string)
    ensures a + (b + c) == (a + b) + c
  {
  }

  /** The assembled prompt as the successive appends produce it. */
  lemma AssembleLeft(opening: string, p: CourseParams, block: string)
    ensures Assemble(opening, p, block) ==
      opening + Line("Topic: ", p.topic) + Line("Focus Artist: ", p.artist) +
      Line("Epoch: ", p.epoch) + Line("Special Focus: ", p.focus) +
      (DepthLine(p.depth.GetOr(Intermediate)) + block)
  {
    var l1, l2, l3, l4 := Line("Topic: ", p.topic), Line("Focus Artist: ", p.artist),
      Line("Epoch: ", p.epoch), Line("Special Focus: ", p.focus);
    var c := DepthLine(p.depth.GetOr(Intermediate)) + block;
    AppendAssoc(opening, l1, l2 + (l3 + (l4 + c)));
    AppendAssoc(opening + l1, l2, l3 + (l4 + c));
    AppendAssoc(opening + l1 + l2, l3, l4 + c);
    AppendAssoc(opening + l1 + l2 + l3, l4, c);
  }

  // ---------------------------------------------------------------------------------------------
  // Reading a course prompt back.

  predicate StartsWith(s: string, prefix: string) {
    |prefix| <= |s| && s[..|prefix|] == prefix
  }

  /**
   * Reads `heading + value + "\n"` off the front of `s`, returning the value and what follows, or
   * nothing and `s` itself when `s` does not start with `heading`.
   */
  function TakeField(heading: string, s: string): (Option<string>, string) {
    if !StartsWith(s, heading) then (None, s)
    else match IndexOf(s, "\n", |heading|)
      case None => (None, s)
      case Some(i) => (Some(s[|heading|..i]), s[i + 1..])
  }

  function ParseDepth(w: string): Option<Depth> {
    if w == "intro" then Some(Intro)
    else if w == "intermediate" then Some(Intermediate)
    else if w == "deep" then Some(Deep)
    else None
  }

  /** Every depth name reads back as its depth, and none holds a line break. */
  lemma ParseDepthName(d: Depth)
    ensures ParseDepth(DepthName(d)) == Some(d)
    ensures '\n' !in DepthName(d)
  {
    match d
    case Intro =>
    case Intermediate =>
      assert |"intermediate"| != |"intro"|;
    case Deep =>
      assert "deep"[1] != "intro"[1] && "deep"[1] != "intermediate"[1];
  }

  /** The parameters a prompt with the given opening and closing block was assembled from. */
  function ParseAssembled(opening: string, block: string, s: string): Option<CourseParams> {
    if !StartsWith(s, opening) then None else ParseFields(s[|opening|..], block)
  }

  /** The field lines and the depth line that precede `block`. */
  function ParseFields(s: string, block: string): Option<CourseParams> {
    var (topic, s1) := TakeField("Topic: ", s);
    var (artist, s2) := TakeField("Focus Artist: ", s1);
    var (epoch, s3) := TakeField("Epoch: ", s2);
    var (focus, s4) := TakeField("Special Focus: ", s3);
    match ParseDepthLine(s4, block)
    case None => None
    case Some(d) => Some(CourseParams(topic, artist, epoch, Some(d), focus))
  }

  /** The depth line, which must be followed by exactly `block`. */
  function ParseDepthLine(s: string, block: string): Option<Depth> {
    var (depthWord, rest) := TakeField("\nDepth Level: ", s);
    if depthWord.None? || rest != block then None else ParseDepth(depthWord.value)
  }

  /** The parameters as the prompt sees them: falsy fields dropped, the depth defaulted. */
  function Effective(p: CourseParams): CourseParams {
    CourseParams(
      if Truthy(p.topic) then p.topic else None,
      if Truthy(p.artist) then p.artist else None,
      if Truthy(p.epoch) then p.epoch else None,
      Some(p.depth.GetOr(Intermediate)),
      if Truthy(p.focus) then p.focus else None)
  }

  /** No present field contains a line break. */
  predicate SingleLine(p: CourseParams) {
    (p.topic.Some? ==> '\n' !in p.topic.value) &&
    (p.artist.Some? ==> '\n' !in p.artist.value) &&
    (p.epoch.Some? ==> '\n' !in p.epoch.value) &&
    (p.focus.Some? ==> '\n' !in p.focus.value)
  }

  /** The first line break after the heading of a field line is the one that ends it. */
  lemma FieldLineBreak(heading: string, value: string, t: string)
    requires '\n' !in value
    ensures IndexOf(heading + value + "\n" + t, "\n", |heading|) == Some(|heading| + |value|)
  {
    var s := heading + value + "\n" + t;
    var k := |heading| + |value|;
    assert s[k..k + 1] == "\n";
    assert OccursAt(s, "\n", k);
    forall j: nat | |heading| <= j < k
      ensures !OccursAt(s, "\n", j)
    {
      assert s[j] == value[j - |heading|];
      assert s[j..j + 1] == [s[j]];
    }
  }

  /** The pieces of a field line followed by more text. */
  lemma FieldLineSlices(heading: string, value: string, t: string)
    ensures var s := heading + value + "\n" + t;
      s[..|heading|] == heading && s[|heading|..|heading| + |value|] == value &&
      s[|heading| + |value| + 1..] == t
  {
    var s := heading + value + "\n" + t;
    var line := heading + value;
    assert s == line + ("\n" + t);
    assert s[..|line|] == line;
    assert s[|heading|..|line|] == s[..|line|][|heading|..];
  }

  /** A field line is read back exactly, and an absent one is skipped when the text goes on differently. */
  lemma TakeFieldLine(heading: string, v: Option<string>, t: string)
    requires |heading| > 0
    requires v.Some? ==> '\n' !in v.value
    requires !Truthy(v) ==> |t| > 0 && t[0] != heading[0]
    ensures TakeField(heading, Line(heading, v) + t) == (if Truthy(v) then v else None, t)
  {
    if Truthy(v) {
      FieldLineBreak(heading, v.value, t);
      FieldLineSlices(heading, v.value, t);
    } else {
      var s := Line(heading, v) + t;
      assert s == t;
      if |heading| <= |s| {
        assert s[..|heading|][0] == t[0];
      }
    }
  }

  /** The first character of a field line followed by more text. */
  lemma LineHead(heading: string, v: Option<string>, t: string)
    requires |heading| > 0 && |t| > 0
    ensures |Line(heading, v) + t| > 0
    ensures (Line(heading, v) + t)[0] == if Truthy(v) then heading[0] else t[0]
  {
  }

  /** The depth line reads back as its depth. */
  lemma DepthLineRoundTrip(d: Depth, block: string)
    ensures ParseDepthLine(DepthLine(d) + block, block) == Some(d)
  {
    ParseDepthName(d);
    var c := DepthLine(d) + block;
    assert c == Line("\nDepth Level: ", Some(DepthName(d))) + block;
    TakeFieldLine("\nDepth Level: ", Some(DepthName(d)), block);
  }

  /** Reading the field lines and the depth line back gives the effective parameters. */
  lemma ParseFieldsRoundTrip(p: CourseParams, block: string)
    requires SingleLine(p)
    ensures ParseFields(Line("Topic: ", p.topic) + (Line("Focus Artist: ", p.artist) +
      (Line("Epoch: ", p.epoch) + (Line("Special Focus: ", p.focus) +
      (DepthLine(p.depth.GetOr(Intermediate)) + block)))), block) == Some(Effective(p))
  {
    var e := Effective(p);
    var c := DepthLine(p.depth.GetOr(Intermediate)) + block;
    var s3 := Line("Special Focus: ", p.focus) + c;
    var s2 := Line("Epoch: ", p.epoch) + s3;
    var s1 := Line("Focus Artist: ", p.artist) + s2;
    LineHead("Special Focus: ", p.focus, c);
    LineHead("Epoch: ", p.epoch, s3);
    LineHead("Focus Artist: ", p.artist, s2);
    TakeFieldLine("Topic: ", p.topic, s1);
    TakeFieldLine("Focus Artist: ", p.artist, s2);
    TakeFieldLine("Epoch: ", p.epoch, s3);
    TakeFieldLine("Special Focus: ", p.focus, c);
    DepthLineRoundTrip(p.depth.GetOr(Intermediate), block);
  }

  /** Reading an assembled prompt back gives the parameters it was built from (falsy fields as absent). */
  lemma ParseAssembledRoundTrip(opening: string, p: CourseParams, block: string)
    requires SingleLine(p)
    ensures ParseAssembled(opening, block, Assemble(opening, p, block)) == Some(Effective(p))
  {
    var body := Line("Topic: ", p.topic) + (Line("Focus Artist: ", p.artist) +
      (Line("Epoch: ", p.epoch) + (Line("Special Focus: ", p.focus) +
      (DepthLine(p.depth.GetOr(Intermediate)) + block))));
    assert (opening + body)[..|opening|] == opening && (opening + body)[|opening|..] == body;
    ParseFieldsRoundTrip(p, block);
  }

  /** A field's line depends on the field only through its truthy value. */
  lemma LineOfEffective(heading: string, v: Option<string>, w: Option<string>)
    requires (if Truthy(v) then v else None) == (if Truthy(w) then w else None)
    ensures Line(heading, v) == Line(heading, w)
  {
  }

  /**
   * Two single-line parameter sets give the same assembled prompt exactly when they agree on every
   * truthy field and on the effective depth.
   */
  lemma AssembleDeterminesParams(opening: string, block: string, p: CourseParams, q: CourseParams)
    requires SingleLine(p) && SingleLine(q)
    ensures Assemble(opening, p, block) == Assemble(opening, q, block) <==> Effective(p) == Effective(q)
  {
    ParseAssembledRoundTrip(opening, p, block);
    ParseAssembledRoundTrip(opening, q, block);
    if Effective(p) == Effective(q) {
      LineOfEffective("Topic: ", p.topic, q.topic);
      LineOfEffective("Focus Artist: ", p.artist, q.artist);
      LineOfEffective("Epoch: ", p.epoch, q.epoch);
      LineOfEffective("Special Focus: ", p.focus, q.focus);
      assert p.depth.GetOr(Intermediate) == q.depth.GetOr(Intermediate);
    }
  }

  predicate EndsWith(s: string, suffix: string) {
    |suffix| <= |s| && s[|s| - |suffix|..] == suffix
  }

  /** An assembled prompt starts with its opening. */
  lemma AssembleStarts(opening: string, p: CourseParams, block: string)
    ensures StartsWith(Assemble(opening, p, block), opening)
  {
    var s := Assemble(opening, p, block);
    assert s[..|opening|] == opening;
  }

  /** The field lines of an assembled prompt, after its opening. */
  function Front(opening: string, p: CourseParams): string {
    opening + Line("Topic: ", p.topic) + Line("Focus Artist: ", p.artist) +
      Line("Epoch: ", p.epoch) + Line("Special Focus: ", p.focus)
  }

  lemma AssembleSplit(opening: string, p: CourseParams, block: string)
    ensures Assemble(opening, p, block) == Front(opening, p) + DepthLine(p.depth.GetOr(Intermediate)) + block
  {
    AssembleLeft(opening, p, block);
    AppendAssoc(Front(opening, p), DepthLine(p.depth.GetOr(Intermediate)), block);
  }

  /** An assembled prompt ends with its block. */
  lemma AssembleEnds(opening: string, p: CourseParams, block: string)
    ensures EndsWith(Assemble(opening, p, block), block)
  {
    AssembleSplit(opening, p, block);
    var a := Front(opening, p) + DepthLine(p.depth.GetOr(Intermediate));
    assert (a + block)[|a|..] == block;
  }

  /** The depth line holds the depth text right after its first line break. */
  lemma DepthLineText(d: Depth)
    ensures OccursAt(DepthLine(d), "Depth Level: " + DepthName(d), 1)
  {
    var t := "Depth Level: " + DepthName(d);
    assert DepthLine(d)[1..1 + |t|] == t;
  }

  /** An assembled prompt names the depth, the given one or `intermediate`. */
  lemma AssembleNamesDepth(opening: string, p: CourseParams, block: string)
    ensures Contains(Assemble(opening, p, block), "Depth Level: " + DepthName(p.depth.GetOr(Intermediate)))
  {
    var d := p.depth.GetOr(Intermediate);
    AssembleSplit(opening, p, block);
    DepthLineText(d);
    OccursWithin(Front(opening, p), DepthLine(d), block, "Depth Level: " + DepthName(d), 1);
  }

  lemma IntermediateDepthText()
    ensures "Depth Level: " + DepthName(Intermediate) == "Depth Level: intermediate"
  {
  }
}
