# Genow in Dafny

This project models the deterministic core of Genow, an art-appreciation web application:

- the preference store, with its recommender;
- the normaliser that turns a language-model reply into a `Course`;
- the prompt templates;
- the epoch, connection and artwork lookups;
- the de-duplicated artwork catalogue;
- the paragraph splitter of the poetic text component;
- the state logic of three components:
  - the course viewer (lesson order, deep-dive and artwork selection);
  - the artwork carousel (wrap-around navigation, saved flags, save guard);
  - the save/unsave preference button.

Modules and files:

| file | module | models |
|---|---|---|
| `wrappers.dfy` | `Wrappers` | `Option`, `Result` |
| `seqs.dfy` | `Seqs` | `filter`, `find`, `flatMap`, stable `sort` on sequences |
| `text.dfy` | `Text` | ASCII `toLowerCase`, global `[...]+` replace, `trim`, `split`/`join`, decimal rendering |
| `types.dfy` | `Types` | the records of `app/types` |
| `storage.dfy` | `PreferenceStorage` | `app/lib/preferences/storage.ts` |
| `prompt_assembly.dfy`, `prompts.dfy` | `PromptAssembly`, `PromptTemplates` | `app/lib/llm/promptTemplates.ts` |
| `course_generator.dfy` | `CourseGenerator` | `app/lib/llm/courseGenerator.ts` |
| `epochs.dfy` | `EpochTable` | `app/lib/art/epochs.ts` |
| `connections.dfy` | `Connections` | `app/lib/art/connections.ts` |
| `all_artworks.dfy` | `ArtworkDedup`, `AllArtworks` | `app/lib/art/allArtworks.ts` |
| `poetic_text.dfy` | `PoeticText` | `app/components/ui/PoeticText.tsx` |
| `course_viewer.dfy` | `CourseView` | `app/components/course/CourseViewer.tsx` |
| `artwork_carousel.dfy` | `Carousel` | `app/components/artwork/ArtworkCarousel.tsx` |
| `preference_button.dfy` | `PreferenceToggle` | `app/components/artwork/PreferenceButton.tsx` |

How the browser and the services are modelled:

- localStorage under the one preferences key is the field `blob` of the class `PreferenceStore`. It holds one of:
  - nothing;
  - a value that does not parse;
  - a `UserPreferences` record.
- The clock is an explicit `now` parameter.
- The OpenAI completion call is a function parameter `complete` from messages to a reply (a failure, or a content that may be missing).
- `JSON.parse` of the reply is a function parameter `parse`.
- Whether a browser window exists is a parameter where the code tests for it.
- The components are classes.
  - Their React state is fields.
  - Their props are `const` fields.
  - Their handlers are methods.
  - Each handler's `ensures` gives the whole new state.

Three behaviours of the code a reader might not expect:

- The slug keeps leading and trailing hyphens (`"Hi!"` becomes `"hi-"`).
- `lessons` is not defaulted: a reply without a lesson list is an error, like one without a title.
- The epoch story is returned as the completion gives it, without trimming.

## Model

| member | source | states |
|---|---|---|
| PreferenceStorage.PreferenceStore.Load | app/lib/preferences/storage.ts:11-52 | loadPreferences returns the stored record; with nothing stored or a corrupt value it returns empty lists stamped now, never an error |
| PreferenceStorage.PreferenceStore.Save | app/lib/preferences/storage.ts:54-63 | savePreferences stamps the record with the save time and stores it |
| PreferenceStorage.PreferenceStore.AddArtworkPreference | app/lib/preferences/storage.ts:65-91 | the new blob is the loaded record with the artwork upserted, stamped now; a record with unique ids keeps unique ids |
| PreferenceStorage.AddArtworkEffect | app/lib/preferences/storage.ts:75-90 | after adding, the artwork is saved; its record is the last one and carries the new title, artist, rating and notes; the artist and epoch lists are unchanged |
| PreferenceStorage.UpsertKeepsOthers | app/lib/preferences/storage.ts:75-77 | the upsert keeps every record with another id, as many times as the list holds it and in its original relative order, and adds no other old record |
| PreferenceStorage.UpsertExactlyOne | app/lib/preferences/storage.ts:75-89 | after the upsert the new record is the last one and no other record has its id |
| PreferenceStorage.UpsertLength | app/lib/preferences/storage.ts:75-89 | with unique ids, re-adding a present id keeps the length and a new id adds one; ids stay unique |
| PreferenceStorage.AddArtworkSavedIff | app/lib/preferences/storage.ts:65-91 | after adding, the artworks saved are exactly the added one and those saved before |
| PreferenceStorage.PreferenceStore.RemoveArtworkPreference | app/lib/preferences/storage.ts:93-99 | the new blob is the loaded record with the id filtered out, stamped now; unique ids stay unique |
| PreferenceStorage.RemoveKey | app/lib/preferences/storage.ts:95-97 | the filter leaves no record with the id and keeps every other record, in order |
| PreferenceStorage.RemoveArtworkEffect | app/lib/preferences/storage.ts:93-99 | after removing, the artwork is not saved, the others are kept in order, the other lists are unchanged, and an absent id changes no list |
| PreferenceStorage.RemoveAbsentKey | app/lib/preferences/storage.ts:95-97 | filtering out an id that no record has changes nothing |
| PreferenceStorage.RemovePresentKey | app/lib/preferences/storage.ts:95-97 | with unique ids, filtering out a present id removes exactly one record |
| PreferenceStorage.RemoveArtworkSavedIff | app/lib/preferences/storage.ts:93-99 | after removing, the artworks saved are exactly those saved before other than the removed one |
| PreferenceStorage.PreferenceStore.AddArtistPreference | app/lib/preferences/storage.ts:101-122 | the artist list gets the upsert, with `artworks` defaulting to `[]`; the record stamped now is stored |
| PreferenceStorage.PreferenceStore.AddEpochPreference | app/lib/preferences/storage.ts:124-142 | the epoch list gets the upsert, with `artworks` defaulting to `[]`; the record stamped now is stored |
| PreferenceStorage.AddArtistAndEpochEffect | app/lib/preferences/storage.ts:101-142 | each upsert puts the new record last and leaves no other with its id; the other two lists are untouched; unique ids stay unique |
| PreferenceStorage.PreferenceStore.ClearPreferences | app/lib/preferences/storage.ts:178-181 | clearPreferences empties the storage key |
| PreferenceStorage.ClearThenLoad | app/lib/preferences/storage.ts:178-181 | clearing then loading gives the empty record |
| PreferenceStorage.CountByArtist | app/lib/preferences/storage.ts:150-153 | the counting loop gives each artist its number of liked works, with keys in first-appearance order |
| PreferenceStorage.ArtistsInOrderSpec | app/lib/preferences/storage.ts:150-156 | the count keys are distinct, hold every liked artist, and each has a positive count |
| PreferenceStorage.GenerateRecommendations | app/lib/preferences/storage.ts:144-176 | the counting loop, the emit loop and the sort give `Recommendations` of the artwork list |
| PreferenceStorage.RecommendationsExact | app/lib/preferences/storage.ts:156-166 | each recommendation is the one for its artist: count at least 2, confidence `min(count/5, 1)`, id the lower-cased name with blank runs as `-`, title the name; no two share a title |
| PreferenceStorage.RecommendationsComplete | app/lib/preferences/storage.ts:156-166 | every artist with at least two liked works is recommended |
| PreferenceStorage.RecommendationsOrdered | app/lib/preferences/storage.ts:175 | the list is ordered by non-increasing confidence, and every confidence lies in [0.4, 1] |
| PreferenceStorage.RecommendationsTiesKeepOrder | app/lib/preferences/storage.ts:156-175 | recommendations with equal confidence keep the order in which their artists first appear |
| PreferenceStorage.ThreeAndOne | app/lib/preferences/storage.ts:150-175 | three works by one artist and one by another give the single recommendation for the first, at 0.6 |
| PreferenceStorage.NoArtworksNoRecommendations | app/lib/preferences/storage.ts:144-176 | no liked artworks give no recommendations |
| CourseGenerator.GenerateCourse | app/lib/llm/courseGenerator.ts:9-64 | without a key it fails and sends nothing; otherwise it sends one request and returns the outcome of the reply |
| CourseGenerator.BuildCourseRequest | app/lib/llm/courseGenerator.ts:14-28 | the request is the system message, then the course prompt as the user message |
| CourseGenerator.CourseOutcomeCases | app/lib/llm/courseGenerator.ts:33-63 | a failed call is re-raised unchanged; missing or empty content is "no content"; a course comes only from content that parses and normalises |
| CourseGenerator.NormalizeErrors | app/lib/llm/courseGenerator.ts:41-57 | normalising fails exactly when the title or the lesson list is missing, the title checked first |
| CourseGenerator.NormalizeCourse | app/lib/llm/courseGenerator.ts:41-57 | a course keeps title, description and epoch, takes its slug from the title, is stamped now, and copies its lists or defaults them to `[]` unchecked |
| CourseGenerator.NormalizeLessonsSpec | app/lib/llm/courseGenerator.ts:47-52 | the lessons are one for one and in order; each keeps its fields, `order` is the source value when truthy and else the 1-based position, and missing lists become `[]` |
| CourseGenerator.DefaultOrdersArePositive | app/lib/llm/courseGenerator.ts:49 | a defaulted order is positive, and no order is zero |
| CourseGenerator.SlugShape | app/lib/llm/courseGenerator.ts:43 | a slug holds only `[a-z0-9-]` and never two hyphens in a row |
| CourseGenerator.SlugIdempotent | app/lib/llm/courseGenerator.ts:43 | slugifying a slug returns it unchanged |
| CourseGenerator.SlugOfColorAndFeeling | app/lib/llm/courseGenerator.ts:43 | `"Color and Feeling"` becomes `"color-and-feeling"` |
| CourseGenerator.SlugKeepsTrailingHyphen | app/lib/llm/courseGenerator.ts:43 | `"Hi!"` becomes `"hi-"`: a trailing hyphen is not trimmed |
| CourseGenerator.SlugKeepsLeadingHyphen | app/lib/llm/courseGenerator.ts:43 | `"!Hi"` becomes `"-hi"`: a leading hyphen is not trimmed |
| CourseGenerator.GenerateEpochStory | app/lib/llm/courseGenerator.ts:66-95 | without a key it returns the key-required sentence and sends nothing; otherwise it sends one request; the story is never empty |
| CourseGenerator.StoryOutcomeCases | app/lib/llm/courseGenerator.ts:90-94 | the story is the non-empty content, or one of two fallback sentences |
| PromptTemplates.GenerateCoursePrompt | app/lib/llm/promptTemplates.ts:11-89 | the successive appends build the course prompt |
| PromptTemplates.CoursePromptStarts | app/lib/llm/promptTemplates.ts:14-18 | the course prompt starts with the fixed preamble |
| PromptTemplates.CoursePromptLayout | app/lib/llm/promptTemplates.ts:14-86 | the prompt is the preamble with the field lines, then the depth line, then the whole format block; it ends with that block |
| PromptTemplates.ParseCoursePromptRoundTrip | app/lib/llm/promptTemplates.ts:20-34 | reading the prompt back gives the truthy fields, in the order topic, artist, epoch, focus, and the depth |
| PromptTemplates.CoursePromptDeterminesParams | app/lib/llm/promptTemplates.ts:20-31 | a field's line is present exactly when the field is truthy: equal prompts mean equal truthy fields and depth |
| PromptTemplates.CoursePromptOfEffective | app/lib/llm/promptTemplates.ts:11-89 | the prompt is a function of the truthy fields and the effective depth alone |
| PromptTemplates.CoursePromptNamesDepth | app/lib/llm/promptTemplates.ts:12-34 | the prompt contains the depth line, `Depth Level: intermediate` when no depth is given |
| PromptAssembly.ParseAssembledRoundTrip | app/lib/llm/promptTemplates.ts:14-34 | reading back any prompt assembled this way gives the effective parameters |
| PromptAssembly.AssembleDeterminesParams | app/lib/llm/promptTemplates.ts:20-34 | two single-line parameter sets give the same prompt exactly when their effective parameters agree |
| PromptAssembly.TakeFieldLine | app/lib/llm/promptTemplates.ts:20-31 | a present field line is read back exactly, and an absent one is skipped |
| PromptTemplates.EpochStoryPrompt | app/lib/llm/promptTemplates.ts:91-104 | the story prompt embeds the epoch name and `Context: <context>` verbatim |
| PromptTemplates.ArtworkDescriptionPrompt | app/lib/llm/promptTemplates.ts:106-121 | the description prompt embeds `artist's "title" (year)` |
| EpochTable.GetEpochById | app/lib/art/epochs.ts:61-63 | the first epoch with the id, or none exactly when no epoch has it |
| EpochTable.GetEpochsByYear | app/lib/art/epochs.ts:65-67 | exactly the epochs whose inclusive range holds the year, in table order |
| EpochTable.TableWellFormed | app/lib/art/epochs.ts:3-59 | the table ids are distinct and every start year is before its end year |
| EpochTable.Year1600 | app/lib/art/epochs.ts:7-19 | 1600 yields Renaissance and Baroque |
| EpochTable.Year1890 | app/lib/art/epochs.ts:30-41 | 1890 yields Impressionism and Modernism |
| EpochTable.Year1970 | app/lib/art/epochs.ts:40-52 | 1970 yields Modernism and Contemporary |
| EpochTable.GapYears | app/lib/art/epochs.ts:19-29 | every year from 1751 to 1859 yields no epoch |
| EpochTable.LookupById | app/lib/art/epochs.ts:61-63 | every table id finds its own entry, and only table ids find one |
| Connections.GetConnectionsForArtwork | app/lib/art/connections.ts:54-58 | exactly the connections with the id at either end, in order |
| Connections.GetArtworkById | app/lib/art/connections.ts:60-62 | the first sample artwork with the id, or none exactly when none has it |
| Connections.SampleConnectionLookups | app/lib/art/connections.ts:43-52 | both Matisse and Rothko get the one connection; the Monet gets none |
| Connections.SampleDataConsistent | app/lib/art/connections.ts:4-52 | the sample ids are distinct and every connection endpoint resolves to a sample artwork |
| ArtworkDedup.DedupById | app/lib/art/allArtworks.ts:11-16 | the reduce gives exactly the input restricted to the positions whose id no earlier artwork has, in input order; so distinct ids, every input id, the first artwork of each id, and the input itself when its ids are distinct |
| ArtworkDedup.DedupStep | app/lib/art/allArtworks.ts:12-14 | `acc.find` on the first occurrences so far sees an id exactly when an earlier artwork has it, so one step appends an unseen artwork and drops a seen one |
| ArtworkDedup.FirstOccurrencesSpec | app/lib/art/allArtworks.ts:11-16 | the first occurrences of a list have distinct ids, hold every id of the list, hold for each id its first artwork, keep the list order, and are the list itself when its ids are distinct |
| ArtworkDedup.RepeatedRecordKeepsFirstPlace | app/lib/art/allArtworks.ts:11-16 | a record repeated after another keeps its first place: `[a, b, a]` gives `[a, b]` |
| AllArtworks.GetAllArtworks | app/lib/art/allArtworks.ts:5-19 | the first occurrences of the sample artworks followed by the course artworks, with the same properties |
| AllArtworks.SampleArtworksWin | app/lib/art/allArtworks.ts:8-14 | on a shared id the sample artwork is the one found first |
| AllArtworks.SampleIdsDistinct | app/lib/art/allArtworks.ts:7-8 | without course artworks the combined list already has distinct ids |
| PoeticText.ParagraphsHaveContent | app/components/ui/PoeticText.tsx:10 | every paragraph is non-blank after trimming |
| PoeticText.ParagraphsSeparatorFree | app/components/ui/PoeticText.tsx:10 | no paragraph contains a blank line `"\n\n"` |
| PoeticText.ParagraphsArePieces | app/components/ui/PoeticText.tsx:10 | the paragraphs are the non-blank pieces between separators, in order, each as many times as it occurs, and none is dropped; the joined pieces give back the text |
| PoeticText.OneParagraph | app/components/ui/PoeticText.tsx:10 | a non-blank text without a blank line is one paragraph, itself |
| PoeticText.BlankNoParagraphs | app/components/ui/PoeticText.tsx:10 | an empty or white-space-only text has no paragraph |
| CourseView.SortedLessonsSpec | app/components/course/CourseViewer.tsx:28 | the sorted lessons are a permutation of the course lessons, by non-decreasing order |
| CourseView.SortedLessonsStable | app/components/course/CourseViewer.tsx:28 | lessons with the same order keep their relative position |
| CourseView.DeepDiveByIdSpec | app/components/course/CourseViewer.tsx:30-37 | a deep dive is found exactly when some lesson has one with the id; it is the first such in lesson order |
| CourseView.CourseViewer.HandleDeepDiveClick | app/components/course/CourseViewer.tsx:30-37 | the found deep dive is selected; with none found the selection stays |
| CourseView.CourseViewer.HandleArtworkClick | app/components/course/CourseViewer.tsx:39-42 | the clicked id is selected |
| CourseView.SelectedArtworkDataSpec | app/components/course/CourseViewer.tsx:44-150 | the modal opens exactly when a course artwork has the selected id, and shows the first one |
| CourseView.FloatingArtworksSpec | app/components/course/CourseViewer.tsx:154 | the floating cards are the first six artworks, or all when fewer |
| Carousel.StepsStayInRange | app/components/artwork/ArtworkCarousel.tsx:40-48 | from an artwork, next and previous land on an artwork, wrapping at either end |
| Carousel.PrevUndoesNext | app/components/artwork/ArtworkCarousel.tsx:41-46 | previous after next, and next after previous, restore the index |
| Carousel.NextAllTheWayRound | app/components/artwork/ArtworkCarousel.tsx:41 | `n` presses of next return to the start |
| Carousel.NextTimesWraps | app/components/artwork/ArtworkCarousel.tsx:41 | up to `n` presses of next count forward and wrap once |
| Carousel.EmptyListGivesNaN | app/components/artwork/ArtworkCarousel.tsx:41-47 | with no artworks a step gives NaN and no step leaves it |
| Carousel.ArtworkCarousel.HandleNext | app/components/artwork/ArtworkCarousel.tsx:40-43 | the index moves to the next position and the text is hidden |
| Carousel.ArtworkCarousel.HandlePrev | app/components/artwork/ArtworkCarousel.tsx:45-48 | the index moves to the previous position and the text is hidden |
| Carousel.ComputeSavedMap | app/components/artwork/ArtworkCarousel.tsx:23-28 | the saved map has an entry for exactly the carousel artworks, true when the stored preferences hold the id |
| Carousel.ArtworkCarousel.RefreshSaved | app/components/artwork/ArtworkCarousel.tsx:21-30 | after the effect every carousel artwork's flag agrees with the store |
| Carousel.ArtworkCarousel.HandleSave | app/components/artwork/ArtworkCarousel.tsx:50-57 | the store gets the artwork only when it is not marked saved; then it is marked saved; flags that agreed with the store still agree |
| Carousel.ArtworkCarousel.SaveTwice | app/components/artwork/ArtworkCarousel.tsx:50-57 | a second save writes nothing to the store |
| PreferenceToggle.PreferenceButton.constructor | app/components/artwork/PreferenceButton.tsx:17-22 | the flag starts true exactly when a window exists and the store holds the artwork |
| PreferenceToggle.PreferenceButton.HandleClick | app/components/artwork/PreferenceButton.tsx:24-40 | a saved artwork is removed and an unsaved one is added with no rating or notes; the flag flips, agrees with the store afterwards, other artworks keep their status, and loading ends false |
| PreferenceToggle.ClickTwice | app/components/artwork/PreferenceButton.tsx:24-40 | two clicks from an agreeing state restore both the flag and the store's saved status |

## Left out

- The OpenAI client is a parameter. The model name, the temperature and the response format are not modelled, because they do not affect the logic of the code.
- `JSON.parse` and `JSON.stringify` are parameters (`parse` for the reply) or are not modelled (the stored blob holds the record itself), because they belong to the platform.
- Non-record JSON values in a reply are not modelled. The reply is either a record whose fields have the declared types or "does not parse".
- Extra lesson fields carried by the object spread are not modelled. Only the declared fields of a lesson are modelled.
- Missing `description` and `epoch` of a reply course, and missing `id`, `title` and `content` of a reply lesson, are not modelled. The lesson spread copies whatever is there without checking it; the model takes these fields as given strings.
- localStorage quota errors and the `console` output are not modelled: the model assumes every `setItem` succeeds. In the code a failed write at `app/lib/preferences/storage.ts:59` is only logged and the stored value stays as it was, yet the carousel and the preference button still set their saved flag, so the flag can then disagree with the store.
- `savePreferences` assigns `lastUpdated` on the caller's own object. The model returns the stamped record instead.
- `Date` serialisation is not modelled. A timestamp is stored and loaded as the same integer.
- Each operation reads the clock once. It is passed in as `now`.
- The `typeof window` tests inside the storage functions are not modelled. The store is always the browser's; only the button's initial state takes `hasWindow`.
- The dynamic import at app/lib/llm/courseGenerator.ts:71 is modelled as a direct call.
- `toLowerCase` is modelled on ASCII letters only. Unicode case mapping is not modelled.
- `Object.entries` is modelled in insertion order. JavaScript lists integer-like keys first.
- Names such as `__proto__` are not special in the model, but they are in the plain objects of the code. In the recommender's counts object such an artist name reads an inherited value. In the carousel's `isSaved` flags, an artwork with id `__proto__` reads `Object.prototype`, which is truthy, and assigning `false` to it creates no entry. So `handleSave` never stores that artwork, while `Carousel.ArtworkCarousel.HandleSave` stores it.
- `app/lib/art/sampleCourses.ts` is not part of this model. Its artwork list is an input of `GetAllArtworks`.
- JavaScript numbers are modelled as integers in `Artwork.year`, `Lesson.order`, the reply lesson's `order`, `ArtworkPreference.rating` and the year argument of `getEpochsByYear`. Fractional values are not modelled. The code accepts them: a reply lesson with `order: 1.5` keeps it and sorts between orders 1 and 2, and `getEpochsByYear(1750.5)` is a valid call. The decimal rendering of a fractional year in a prompt is not modelled either.
- The carousel's two-second timer is modelled only as the event `RevealText`, with no time. The keyboard listener and the drag-swipe gesture are not modelled, because they are event wiring and geometry.
- The listener captures the handlers of the first render, which the model does not capture.
- The course viewer's `onArtworkClick` callback and lesson/connection display state are not modelled, because they have no logic of their own.
- `CourseView.SortedLessons`: the in-place sort of the copied array is modelled as a function on values. The copy means the course's own list is never changed, and the model's course is a `const` field.
- The `try`/`catch` in `handleClick` is not modelled, because the storage functions catch their own errors and nothing inside throws.
- The empty `forEach` over the liked artworks at `app/lib/preferences/storage.ts:169-173`, meant to recommend epochs, is not modelled, because its body does nothing.
- The API route handlers and the pages are not modelled, because they are presentation and I/O.
