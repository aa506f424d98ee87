# SousChef course studio — a Dafny model of its course logic

SousChef is a small course-authoring application. A **course** holds ordered **modules**. A
module holds ordered **lessons**, and a lesson holds ordered **content blocks**: a video
address, markdown text, a download, or a quiz. Authors create courses on the dashboard, by hand
or from a generated outline. They edit a course in the builder and can fill a lesson with
generated text or a generated quiz. Learners read a course in the viewer, behind an e-mail gate.

This project models the logic of that application as pure functions over immutable
datatypes, one Dafny module per source file:

| Dafny module | file | what it holds |
|---|---|---|
| `Types` (types.dfy) | types.ts | the course tree, the string tags, lesson flattening and lookup |
| `Gemini` (gemini.dfy) | services/geminiService.ts | error messages, fence cleaning, JSON parsing, the three generators' results |
| `Builder` (builder.dfy) | pages/BuilderPage.tsx | every tree rewrite of the editor and the two generator handlers |
| `Store` (store.dfy) | App.tsx | the seed, loading, adding (with outline materialisation), updating and deleting courses |
| `CourseView` (course_view.dfy) | pages/CourseView.tsx | course and lesson on screen, the gate, video embedding, block display |
| `Dashboard` (dashboard.dfy) | pages/Dashboard.tsx | card counts and badge, the creation dialog |
| `Strings`, `Seqs`, `Options` | — | JavaScript's `trim`, `includes`, first-occurrence `replace`, `join`, number rendering, `filter` |

Edges of the model:

- The network call to the generator is an input `Call`: either the reply's text, which may be
  absent, or the value the call threw.
- `JSON.parse` is a parameter of type `string -> Option<T>`.
- `Date.now()` is a parameter `now: nat`.
- Saved courses are a snapshot string together with a decoding function.
- JavaScript truthiness is written out wherever the code relies on it. An empty string is
  falsy; objects and arrays are truthy.

## Model

| member | source | states |
|---|---|---|
| Types.ParseContentType | types.ts:2 | exactly the four tags 'video', 'text', 'download', 'quiz' name a block type |
| Types.ContentTypeTag | types.ts:2 | reading back the tag of a block type gives that type |
| Types.ParseStatus | types.ts:42 | exactly 'draft' and 'published' name a course status |
| Types.StatusTag | types.ts:42 | reading back the tag of a status gives that status |
| Types.LessonCountAppend | pages/Dashboard.tsx:77 | the lesson total of two module lists laid end to end is the sum of their totals |
| Types.AllLessons | pages/CourseView.tsx:26-29 | the flattened lesson list has as many lessons as the modules hold together |
| Types.AllLessonsAt | pages/CourseView.tsx:26-29 | lesson j of module i sits at the total of the earlier modules plus j: module order, then lesson order |
| Types.InAllLessons | pages/CourseView.tsx:26-29 | a lesson is in the flattened list exactly when some module holds it |
| Types.FirstWithId | pages/CourseView.tsx:45 | `find` gives the first position whose id matches, and nothing exactly when no position matches |
| Types.FindLesson | pages/CourseView.tsx:45 | the active lesson carries the requested id, sits in some module and is the first lesson with that id in module-then-lesson order; none is found for no id or for an id no lesson has |
| Strings.TrimStart | pages/Dashboard.tsx:23 | only leading whitespace is removed, and the result starts with no whitespace |
| Strings.TrimEnd | pages/Dashboard.tsx:23 | only trailing whitespace is removed, and the result ends with no whitespace |
| Strings.Trim | pages/Dashboard.tsx:23 | the trimmed text is a slice of the input with only whitespace cut off before and after it; it is empty exactly when the input is all whitespace, and otherwise has no whitespace at either end |
| Strings.FindFrom | pages/CourseView.tsx:160 | the search from a position finds the first occurrence at or after it, and nothing only when there is none |
| Strings.IndexOf | pages/CourseView.tsx:160 | `includes` holds exactly when a first occurrence exists, and no occurrence comes before the one found |
| Strings.ReplaceFirst | pages/CourseView.tsx:163 | replace with a string pattern and a replacement free of `$` patterns changes only the first occurrence: same prefix, the replacement, same suffix; without an occurrence nothing changes |
| Strings.Join | pages/BuilderPage.tsx:98 | `join('\n')` of the text blocks' values: nothing for no piece; otherwise as long as the pieces plus one separator between each neighbouring pair, starting with the first piece and ending with the last |
| Strings.JoinSnoc | pages/BuilderPage.tsx:98 | one more piece on the right adds exactly one separator and then the piece; with the one-piece join this fixes every separator |
| Strings.JoinEmptyIff | pages/BuilderPage.tsx:98-99 | the joined text is empty exactly when there is no text block or a single empty one |
| Strings.DigitChar | App.tsx:94 | a digit below ten is written as that decimal digit character |
| Strings.NatToString | App.tsx:94 | the id from the clock is made of digits only, with one digit exactly for values below ten |
| Strings.NatToStringInjective | App.tsx:94 | different numbers render as different decimal strings, so different clock readings give different id strings |
| Strings.NumberedTagsDiffer | App.tsx:81 | ids built as prefix, number, dash, tail differ whenever the numbers differ |
| Seqs.Filter | App.tsx:110 | `filter` keeps exactly the elements that pass, and only elements of the input |
| Seqs.FilterCounts | App.tsx:110 | `filter` keeps every element that passes exactly as many times as it occurs, and no element more often than it occurs |
| Seqs.FilterIsSubsequence | App.tsx:110 | `filter` keeps the survivors' relative order |
| Seqs.FilterIdempotent | App.tsx:110 | filtering twice with the same test is filtering once |
| Seqs.FilterKeepsAll | App.tsx:110 | when every element passes, `filter` returns its input |
| Gemini.AbsentCharNotContained | services/geminiService.ts:19 | a text lacking one of the pattern's characters does not include the pattern |
| Gemini.ExtractErrorMessage | services/geminiService.ts:7-27 | a string failure gives its JSON `error.message` or else itself; for an object, "leaked" wins, then the nested message, then `Erreur <status>: <msg>`, then the message, then the generic text, so the result is never empty |
| Gemini.StripFences | services/geminiService.ts:33 | removing the fences never lengthens the text |
| Gemini.StripKeepsHead | services/geminiService.ts:33 | a character that does not start three backticks is kept |
| Gemini.StripLeavesNoTicks | services/geminiService.ts:33 | no three backticks survive the global replace, even where removing a fence joins two pieces |
| Gemini.StripSkipsPlainPrefix | services/geminiService.ts:33 | text without backticks passes through the replace unchanged |
| Gemini.TicksAtIffContains | services/geminiService.ts:33 | three backticks occur at some position exactly when the text includes "```" |
| Gemini.TicksInSlice | services/geminiService.ts:33 | three backticks inside a slice are three backticks of the whole text |
| Gemini.TrimKeepsNoTicks | services/geminiService.ts:33 | trimming cannot create a "```" |
| Gemini.CleanFences | services/geminiService.ts:32-33 | the cleaned text includes no "```" and has no leading or trailing whitespace |
| Gemini.CleanFencedBlock | services/geminiService.ts:32-33 | a reply wrapped in a ```json fence cleans to its trimmed body |
| Gemini.SafeParseJson | services/geminiService.ts:29-40 | absent, empty and "undefined" texts parse to nothing; any other text is parsed after cleaning |
| Gemini.GenerateCourseOutline | services/geminiService.ts:86-91 | an unreadable reply is exactly the invalid-format error and no data; a failure is the extracted message |
| Gemini.GenerateLessonContent | services/geminiService.ts:115-118 | an error exactly when the call failed; otherwise non-empty text, with the fallback text for an absent or empty reply |
| Gemini.QuizExcerpt | services/geminiService.ts:128 | the prompt quotes a prefix of the lesson text of at most 3000 characters, the whole text when it is short enough |
| Gemini.GenerateQuiz | services/geminiService.ts:149-153 | an error exactly when the call failed; an unreadable reply yields an empty question list |
| Builder.MergeCourse | pages/BuilderPage.tsx:39-41 | each field present in the update replaces the course's own, and every other field is kept |
| Builder.MergeLesson | pages/BuilderPage.tsx:46 | each field present in the update replaces the lesson's own, and every other field is kept |
| Builder.MergeIdempotent | pages/BuilderPage.tsx:39-49 | applying the same partial update twice is applying it once |
| Builder.RewriteOfUnknownLessonIsIdentity | pages/BuilderPage.tsx:43-49 | a lesson rewrite aimed at an id no lesson has leaves the course as it was |
| Builder.SameHeadsSameCount | pages/BuilderPage.tsx:43-49 | a rewrite that keeps every module's lesson count keeps the course's lesson total |
| Builder.UpdateLesson | pages/BuilderPage.tsx:43-49 | every lesson with the id, in any module, gets the fields merged in; other lessons, module heads and course fields are kept |
| Builder.UpdateUnknownLesson | pages/BuilderPage.tsx:43-49 | updating an unknown lesson changes nothing |
| Builder.UpdateLessonIdempotent | pages/BuilderPage.tsx:43-49 | repeating a lesson update is harmless, even one that changes the lesson's id |
| Builder.AddModule | pages/BuilderPage.tsx:51-54 | one empty 'Nouveau Module' is appended after the unchanged modules; nothing else changes |
| Builder.AddModuleCounts | pages/BuilderPage.tsx:51-54 | adding a module adds one module and no lesson |
| Builder.RenameModule | pages/BuilderPage.tsx:139-142 | only modules with the id take the new title; ids, lessons and order are kept |
| Builder.RenameModuleKeepsLessons | pages/BuilderPage.tsx:139-142 | renaming keeps the flattened lesson list and the lesson total |
| Builder.AllLessonsDependOnLessonsOnly | pages/BuilderPage.tsx:139-142 | module lists with the same lesson lists flatten alike |
| Builder.NewLesson | pages/BuilderPage.tsx:56-69 | the lesson added is a draft with no blocks, titled 'Nouvelle Leçon' with the placeholder summary |
| Builder.AddLesson | pages/BuilderPage.tsx:56-69 | modules with the id get one draft lesson with no blocks at the end; other modules are kept |
| Builder.AddLessonCount | pages/BuilderPage.tsx:64-67 | the lesson total grows by the number of modules carrying the id |
| Builder.LessonCountGrowth | pages/BuilderPage.tsx:64-67 | one extra lesson in each module carrying the id adds that many lessons to the total |
| Builder.AddLessonToUnknownModule | pages/BuilderPage.tsx:64-67 | adding a lesson to an unknown module changes nothing |
| Builder.AddContentBlock | pages/BuilderPage.tsx:71-79 | lessons with the id get the new block after their existing blocks; nothing else changes |
| Builder.AddBlankBlock | pages/BuilderPage.tsx:292-293 | the video and text buttons append a block with an empty value and empty metadata |
| Builder.AddContentBlockGrowsLesson | pages/BuilderPage.tsx:71-79 | the receiving lesson keeps its blocks and gains exactly the new one, last |
| Builder.SetBlockValue | pages/BuilderPage.tsx:224 | blocks with the id take the new value and keep id, type and metadata; the others are untouched |
| Builder.EditBlockValue | pages/BuilderPage.tsx:222-226 | the edited block list of the lesson on screen is stored in every lesson with its id |
| Builder.WithoutBlock | pages/BuilderPage.tsx:251 | no block with the id remains, every other block does, as many times as before and in order; without a match nothing changes |
| Builder.WithoutBlockIdempotent | pages/BuilderPage.tsx:251 | removing a block twice is removing it once |
| Builder.RemoveBlock | pages/BuilderPage.tsx:250-253 | the lesson on screen is stored without the block |
| Builder.RemoveBlockTwice | pages/BuilderPage.tsx:250-253 | deleting the same block again from the redisplayed lesson changes nothing more |
| Builder.QuizSource | pages/BuilderPage.tsx:98-99 | the quiz is asked about the joined text blocks, or the description exactly when that join is empty |
| Builder.ErrorIsTruthy | pages/BuilderPage.tsx:86 | the `if (result.error)` test: a result with data never takes the error branch, and an error takes it exactly when its message is not empty |
| Builder.MagicContentAsWritten | pages/BuilderPage.tsx:81-92 | with a lesson on screen, an error with a message is shown and the course kept; any other result appends one text block |
| Builder.EmptyErrorAppendsBlock | pages/BuilderPage.tsx:86-90 | a failure with an empty message still appends a text block |
| Builder.MagicContent | pages/BuilderPage.tsx:81-92 | any failure keeps the course and is shown; a success appends the text as one text block; with no lesson on screen nothing happens |
| Builder.MagicContentAgrees | pages/BuilderPage.tsx:86-90 | the corrected handler and the code agree except on a failure with an empty message |
| Builder.MagicQuiz | pages/BuilderPage.tsx:94-106 | a failure never changes the course; a question list, even an empty one, is appended as one quiz block carrying the list |
| Builder.QuizBlockConsistent | pages/BuilderPage.tsx:103 | the quiz block's value is the serialisation of its own `metadata.questions` |
| Store.InitialCourses | App.tsx:68-71 | a stored snapshot is used when present; otherwise the seed: one published course, one module, two non-draft lessons with no blocks |
| Store.OutlineOf | App.tsx:80-90 | reading an outline off modules keeps their count |
| Store.Materialize | App.tsx:80-90 | the modules spell the outline (count, order, titles, descriptions); every lesson is a draft with no blocks |
| Store.MaterializedIdsDistinct | App.tsx:81-84 | for one clock reading, module ids are pairwise distinct and lesson ids are pairwise distinct |
| Store.AddCourse | App.tsx:77-103 | exactly one new draft course goes in front of the unchanged old ones and its id, the clock reading in decimal, is returned; without an outline it is empty with the given title; with one its title is the outline's when not empty, else the given title; with one its modules are the materialised outline (draft lessons, no blocks, index ids); the subtitle is the outline's when not empty, else 'No description provided.' |
| Store.AddedIdsFollowClock | App.tsx:94 | courses added at different clock readings get different ids |
| Store.FindCourse | pages/CourseView.tsx:24 | the course found is the first carrying the id; none is found only when no course carries it |
| Store.UpdateCourse | App.tsx:105-107 | courses with the edited course's id are replaced by it; length, order and the others are kept |
| Store.UpdateThenFind | App.tsx:105-107 | after an update the store serves the edited course under its id; an unknown id leaves the store unchanged |
| Store.DeleteCourse | App.tsx:109-111 | no course with the id remains, every other course does, as many times as before and in order; an unknown id changes nothing |
| Store.DeleteIdempotent | App.tsx:109-111 | deleting twice is deleting once, and the deleted id can no longer be found |
| CourseView.OpenCourse | pages/CourseView.tsx:24 | the course shown is the first carrying the route's id; none is shown exactly when no course carries it |
| CourseView.ViewLessons | pages/CourseView.tsx:26-29 | no course means no lessons; otherwise the list is the flattening whose order `Types.AllLessonsAt` fixes (module order, then lesson order), holding every lesson of every module |
| CourseView.InitialActive | pages/CourseView.tsx:31 | the first lesson's id starts selected; nothing is selected when there is no lesson or that id is empty |
| CourseView.InitialLessonIsShown | pages/CourseView.tsx:31-45 | the lesson selected at first is the lesson the pane displays |
| CourseView.Signup | pages/CourseView.tsx:47-53 | a non-empty e-mail enrols and hides the gate; an empty one changes nothing |
| CourseView.GateStaysConsistent | pages/CourseView.tsx:47-53 | over any series of submissions, enrolled and overlay hidden stay equal, and hold exactly once a non-empty e-mail was submitted |
| CourseView.EnrolledFromOpening | pages/CourseView.tsx:32-33 | from the page's opening state (not enrolled, gate shown) the learner is enrolled, and the gate hidden, exactly once some submitted e-mail was non-empty |
| CourseView.LearnerLabel | pages/CourseView.tsx:135 | the sidebar shows the e-mail when one is typed and a non-empty guest label otherwise |
| CourseView.EmbedUrl | pages/CourseView.tsx:160-163 | a frame exactly when the value includes 'youtube.com' or 'youtu.be'; its address is the value with its first 'watch?v=' made 'embed/', or the value itself without one |
| CourseView.ReplaceFirstSplices | pages/CourseView.tsx:163 | replacing the first occurrence splices the replacement in where the pattern was |
| CourseView.WatchUrlEmbeds | pages/CourseView.tsx:163 | a watch address `pre + "watch?v=" + id` with no earlier marker becomes `pre + "embed/" + id` |
| CourseView.QuizItems | pages/CourseView.tsx:183-186 | a quiz shows its metadata questions in order, numbered from 1 |
| CourseView.ViewBlock | pages/CourseView.tsx:158-201 | a video is a frame exactly when the address embeds, else a placeholder; a quiz shows its metadata questions in order, numbered from 1; text and downloads render their value as markdown |
| CourseView.QuizViewIgnoresValue | pages/CourseView.tsx:183 | what a quiz block displays does not depend on its serialised value |
| CourseView.GeneratedQuizIsDisplayed | pages/CourseView.tsx:183-186 | a quiz block added by the builder displays exactly the generated questions |
| CourseView.RenderMain | pages/CourseView.tsx:144-219 | with a lesson, one view per block in order and the coming-soon notice exactly when it has no block; otherwise the chapter invitation |
| CourseView.FoundLessonHasId | pages/CourseView.tsx:45 | a lesson found for an id means some module holds a lesson with that id |
| CourseView.Render | pages/CourseView.tsx:36-45 | "course not found" exactly when no course has the route's id; otherwise the course's title, and a pane that shows the first lesson carrying the selected id (its blocks in order), or the chapter invitation exactly when no lesson has that id |
| Dashboard.CardCounts | pages/Dashboard.tsx:77 | the card shows `modules.length` modules, and lessons summed from the left equal to the lesson total and to the viewer's lesson count |
| Dashboard.StatusBadge | pages/Dashboard.tsx:81-82 | 'Publié' exactly for a published course, 'Brouillon' exactly for a draft |
| Dashboard.OpenDialog | pages/Dashboard.tsx:62 | the dialog opens in generated mode with no error, and the course list is untouched |
| Dashboard.ChooseMode | pages/Dashboard.tsx:151-157 | the tabs switch the mode and clear the error, and nothing else |
| Dashboard.CreateDisabled | pages/Dashboard.tsx:187 | the create button is disabled exactly when a generation runs or the topic is all whitespace |
| Dashboard.CreateManual | pages/Dashboard.tsx:22-27 | a topic that is not blank becomes one empty draft course titled with the untrimmed topic, in front, and it opens; a blank topic does nothing |
| Dashboard.ManualCreateEnabledIff | pages/Dashboard.tsx:187 | with no generation running, the button is disabled exactly when manual creation would do nothing |
| Dashboard.CreateWithAiAsWritten | pages/Dashboard.tsx:29-45 | a blank topic does nothing; a failure with an empty message leaves the spinner running, with no error and no new course |
| Dashboard.EmptyThrowLeavesSpinner | pages/Dashboard.tsx:36-44 | an outline call that throws "" leaves the page busy |
| Dashboard.CreateWithAi | pages/Dashboard.tsx:29-45 | a blank topic does nothing; a failure adds no course and is recorded; an outline becomes one new draft course in front, titled with the outline's title, whose modules are the materialised outline, and the page opens it; no generation is left running |
| Dashboard.CreateWithAiAgrees | pages/Dashboard.tsx:36-44 | the corrected handler and the code agree except on a failure with an empty message |
| Dashboard.UnreadableOutlineIsReported | pages/Dashboard.tsx:36-38 | an unreadable outline reply adds no course and shows exactly the invalid-format message |

## Findings

| source | as written | input that shows it | evidently intended | confidence | as-written member | corrected member |
|---|---|---|---|---|---|---|
| pages/BuilderPage.tsx:86-90 | `if (result.error)` tests truthiness, so a failure whose extracted message is empty takes the success branch and appends a text block with `result.data \|\| ""` | the content call throws the empty string: the extracted message is "" and an empty text block is appended to the lesson | any failure leaves the lesson unchanged and is reported | low; not executed | Builder.MagicContentAsWritten, Builder.EmptyErrorAppendsBlock | Builder.MagicContent |
| pages/Dashboard.tsx:36-44 | `if (result.error) … else if (result.data)` lets a failure with an empty message fall through both branches, so `isGenerating` is never reset | the outline call throws the empty string: the page stays on "Création en cours..." with no error and no new course | every failure stops the spinner and is shown | low; not executed | Dashboard.CreateWithAiAsWritten, Dashboard.EmptyThrowLeavesSpinner | Dashboard.CreateWithAi |

The generated-quiz handler (pages/BuilderPage.tsx:100-104) has the same test. There a failure
with an empty message adds nothing, because the `else if (result.data)` branch does not run,
so `Builder.MagicQuiz` keeps the code's truthiness test.

## Left out

- Saving to local storage (App.tsx:73-75) is not modelled. Loading is a snapshot string plus a decoding function; a corrupt snapshot makes `JSON.parse` throw, which has no counterpart here.
- `JSON.parse` and `JSON.stringify` are parameters. A parser returns nothing when parsing throws or yields a falsy value, and otherwise a well-formed outline or question list.
- Gemini.GenerateCourseOutline: does not model a reply that parses to a truthy value of the wrong shape (`[]`, or an object without `modules`). The source accepts it at services/geminiService.ts:87, then `aiOutline.modules.map` throws at App.tsx:80 after the spinner was started (pages/Dashboard.tsx:31), leaving it running, like the second finding. The typed parser must send such a reply to nothing, which gives the invalid-format error instead. The response schema makes such a reply unlikely.
- Gemini.GenerateQuiz: does not model a reply that parses to a truthy non-array. The source stores it as the block's `questions` (pages/BuilderPage.tsx:103) and the viewer's `.map` throws on it (pages/CourseView.tsx:183). The typed parser must send such a reply to nothing, which gives an empty quiz instead. The response schema makes such a reply unlikely.
- Strings.ReplaceFirst: inserts the replacement literally. JavaScript's `replace` also expands `$&`, `$$`, `` $` `` and `$'` in a replacement string. The only call passes "embed/", which holds no `$`.
- `Date.now()` is one reading `now` per handler. The source reads the clock separately for each generated id and for the thumbnail, so one course may embed several timestamps. No model of freshness against existing ids: two blocks, lessons or modules created in the same millisecond share an id in the source as well.
- The generator SDK, the prompts, the model name and the response schemas are a foreign network service. Each call's outcome is an input.
- The loading flags of the builder's generators and the lost update between two generator handlers running at once are not modelled: each handler closes over a course snapshot. Each handler is one sequential step.
- Editor-only state is not modelled. This covers the text block being edited, the "copied" flag, the share link, the preview window and navigation (except the id the dashboard opens). The builder's selected lesson is an input of its generator handlers; `addLesson` also selects the new lesson, which is not modelled.
- Markdown rendering, styling and the modal's close button are presentation only. `constants/theme.ts` holds styling constants only.
- Strings are sequences of characters. `substring(0, 3000)` counts UTF-16 code units, which differ from characters outside the Basic Multilingual Plane.
- The `status` of a thrown error object is a natural number. A status that is a non-numeric string would still be printed by the source, but it is not modelled.
- Questions from the quiz generator carry no `id` in the response schema. The model's question type keeps the `id` field that types.ts declares, and the parser must supply it.
- App.tsx declares no route for the viewer; the builder links to `#/view/<id>` regardless. The model treats the viewer as reachable with a course id.
