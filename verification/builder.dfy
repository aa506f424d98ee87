/**
 * The editor's tree rewrites (pages/BuilderPage.tsx). Each handler rebuilds the course it edits:
 * the matching nodes are replaced, everything else is copied, and the new course is handed to
 * the store. `now` stands for the `Date.now()` reading a new id is built from.
 */
module Builder {
  import opened Options
  import opened Strings
  import opened Types
  import opened Gemini
  import Seqs

  const NewModuleTitle: string := "Nouveau Module"
  const NewLessonTitle: string := "Nouvelle Leçon"
  const NewLessonDescription: string := "Résumé de la leçon..."

  // ---------------------------------------------------------------------------
  // Partial updates (`{ ...x, ...updates }`)
  // ---------------------------------------------------------------------------

  /** A `Partial<Course>`: each present field replaces the course's own. */
  datatype CoursePatch = CoursePatch(
    id: Option<string>,
    title: Option<string>,
    subtitle: Option<string>,
    thumbnail: Option<string>,
    status: Option<CourseStatus>,
    modules: Option<seq<Module>>)

  /** A `Partial<Lesson>`. */
  datatype LessonPatch = LessonPatch(
    id: Option<string>,
    title: Option<string>,
    description: Option<string>,
    blocks: Option<seq<ContentBlock>>,
    isDraft: Option<bool>)

  function ModulesPatch(ms: seq<Module>): CoursePatch
  {
    CoursePatch(None, None, None, None, None, Some(ms))
  }

  function BlocksPatch(bs: seq<ContentBlock>): LessonPatch
  {
    LessonPatch(None, None, None, Some(bs), None)
  }

  /** `handleUpdateCourse`: the course with the given fields overwritten, the rest kept. */
  function MergeCourse(c: Course, p: CoursePatch): (r: Course)
    ensures r.id == p.id.GetOr(c.id) && r.title == p.title.GetOr(c.title)
    ensures r.subtitle == p.subtitle.GetOr(c.subtitle) && r.thumbnail == p.thumbnail.GetOr(c.thumbnail)
    ensures r.status == p.status.GetOr(c.status) && r.modules == p.modules.GetOr(c.modules)
  {
    Course(
      p.id.GetOr(c.id), p.title.GetOr(c.title), p.subtitle.GetOr(c.subtitle),
      p.thumbnail.GetOr(c.thumbnail), p.status.GetOr(c.status), p.modules.GetOr(c.modules))
  }

  /** The lesson-level merge of `handleUpdateLesson`. */
  function MergeLesson(l: Lesson, p: LessonPatch): (r: Lesson)
    ensures r.id == p.id.GetOr(l.id) && r.title == p.title.GetOr(l.title)
    ensures r.description == p.description.GetOr(l.description)
    ensures r.blocks == p.blocks.GetOr(l.blocks) && r.isDraft == p.isDraft.GetOr(l.isDraft)
  {
    Lesson(
      p.id.GetOr(l.id), p.title.GetOr(l.title), p.description.GetOr(l.description),
      p.blocks.GetOr(l.blocks), p.isDraft.GetOr(l.isDraft))
  }

  /** Applying the same partial update twice is applying it once. */
  lemma MergeIdempotent(c: Course, p: CoursePatch, l: Lesson, q: LessonPatch)
    ensures MergeCourse(MergeCourse(c, p), p) == MergeCourse(c, p)
    ensures MergeLesson(MergeLesson(l, q), q) == MergeLesson(l, q)
  {
  }

  // ---------------------------------------------------------------------------
  // Shapes of a rewrite
  // ---------------------------------------------------------------------------

  /** `r` is `c` with at most its module list replaced. */
  predicate OnlyModulesDiffer(c: Course, r: Course)
  {
    r == c.(modules := r.modules)
  }

  /** Same number of modules and, position by position, the same module id, title and lesson count. */
  predicate SameModuleHeads(a: seq<Module>, b: seq<Module>)
  {
    && |a| == |b|
    && forall i :: 0 <= i < |a| ==>
         a[i].id == b[i].id && a[i].title == b[i].title && |a[i].lessons| == |b[i].lessons|
  }

  /** Every lesson of `c` whose id is `lessonId` is turned into `edit` of itself, in whichever
      module it sits; every other lesson, every module head and every course field is kept. */
  predicate LessonsRewritten(c: Course, r: Course, lessonId: string, edit: Lesson -> Lesson)
  {
    && OnlyModulesDiffer(c, r)
    && SameModuleHeads(c.modules, r.modules)
    && forall i, j :: 0 <= i < |c.modules| && 0 <= j < |c.modules[i].lessons| ==>
         r.modules[i].lessons[j] ==
           (if c.modules[i].lessons[j].id == lessonId then edit(c.modules[i].lessons[j])
            else c.modules[i].lessons[j])
  }

  /** A rewrite aimed at a lesson id nobody has leaves the course as it was. */
  lemma RewriteOfUnknownLessonIsIdentity(c: Course, r: Course, lessonId: string, edit: Lesson -> Lesson)
    requires LessonsRewritten(c, r, lessonId, edit)
    requires !HasLessonId(c.modules, lessonId)
    ensures r == c
  {
    forall i | 0 <= i < |c.modules|
      ensures r.modules[i] == c.modules[i]
    {
      assert r.modules[i].lessons == c.modules[i].lessons;
    }
    assert r.modules == c.modules;
  }

  /** Module lists with the same heads hold the same number of lessons. */
  lemma {:induction false} SameHeadsSameCount(a: seq<Module>, b: seq<Module>)
    requires SameModuleHeads(a, b)
    ensures LessonCount(a) == LessonCount(b)
  {
    if |a| > 0 {
      SameHeadsSameCount(a[1..], b[1..]);
    }
  }

  /** The number of modules carrying `id`. */
  function ModulesWithId(ms: seq<Module>, id: string): nat
  {
    if |ms| == 0 then 0 else (if ms[0].id == id then 1 else 0) + ModulesWithId(ms[1..], id)
  }

  // ---------------------------------------------------------------------------
  // handleUpdateLesson
  // ---------------------------------------------------------------------------

  function UpdateLessonIn(m: Module, lessonId: string, p: LessonPatch): Module
  {
    m.(lessons := seq(|m.lessons|, j requires 0 <= j < |m.lessons| =>
      if m.lessons[j].id == lessonId then MergeLesson(m.lessons[j], p) else m.lessons[j]))
  }

  /** `handleUpdateLesson`: every lesson with the id, in any module, gets the fields merged in. */
  function UpdateLesson(c: Course, lessonId: string, p: LessonPatch): (r: Course)
    ensures LessonsRewritten(c, r, lessonId, (l: Lesson) => MergeLesson(l, p))
  {
    MergeCourse(c, ModulesPatch(seq(|c.modules|, i requires 0 <= i < |c.modules| =>
      UpdateLessonIn(c.modules[i], lessonId, p))))
  }

  /** An update aimed at an unknown lesson id changes nothing. */
  lemma UpdateUnknownLesson(c: Course, lessonId: string, p: LessonPatch)
    requires !HasLessonId(c.modules, lessonId)
    ensures UpdateLesson(c, lessonId, p) == c
  {
    RewriteOfUnknownLessonIsIdentity(c, UpdateLesson(c, lessonId, p), lessonId, (l: Lesson) => MergeLesson(l, p));
  }

  /** Repeating a lesson update is harmless, even when the update renames the lesson's id. */
  lemma UpdateLessonIdempotent(c: Course, lessonId: string, p: LessonPatch)
    ensures UpdateLesson(UpdateLesson(c, lessonId, p), lessonId, p) == UpdateLesson(c, lessonId, p)
  {
    var r1 := UpdateLesson(c, lessonId, p);
    var r2 := UpdateLesson(r1, lessonId, p);
    forall i | 0 <= i < |c.modules|
      ensures r2.modules[i] == r1.modules[i]
    {
      forall j | 0 <= j < |c.modules[i].lessons|
        ensures r2.modules[i].lessons[j] == r1.modules[i].lessons[j]
      {
        var l := c.modules[i].lessons[j];
        MergeIdempotent(c, ModulesPatch([]), l, p);
      }
      assert r2.modules[i].lessons == r1.modules[i].lessons;
    }
    assert r2.modules == r1.modules;
  }

  // ---------------------------------------------------------------------------
  // addModule, module rename, addLesson
  // ---------------------------------------------------------------------------

  function NewModule(now: nat): Module
  {
    Module("m-" + NatToString(now), NewModuleTitle, [])
  }

  /** `addModule`: one empty module titled 'Nouveau Module' after the existing ones. */
  function AddModule(c: Course, now: nat): (r: Course)
    ensures OnlyModulesDiffer(c, r)
    ensures |r.modules| == |c.modules| + 1 && r.modules[..|c.modules|] == c.modules
    ensures r.modules[|c.modules|].title == NewModuleTitle && r.modules[|c.modules|].lessons == []
  {
    MergeCourse(c, ModulesPatch(c.modules + [NewModule(now)]))
  }

  /** Adding a module adds one module and no lesson. */
  lemma AddModuleCounts(c: Course, now: nat)
    ensures |AddModule(c, now).modules| == |c.modules| + 1
    ensures LessonCount(AddModule(c, now).modules) == LessonCount(c.modules)
  {
    LessonCountAppend(c.modules, [NewModule(now)]);
    assert LessonCount([NewModule(now)]) == 0 by {
      assert [NewModule(now)][1..] == [];
    }
  }

  /** The title input of a module: only the module(s) with that id get the new title. */
  function RenameModule(c: Course, moduleId: string, title: string): (r: Course)
    ensures OnlyModulesDiffer(c, r)
    ensures |r.modules| == |c.modules|
    ensures forall i :: 0 <= i < |c.modules| ==>
      r.modules[i] == (if c.modules[i].id == moduleId then c.modules[i].(title := title) else c.modules[i])
  {
    MergeCourse(c, ModulesPatch(seq(|c.modules|, i requires 0 <= i < |c.modules| =>
      if c.modules[i].id == moduleId then c.modules[i].(title := title) else c.modules[i])))
  }

  /** Renaming keeps ids, order and every lesson, so the lesson count too. */
  lemma RenameModuleKeepsLessons(c: Course, moduleId: string, title: string)
    ensures LessonCount(RenameModule(c, moduleId, title).modules) == LessonCount(c.modules)
    ensures AllLessons(RenameModule(c, moduleId, title).modules) == AllLessons(c.modules)
  {
    var r := RenameModule(c, moduleId, title);
    AllLessonsDependOnLessonsOnly(c.modules, r.modules);
  }

  /** Flattening sees only each module's lesson list. */
  lemma {:induction false} AllLessonsDependOnLessonsOnly(a: seq<Module>, b: seq<Module>)
    requires |a| == |b| && forall i :: 0 <= i < |a| ==> a[i].lessons == b[i].lessons
    ensures AllLessons(a) == AllLessons(b) && LessonCount(a) == LessonCount(b)
  {
    if |a| > 0 {
      AllLessonsDependOnLessonsOnly(a[1..], b[1..]);
    }
  }

  /** The lesson `addLesson` creates: a draft with no blocks and the placeholder title and summary. */
  function NewLesson(now: nat): (l: Lesson)
    ensures l.isDraft && l.blocks == []
    ensures l.title == NewLessonTitle && l.description == NewLessonDescription
  {
    Lesson("l-" + NatToString(now), NewLessonTitle, NewLessonDescription, [], true)
  }

  /** `addLesson`: every module with the id gets one fresh draft lesson with no blocks at the end
      of its lessons; no other module changes. */
  function AddLesson(c: Course, moduleId: string, now: nat): (r: Course)
    ensures OnlyModulesDiffer(c, r)
    ensures |r.modules| == |c.modules|
    ensures forall i :: 0 <= i < |c.modules| ==>
      && r.modules[i].id == c.modules[i].id
      && r.modules[i].title == c.modules[i].title
      && r.modules[i].lessons ==
           (if c.modules[i].id == moduleId then c.modules[i].lessons + [NewLesson(now)] else c.modules[i].lessons)
    ensures forall i :: 0 <= i < |c.modules| && c.modules[i].id == moduleId ==>
      var ls := r.modules[i].lessons;
      |ls| > 0 && ls[|ls| - 1].isDraft && ls[|ls| - 1].blocks == [] && ls[|ls| - 1].title == NewLessonTitle
  {
    var newModules := seq(|c.modules|, i requires 0 <= i < |c.modules| =>
      if c.modules[i].id == moduleId then c.modules[i].(lessons := c.modules[i].lessons + [NewLesson(now)])
      else c.modules[i]);
    MergeCourse(c, ModulesPatch(newModules))
  }

  /** The course gains one lesson per module carrying the id: exactly one when module ids are
      unique and the id is known, none when it is unknown. */
  lemma AddLessonCount(c: Course, moduleId: string, now: nat)
    ensures LessonCount(AddLesson(c, moduleId, now).modules) == LessonCount(c.modules) + ModulesWithId(c.modules, moduleId)
  {
    LessonCountGrowth(c.modules, AddLesson(c, moduleId, now).modules, moduleId);
  }

  lemma {:induction false} LessonCountGrowth(a: seq<Module>, b: seq<Module>, id: string)
    requires |a| == |b|
    requires forall i :: 0 <= i < |a| ==> |b[i].lessons| == |a[i].lessons| + (if a[i].id == id then 1 else 0)
    ensures LessonCount(b) == LessonCount(a) + ModulesWithId(a, id)
  {
    if |a| > 0 {
      LessonCountGrowth(a[1..], b[1..], id);
    }
  }

  /** With no module carrying the id, adding a lesson to it changes nothing. */
  lemma AddLessonToUnknownModule(c: Course, moduleId: string, now: nat)
    requires forall i :: 0 <= i < |c.modules| ==> c.modules[i].id != moduleId
    ensures AddLesson(c, moduleId, now) == c
  {
    var r := AddLesson(c, moduleId, now);
    assert r.modules == c.modules;
  }

  // ---------------------------------------------------------------------------
  // addContentBlock
  // ---------------------------------------------------------------------------

  function NewBlock(kind: ContentType, value: string, metadata: Metadata, now: nat): ContentBlock
  {
    ContentBlock("b-" + NatToString(now), kind, value, Some(metadata))
  }

  /** `addContentBlock`: every lesson with the id gets the block appended after its existing
      blocks, one more block than before; nothing else changes. */
  function AddContentBlock(c: Course, lessonId: string, kind: ContentType, value: string, metadata: Metadata, now: nat)
    : (r: Course)
    ensures LessonsRewritten(c, r, lessonId, (l: Lesson) => l.(blocks := l.blocks + [NewBlock(kind, value, metadata, now)]))
  {
    var b := NewBlock(kind, value, metadata, now);
    MergeCourse(c, ModulesPatch(seq(|c.modules|, i requires 0 <= i < |c.modules| =>
      c.modules[i].(lessons := seq(|c.modules[i].lessons|, j requires 0 <= j < |c.modules[i].lessons| =>
        var l := c.modules[i].lessons[j];
        if l.id == lessonId then l.(blocks := l.blocks + [b]) else l)))))
  }

  /** The toolbar's video and text buttons: `addContentBlock` with its defaults, an empty value
      and metadata `{}`. */
  function AddBlankBlock(c: Course, lessonId: string, kind: ContentType, now: nat): (r: Course)
    ensures LessonsRewritten(c, r, lessonId, (l: Lesson) => l.(blocks := l.blocks + [ContentBlock("b-" + NatToString(now), kind, "", Some(EmptyMetadata))]))
  {
    AddContentBlock(c, lessonId, kind, "", EmptyMetadata, now)
  }

  /** The lesson that received a block has exactly one block more, the new one last. */
  lemma AddContentBlockGrowsLesson(c: Course, lessonId: string, kind: ContentType, value: string, metadata: Metadata, now: nat, i: nat, j: nat)
    requires i < |c.modules| && j < |c.modules[i].lessons| && c.modules[i].lessons[j].id == lessonId
    ensures var l' := AddContentBlock(c, lessonId, kind, value, metadata, now).modules[i].lessons[j];
      && |l'.blocks| == |c.modules[i].lessons[j].blocks| + 1
      && l'.blocks[..|l'.blocks| - 1] == c.modules[i].lessons[j].blocks
      && l'.blocks[|l'.blocks| - 1] == NewBlock(kind, value, metadata, now)
  {
    var l := c.modules[i].lessons[j];
    assert (l.blocks + [NewBlock(kind, value, metadata, now)])[..|l.blocks|] == l.blocks;
  }

  // ---------------------------------------------------------------------------
  // Editing and removing a block of the lesson on screen
  // ---------------------------------------------------------------------------

  /** The value input of a block: blocks with the id take the new value and keep their id,
      type and metadata; the others are untouched. */
  function SetBlockValue(bs: seq<ContentBlock>, blockId: string, value: string): (r: seq<ContentBlock>)
    ensures |r| == |bs|
    ensures forall k :: 0 <= k < |bs| ==>
      && r[k].id == bs[k].id && r[k].kind == bs[k].kind && r[k].metadata == bs[k].metadata
      && r[k].value == (if bs[k].id == blockId then value else bs[k].value)
  {
    seq(|bs|, k requires 0 <= k < |bs| => if bs[k].id == blockId then bs[k].(value := value) else bs[k])
  }

  /** Editing a block of `lesson` (as displayed) stores the edited block list in every lesson with its id. */
  function EditBlockValue(c: Course, lesson: Lesson, blockId: string, value: string): (r: Course)
    ensures LessonsRewritten(c, r, lesson.id, (l: Lesson) => l.(blocks := SetBlockValue(lesson.blocks, blockId, value)))
  {
    UpdateLesson(c, lesson.id, BlocksPatch(SetBlockValue(lesson.blocks, blockId, value)))
  }

  function KeepsOtherBlocks(blockId: string): ContentBlock -> bool
  {
    (b: ContentBlock) => b.id != blockId
  }

  /** `blocks.filter(b => b.id !== blockId)`: no block with the id remains, every other block does,
      as many times as before and in the original relative order, and without a match the list
      is unchanged. */
  function WithoutBlock(bs: seq<ContentBlock>, blockId: string): (r: seq<ContentBlock>)
    ensures forall k :: 0 <= k < |r| ==> r[k].id != blockId && r[k] in bs
    ensures forall k :: 0 <= k < |bs| && bs[k].id != blockId ==> bs[k] in r
    ensures Seqs.IsSubsequence(r, bs)
    ensures multiset(r) <= multiset(bs)
    ensures forall k :: 0 <= k < |bs| && bs[k].id != blockId ==> multiset(r)[bs[k]] == multiset(bs)[bs[k]]
    ensures (forall k :: 0 <= k < |bs| ==> bs[k].id != blockId) ==> r == bs
  {
    var keep := KeepsOtherBlocks(blockId);
    Seqs.FilterIsSubsequence(keep, bs);
    Seqs.FilterKeepsAll(keep, bs);
    Seqs.FilterCounts(keep, bs);
    Seqs.Filter(keep, bs)
  }

  /** Removing a block twice is removing it once. */
  lemma WithoutBlockIdempotent(bs: seq<ContentBlock>, blockId: string)
    ensures WithoutBlock(WithoutBlock(bs, blockId), blockId) == WithoutBlock(bs, blockId)
  {
    Seqs.FilterIdempotent(KeepsOtherBlocks(blockId), bs);
  }

  /** The delete button of a block of `lesson` (as displayed). */
  function RemoveBlock(c: Course, lesson: Lesson, blockId: string): (r: Course)
    ensures LessonsRewritten(c, r, lesson.id, (l: Lesson) => l.(blocks := WithoutBlock(lesson.blocks, blockId)))
  {
    UpdateLesson(c, lesson.id, BlocksPatch(WithoutBlock(lesson.blocks, blockId)))
  }

  /** Pressing delete again on the re-displayed lesson changes nothing more. */
  lemma RemoveBlockTwice(c: Course, lesson: Lesson, blockId: string)
    ensures var c1 := RemoveBlock(c, lesson, blockId);
      RemoveBlock(c1, lesson.(blocks := WithoutBlock(lesson.blocks, blockId)), blockId) == c1
  {
    WithoutBlockIdempotent(lesson.blocks, blockId);
    UpdateLessonIdempotent(c, lesson.id, BlocksPatch(WithoutBlock(lesson.blocks, blockId)));
  }

  // ---------------------------------------------------------------------------
  // Generated content
  // ---------------------------------------------------------------------------

  predicate IsTextBlock(b: ContentBlock)
  {
    b.kind == Text
  }

  function TextBlocks(bs: seq<ContentBlock>): seq<ContentBlock>
  {
    Seqs.Filter(IsTextBlock, bs)
  }

  function TextValues(bs: seq<ContentBlock>): seq<string>
  {
    var ts := TextBlocks(bs);
    seq(|ts|, k requires 0 <= k < |ts| => ts[k].value)
  }

  /** What the quiz generator is asked about: the lesson's text blocks joined by newlines, or its
      description when that join is empty (no text block, or a single empty one). */
  function QuizSource(l: Lesson): (r: string)
    ensures var ts := TextBlocks(l.blocks);
      |ts| == 0 || (|ts| == 1 && ts[0].value == []) ==> r == l.description
    ensures var ts := TextBlocks(l.blocks);
      |ts| >= 2 || (|ts| == 1 && ts[0].value != []) ==> r == Join(TextValues(l.blocks), "\n") && r != []
  {
    var text := Join(TextValues(l.blocks), "\n");
    JoinEmptyIff(TextValues(l.blocks), "\n");
    if text != [] then text else l.description
  }

  /** The course and the error banner after a generator handler. */
  datatype Step = Step(course: Course, error: Option<string>)

  /** `if (result.error)`: JavaScript truthiness, so an empty message does not count as an error,
      and a result carrying data has no error to test. */
  function ErrorIsTruthy<T>(result: GenResult<T>): (r: bool)
    ensures result.Data? ==> !r
    ensures result.Error? ==> (r <==> |result.message| > 0)
  {
    result.Error? && result.message != []
  }

  /** `handleMagicContent` as the source writes it. With no lesson on screen nothing happens;
      an error with a message leaves the course alone and shows the message; anything else
      appends one text block holding the generated text, or "" when there is none. */
  function MagicContentAsWritten(c: Course, activeId: Option<string>, shown: Option<string>, result: GenResult<string>, now: nat)
    : (r: Step)
    ensures FindLesson(c.modules, activeId).None? ==> r == Step(c, shown)
    ensures FindLesson(c.modules, activeId).Some? && ErrorIsTruthy(result) ==> r == Step(c, Some(result.message))
    ensures FindLesson(c.modules, activeId).Some? && !ErrorIsTruthy(result) ==>
      && r.error.None?
      && LessonsRewritten(c, r.course, FindLesson(c.modules, activeId).value.id,
           (l: Lesson) => l.(blocks := l.blocks + [NewBlock(Text, if result.Data? then result.value else "", EmptyMetadata, now)]))
  {
    match FindLesson(c.modules, activeId)
    case None => Step(c, shown)
    case Some(lesson) =>
      if ErrorIsTruthy(result) then Step(c, Some(result.message))
      else Step(AddContentBlock(c, lesson.id, Text, if result.Data? then result.value else "", EmptyMetadata, now), None)
  }

  /** A failed generation whose message is empty still appends an (empty) text block. */
  lemma EmptyErrorAppendsBlock()
    ensures var lesson := Lesson("l1", "", "", [], false);
      var c := Course("1", "", "", "", Draft, [Module("m1", "", [lesson])]);
      var r := MagicContentAsWritten(c, Some("l1"), None, Error(""), 0);
      r.course != c && |r.course.modules[0].lessons[0].blocks| == 1
  {
    var lesson := Lesson("l1", "", "", [], false);
    var c := Course("1", "", "", "", Draft, [Module("m1", "", [lesson])]);
    assert AllLessons(c.modules) == [lesson] by {
      assert c.modules[1..] == [];
    }
    assert FindLesson(c.modules, Some("l1")) == Some(lesson);
  }

  /** `handleMagicContent` as intended: any failure, whatever its message, leaves the course alone
      and is shown; only a success appends the generated text as one text block. */
  function MagicContent(c: Course, activeId: Option<string>, shown: Option<string>, result: GenResult<string>, now: nat)
    : (r: Step)
    ensures FindLesson(c.modules, activeId).None? ==> r == Step(c, shown)
    ensures result.Error? ==> r.course == c
    ensures FindLesson(c.modules, activeId).Some? && result.Error? ==> r.error == Some(result.message)
    ensures FindLesson(c.modules, activeId).Some? && result.Data? ==>
      && r.error.None?
      && LessonsRewritten(c, r.course, FindLesson(c.modules, activeId).value.id,
           (l: Lesson) => l.(blocks := l.blocks + [NewBlock(Text, result.value, EmptyMetadata, now)]))
  {
    match FindLesson(c.modules, activeId)
    case None => Step(c, shown)
    case Some(lesson) =>
      if result.Error? then Step(c, Some(result.message))
      else Step(AddContentBlock(c, lesson.id, Text, result.value, EmptyMetadata, now), None)
  }

  /** Where the two agree: every outcome except an error with an empty message. */
  lemma MagicContentAgrees(c: Course, activeId: Option<string>, shown: Option<string>, result: GenResult<string>, now: nat)
    requires !(result.Error? && result.message == [])
    ensures MagicContent(c, activeId, shown, result, now) == MagicContentAsWritten(c, activeId, shown, result, now)
  {
  }

  /** The metadata a generated quiz block carries: `{ questions }`. */
  function QuizMetadata(qs: seq<QuizQuestion>): Metadata
  {
    EmptyMetadata.(questions := Some(qs))
  }

  /** `handleMagicQuiz`: an error with a message is shown; a question list, even an empty one, is
      appended as one quiz block whose value is the serialised list and whose
      `metadata.questions` is the list itself; with no lesson on screen nothing happens. The
      course changes only on success. */
  function MagicQuiz(c: Course, activeId: Option<string>, shown: Option<string>, result: GenResult<seq<QuizQuestion>>,
                     serialize: seq<QuizQuestion> -> string, now: nat)
    : (r: Step)
    ensures FindLesson(c.modules, activeId).None? ==> r == Step(c, shown)
    ensures result.Error? ==> r.course == c
    ensures FindLesson(c.modules, activeId).Some? && ErrorIsTruthy(result) ==> r.error == Some(result.message)
    ensures FindLesson(c.modules, activeId).Some? && result.Data? ==>
      && r.error.None?
      && LessonsRewritten(c, r.course, FindLesson(c.modules, activeId).value.id,
           (l: Lesson) => l.(blocks := l.blocks + [NewBlock(Quiz, serialize(result.value), QuizMetadata(result.value), now)]))
  {
    match FindLesson(c.modules, activeId)
    case None => Step(c, shown)
    case Some(lesson) =>
      if ErrorIsTruthy(result) then Step(c, Some(result.message))
      else if result.Data? then
        Step(AddContentBlock(c, lesson.id, Quiz, serialize(result.value), QuizMetadata(result.value), now), None)
      else Step(c, None)
  }

  /** A generated quiz block keeps its two copies of the questions in step: its value is the
      serialisation of its `metadata.questions`. */
  lemma QuizBlockConsistent(qs: seq<QuizQuestion>, serialize: seq<QuizQuestion> -> string, now: nat)
    ensures var b := NewBlock(Quiz, serialize(qs), QuizMetadata(qs), now);
      b.kind == Quiz && b.metadata.Some? && b.metadata.value.questions == Some(qs)
      && b.value == serialize(b.metadata.value.questions.value)
  {
  }
}
