/**
 * The course-content tree: a course holds ordered modules, a module ordered lessons, a lesson
 * ordered content blocks. Every edit elsewhere in the model rebuilds this tree by value.
 * Also the read-only queries over the tree that both the editor and the viewer use.
 */
module Types {
  import opened Options

  // ---------------------------------------------------------------------------
  // Entities
  // ---------------------------------------------------------------------------

  /** The four kinds of content block; the source spells them 'video' | 'text' | 'download' | 'quiz'. */
  datatype ContentType = Video | Text | Download | Quiz

  /** A generated multiple-choice question. Nothing bounds `options` or `correctAnswer`. */
  datatype QuizQuestion = QuizQuestion(id: string, question: string, options: seq<string>, correctAnswer: int)

  datatype Provider = YouTube | Vimeo | Upload | Wistia

  /** A block's optional extra data; every field of it is optional too. */
  datatype Metadata = Metadata(
    provider: Option<Provider>,
    fileName: Option<string>,
    duration: Option<string>,
    questions: Option<seq<QuizQuestion>>)

  /** `{}`: metadata with no field set. */
  const EmptyMetadata := Metadata(None, None, None, None)

  /** `value` is a URL for a video, markdown for text, serialised questions for a quiz. */
  datatype ContentBlock = ContentBlock(id: string, kind: ContentType, value: string, metadata: Option<Metadata>)

  datatype Lesson = Lesson(id: string, title: string, description: string, blocks: seq<ContentBlock>, isDraft: bool)

  datatype Module = Module(id: string, title: string, lessons: seq<Lesson>)

  datatype CourseStatus = Draft | Published

  datatype Course = Course(
    id: string,
    title: string,
    subtitle: string,
    thumbnail: string,
    status: CourseStatus,
    modules: seq<Module>)

  // ---------------------------------------------------------------------------
  // The string spellings of the two enumerations
  // ---------------------------------------------------------------------------

  function ParseContentType(s: string): (r: Option<ContentType>)
    ensures r.Some? <==> s == "video" || s == "text" || s == "download" || s == "quiz"
  {
    if s == "video" then Some(Video)
    else if s == "text" then Some(Text)
    else if s == "download" then Some(Download)
    else if s == "quiz" then Some(Quiz)
    else None
  }

  /** The tag a block type is stored under; reading the tag back gives the same type. */
  function ContentTypeTag(t: ContentType): (r: string)
    ensures ParseContentType(r) == Some(t)
  {
    match t
    case Video => "video"
    case Text => "text"
    case Download => "download"
    case Quiz => "quiz"
  }

  function ParseStatus(s: string): (r: Option<CourseStatus>)
    ensures r.Some? <==> s == "draft" || s == "published"
  {
    if s == "draft" then Some(Draft) else if s == "published" then Some(Published) else None
  }

  /** The tag a course status is stored under; reading the tag back gives the same status. */
  function StatusTag(s: CourseStatus): (r: string)
    ensures ParseStatus(r) == Some(s)
  {
    match s
    case Draft => "draft"
    case Published => "published"
  }

  // ---------------------------------------------------------------------------
  // Counting and flattening (`modules.flatMap(m => m.lessons)`)
  // ---------------------------------------------------------------------------

  /** The number of lessons over all modules. */
  function LessonCount(ms: seq<Module>): nat
  {
    if |ms| == 0 then 0 else |ms[0].lessons| + LessonCount(ms[1..])
  }

  lemma {:induction false} LessonCountAppend(a: seq<Module>, b: seq<Module>)
    ensures LessonCount(a + b) == LessonCount(a) + LessonCount(b)
  {
    if |a| > 0 {
      assert (a + b)[1..] == a[1..] + b;
      LessonCountAppend(a[1..], b);
    } else {
      assert a + b == b;
    }
  }

  /** Every lesson of every module, module by module. */
  function AllLessons(ms: seq<Module>): (r: seq<Lesson>)
    ensures |r| == LessonCount(ms)
  {
    if |ms| == 0 then [] else ms[0].lessons + AllLessons(ms[1..])
  }

  /** Lesson `j` of module `i` sits in the flattened list right after the lessons of
      the modules before `i`: flattening keeps module order and, within a module, lesson order. */
  lemma {:induction false} AllLessonsAt(ms: seq<Module>, i: nat, j: nat)
    requires i < |ms| && j < |ms[i].lessons|
    ensures LessonCount(ms[..i]) + j < |AllLessons(ms)|
    ensures AllLessons(ms)[LessonCount(ms[..i]) + j] == ms[i].lessons[j]
  {
    if i == 0 {
      assert ms[..0] == [];
    } else {
      AllLessonsAt(ms[1..], i - 1, j);
      assert ms[..i] == [ms[0]] + ms[1..][..i - 1];
      LessonCountAppend([ms[0]], ms[1..][..i - 1]);
      assert LessonCount([ms[0]]) == |ms[0].lessons| by {
        assert [ms[0]][1..] == [];
      }
    }
  }

  /** A lesson is in the flattened list exactly when some module holds it. */
  lemma {:induction false} InAllLessons(ms: seq<Module>, l: Lesson)
    ensures l in AllLessons(ms) <==> exists i :: 0 <= i < |ms| && l in ms[i].lessons
  {
    if |ms| > 0 {
      InAllLessons(ms[1..], l);
      if exists i :: 0 <= i < |ms| && l in ms[i].lessons {
        var i :| 0 <= i < |ms| && l in ms[i].lessons;
        if i > 0 {
          assert l in ms[1..][i - 1].lessons;
        }
      }
      if l in AllLessons(ms[1..]) {
        var i :| 0 <= i < |ms[1..]| && l in ms[1..][i].lessons;
        assert l in ms[i + 1].lessons;
      }
    }
  }

  // ---------------------------------------------------------------------------
  // Lookup by id
  // ---------------------------------------------------------------------------

  /** Some module holds a lesson with this id. */
  predicate HasLessonId(ms: seq<Module>, id: string)
  {
    exists i, j :: 0 <= i < |ms| && 0 <= j < |ms[i].lessons| && ms[i].lessons[j].id == id
  }

  /** The position of the first lesson with this id (`Array.prototype.findIndex`). */
  function FirstWithId(ls: seq<Lesson>, id: string): (r: Option<nat>)
    ensures r.Some? ==> r.value < |ls| && ls[r.value].id == id
    ensures r.Some? ==> forall k :: 0 <= k < r.value ==> ls[k].id != id
    ensures r.None? ==> forall k :: 0 <= k < |ls| ==> ls[k].id != id
  {
    if |ls| == 0 then None
    else if ls[0].id == id then Some(0)
    else match FirstWithId(ls[1..], id)
      case None => None
      case Some(k) => Some(k + 1)
  }

  /** `modules.flatMap(m => m.lessons).find(l => l.id === activeId)`: the first lesson, in
      module order, carrying the id; no id (`null`) or an unknown id finds nothing. */
  function FindLesson(ms: seq<Module>, activeId: Option<string>): (r: Option<Lesson>)
    ensures r.Some? ==> activeId.Some? && r.value.id == activeId.value
    ensures r.Some? ==> exists i :: 0 <= i < |ms| && r.value in ms[i].lessons
    ensures r.Some? ==> exists k ::
      && 0 <= k < |AllLessons(ms)|
      && AllLessons(ms)[k] == r.value
      && forall k' :: 0 <= k' < k ==> AllLessons(ms)[k'].id != activeId.value
    ensures r.None? && activeId.Some? ==> !HasLessonId(ms, activeId.value)
  {
    if activeId.None? then None
    else
      var all := AllLessons(ms);
      match FirstWithId(all, activeId.value)
      case None =>
        assert !HasLessonId(ms, activeId.value) by {
          forall i, j | 0 <= i < |ms| && 0 <= j < |ms[i].lessons|
            ensures ms[i].lessons[j].id != activeId.value
          {
            AllLessonsAt(ms, i, j);
          }
        }
        None
      case Some(k) =>
        InAllLessons(ms, all[k]);
        Some(all[k])
  }
}
