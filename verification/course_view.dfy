/**
 * The learner's view of a course (pages/CourseView.tsx): which course and lesson are on screen,
 * the e-mail gate, and what each content block turns into. Rendering is reduced to a small
 * description of what is displayed; markdown itself is left to the renderer.
 */
module CourseView {
  import opened Options
  import opened Strings
  import opened Types
  import Store
  import Builder

  // ---------------------------------------------------------------------------
  // Course and lessons on screen
  // ---------------------------------------------------------------------------

  /** The course named by the route, the first carrying that id if several do; a missing
      route parameter finds nothing. */
  function OpenCourse(courses: seq<Course>, courseId: Option<string>): (r: Option<Course>)
    ensures r.Some? ==> courseId == Some(r.value.id) && r.value in courses
    ensures r.Some? ==> exists k ::
      && 0 <= k < |courses|
      && courses[k] == r.value
      && forall k' :: 0 <= k' < k ==> courses[k'].id != courseId.value
    ensures r.None? && courseId.Some? ==> forall i :: 0 <= i < |courses| ==> courses[i].id != courseId.value
  {
    if courseId.None? then None else Store.FindCourse(courses, courseId.value)
  }

  /** `allLessons`: no lessons without a course, else every lesson of every module in order,
      which is the flattening `AllLessons` (module order, then lesson order, by `AllLessonsAt`). */
  function ViewLessons(course: Option<Course>): (r: seq<Lesson>)
    ensures course.None? ==> r == []
    ensures course.Some? ==> r == AllLessons(course.value.modules)
    ensures course.Some? ==> |r| == LessonCount(course.value.modules)
    ensures course.Some? ==> forall i, j :: 0 <= i < |course.value.modules| && 0 <= j < |course.value.modules[i].lessons| ==>
      course.value.modules[i].lessons[j] in r
  {
    if course.None? then []
    else
      var ms := course.value.modules;
      forall i, j | 0 <= i < |ms| && 0 <= j < |ms[i].lessons|
        ensures ms[i].lessons[j] in AllLessons(ms)
      {
        AllLessonsAt(ms, i, j);
      }
      AllLessons(ms)
  }

  /** `allLessons[0]?.id || null`: the first lesson's id; none when there is no lesson, and also
      when that id is the empty string, which is falsy. */
  function InitialActive(lessons: seq<Lesson>): (r: Option<string>)
    ensures r.Some? ==> |lessons| > 0 && r.value == lessons[0].id
    ensures r.None? <==> |lessons| == 0 || lessons[0].id == ""
  {
    if |lessons| == 0 || lessons[0].id == "" then None else Some(lessons[0].id)
  }

  /** When a first lesson is selected initially, the lookup of the active lesson finds exactly
      that first lesson. */
  lemma InitialLessonIsShown(ms: seq<Module>)
    ensures var id := InitialActive(AllLessons(ms));
      id.Some? ==> FindLesson(ms, id) == Some(AllLessons(ms)[0])
  {
    var all := AllLessons(ms);
    var id := InitialActive(all);
    if id.Some? {
      assert FirstWithId(all, id.value) == Some(0);
    }
  }

  // ---------------------------------------------------------------------------
  // The e-mail gate
  // ---------------------------------------------------------------------------

  datatype Gate = Gate(enrolled: bool, showSignup: bool)

  /** The gate is shown and nobody is enrolled when the page opens. */
  const InitialGate := Gate(false, true)

  /** `handleSignup`: a non-empty e-mail enrols and hides the gate; an empty one changes nothing. */
  function Signup(g: Gate, email: string): (r: Gate)
    ensures email != "" ==> r.enrolled && !r.showSignup
    ensures email == "" ==> r == g
  {
    if email != "" then Gate(true, false) else g
  }

  /** The gate after a series of submissions, oldest first. */
  function SignupAll(g: Gate, emails: seq<string>): Gate
    decreases |emails|
  {
    if |emails| == 0 then g else SignupAll(Signup(g, emails[0]), emails[1..])
  }

  /** Starting from any gate where enrolment and the overlay agree, every series of submissions
      keeps them in agreement: the learner is enrolled, and the overlay hidden, exactly when
      they were already enrolled or some submission carried a non-empty e-mail. */
  lemma {:induction false} GateStaysConsistent(g: Gate, emails: seq<string>)
    requires g.enrolled == !g.showSignup
    decreases |emails|
    ensures var r := SignupAll(g, emails);
      && r.enrolled == !r.showSignup
      && (r.enrolled <==> g.enrolled || exists k :: 0 <= k < |emails| && emails[k] != "")
  {
    if |emails| > 0 {
      GateStaysConsistent(Signup(g, emails[0]), emails[1..]);
      if exists k :: 0 <= k < |emails[1..]| && emails[1..][k] != "" {
        var k :| 0 <= k < |emails[1..]| && emails[1..][k] != "";
        assert emails[k + 1] != "";
      }
      if exists k :: 0 <= k < |emails| && emails[k] != "" {
        var k :| 0 <= k < |emails| && emails[k] != "";
        if k > 0 {
          assert emails[1..][k - 1] != "";
        }
      }
    }
  }

  /** From the page's opening state, the learner is enrolled, and the gate hidden, exactly once
      some submission carried a non-empty e-mail. */
  lemma EnrolledFromOpening(emails: seq<string>)
    ensures var r := SignupAll(InitialGate, emails);
      && r.enrolled == !r.showSignup
      && (r.enrolled <==> exists k :: 0 <= k < |emails| && emails[k] != "")
  {
    GateStaysConsistent(InitialGate, emails);
  }

  /** The learner's name in the sidebar: the e-mail typed so far, or a guest label. */
  function LearnerLabel(email: string): (r: string)
    ensures r != ""
    ensures email != "" ==> r == email
  {
    if email != "" then email else "Utilisateur invité"
  }

  // ---------------------------------------------------------------------------
  // Videos
  // ---------------------------------------------------------------------------

  const WatchMarker: string := "watch?v="
  const EmbedMarker: string := "embed/"

  /** A video is embedded only when its value names YouTube; the frame's address is the value
      with its first `watch?v=` turned into `embed/`, and the value itself when it has none. */
  function EmbedUrl(url: string): (r: Option<string>)
    ensures r.Some? <==> Contains(url, "youtube.com") || Contains(url, "youtu.be")
    ensures r.Some? && !Contains(url, WatchMarker) ==> r.value == url
    ensures r.Some? && Contains(url, WatchMarker) ==>
      var i := IndexOf(url, WatchMarker).value;
      && i + |WatchMarker| <= |url|
      && r.value == url[..i] + EmbedMarker + url[i + |WatchMarker|..]
  {
    if Contains(url, "youtube.com") || Contains(url, "youtu.be") then
      ReplaceFirstSplices(url, WatchMarker, EmbedMarker);
      Some(ReplaceFirst(url, WatchMarker, EmbedMarker))
    else None
  }

  /** Replacing the first occurrence splices the replacement in where the pattern was. */
  lemma ReplaceFirstSplices(s: string, pat: string, rep: string)
    ensures Contains(s, pat) ==>
      var i := IndexOf(s, pat).value;
      i + |pat| <= |s| && ReplaceFirst(s, pat, rep) == s[..i] + rep + s[i + |pat|..]
  {
    if Contains(s, pat) {
      var i := IndexOf(s, pat).value;
      var r := ReplaceFirst(s, pat, rep);
      assert r == r[..i] + r[i..i + |rep|] + r[i + |rep|..];
    }
  }

  /** A watch address whose marker is the first in it becomes the embed address of the same
      video: `pre + "watch?v=" + id` turns into `pre + "embed/" + id`. Nothing but the first
      character of the marker is a `w`, so no earlier occurrence can overlap the marker. */
  lemma WatchUrlEmbeds(pre: string, id: string)
    requires !Contains(pre, WatchMarker)
    ensures ReplaceFirst(pre + WatchMarker + id, WatchMarker, EmbedMarker) == pre + EmbedMarker + id
  {
    var s := pre + WatchMarker + id;
    var n := |pre|;
    assert s[n..n + 8] == WatchMarker;
    assert OccursAt(s, WatchMarker, n);
    forall i | 0 <= i < n
      ensures !OccursAt(s, WatchMarker, i)
    {
      if i + 8 <= n {
        assert s[i..i + 8] == pre[i..i + 8];
        assert !OccursAt(pre, WatchMarker, i);
      } else {
        assert s[n] == 'w';
        assert s[i..i + 8][n - i] == s[n];
        assert WatchMarker[n - i] != 'w';
      }
    }
    var i := IndexOf(s, WatchMarker).value;
    assert i == n;
    var r := ReplaceFirst(s, WatchMarker, EmbedMarker);
    assert r == r[..n] + r[n..n + 6] + r[n + 6..];
    assert s[n + 8..] == id;
  }

  // ---------------------------------------------------------------------------
  // Blocks and the lesson pane
  // ---------------------------------------------------------------------------

  /** One numbered quiz question as displayed, numbering from 1. */
  datatype QuizItem = QuizItem(number: nat, question: string, options: seq<string>)

  /** What a block displays as. */
  datatype BlockView =
    | EmbeddedVideo(src: string)
    | VideoPlaceholder
    | QuizView(items: seq<QuizItem>)
    | Markdown(content: string)

  /** `block.metadata?.questions`, with nothing when either is absent. */
  function ShownQuestions(b: ContentBlock): seq<QuizQuestion>
  {
    if b.metadata.Some? && b.metadata.value.questions.Some? then b.metadata.value.questions.value else []
  }

  /** The displayed questions of a quiz block: its metadata questions, in order, numbered from 1. */
  function QuizItems(b: ContentBlock): (r: seq<QuizItem>)
    ensures |r| == |ShownQuestions(b)|
    ensures forall k :: 0 <= k < |r| ==>
      r[k].number == k + 1 && r[k].question == ShownQuestions(b)[k].question && r[k].options == ShownQuestions(b)[k].options
  {
    var qs := ShownQuestions(b);
    seq(|qs|, k requires 0 <= k < |qs| => QuizItem(k + 1, qs[k].question, qs[k].options))
  }

  /** What one block shows: a video frame when the address names YouTube and a placeholder
      otherwise; a quiz shows its metadata questions; text and downloads are markdown of the
      value. */
  function ViewBlock(b: ContentBlock): (r: BlockView)
    ensures b.kind == Video ==> (r.EmbeddedVideo? <==> EmbedUrl(b.value).Some?) && (r.EmbeddedVideo? || r.VideoPlaceholder?)
    ensures b.kind == Video && r.EmbeddedVideo? ==> r.src == EmbedUrl(b.value).value
    ensures b.kind == Quiz ==> r == QuizView(QuizItems(b))
    ensures b.kind == Text || b.kind == Download ==> r == Markdown(b.value)
  {
    match b.kind
    case Video =>
      (match EmbedUrl(b.value)
       case Some(src) => EmbeddedVideo(src)
       case None => VideoPlaceholder)
    case Quiz => QuizView(QuizItems(b))
    case Text => Markdown(b.value)
    case Download => Markdown(b.value)
  }

  /** A quiz block displays the same whatever its serialised value says. */
  lemma QuizViewIgnoresValue(b: ContentBlock, v: string)
    requires b.kind == Quiz
    ensures ViewBlock(b.(value := v)) == ViewBlock(b)
  {
    assert ShownQuestions(b.(value := v)) == ShownQuestions(b);
  }

  /** A quiz block made by the builder from generated questions displays exactly those
      questions, in their order, numbered from 1. */
  lemma GeneratedQuizIsDisplayed(qs: seq<QuizQuestion>, serialize: seq<QuizQuestion> -> string, now: nat)
    ensures var v := ViewBlock(Builder.NewBlock(Quiz, serialize(qs), Builder.QuizMetadata(qs), now));
      && v.QuizView? && |v.items| == |qs|
      && forall k :: 0 <= k < |qs| ==> v.items[k] == QuizItem(k + 1, qs[k].question, qs[k].options)
  {
    var b := Builder.NewBlock(Quiz, serialize(qs), Builder.QuizMetadata(qs), now);
    assert ShownQuestions(b) == qs;
  }

  /** The reading pane. */
  datatype MainView =
    | ChooseChapter
    | LessonShown(title: string, description: string, blocks: seq<BlockView>, comingSoon: bool)

  /** The reading pane for the active lesson: an invitation to choose a chapter when none is
      active; otherwise one view per block, in order, and the coming-soon notice exactly when
      the lesson has no block, that is exactly when nothing else would be displayed. */
  function RenderMain(active: Option<Lesson>): (r: MainView)
    ensures active.None? <==> r.ChooseChapter?
    ensures active.Some? ==>
      && r.title == active.value.title && r.description == active.value.description
      && |r.blocks| == |active.value.blocks|
      && (r.comingSoon <==> |r.blocks| == 0)
      && forall k :: 0 <= k < |r.blocks| ==> r.blocks[k] == ViewBlock(active.value.blocks[k])
  {
    match active
    case None => ChooseChapter
    case Some(l) =>
      LessonShown(l.title, l.description,
        seq(|l.blocks|, k requires 0 <= k < |l.blocks| => ViewBlock(l.blocks[k])),
        |l.blocks| == 0)
  }

  lemma FoundLessonHasId(ms: seq<Module>, activeId: Option<string>)
    ensures FindLesson(ms, activeId).Some? ==> activeId.Some? && HasLessonId(ms, activeId.value)
  {
    var found := FindLesson(ms, activeId);
    if found.Some? {
      var l := found.value;
      var i :| 0 <= i < |ms| && l in ms[i].lessons;
      var j :| 0 <= j < |ms[i].lessons| && ms[i].lessons[j] == l;
      assert ms[i].lessons[j].id == activeId.value;
    }
  }

  /** The whole page. */
  datatype Page =
    | CourseNotFound
    | CoursePage(title: string, main: MainView)

  /** The page for a route and a selected lesson id: "course not found" exactly when no course
      carries the route's id; otherwise the course's title and the pane of the selected lesson,
      which is the first lesson with that id across all modules (an unknown id shows the
      chapter invitation). */
  function Render(courses: seq<Course>, courseId: Option<string>, activeId: Option<string>): (r: Page)
    ensures r.CourseNotFound? <==> OpenCourse(courses, courseId).None?
    ensures r.CoursePage? ==>
      && r.title == OpenCourse(courses, courseId).value.title
      && (r.main.ChooseChapter? <==> activeId.None? || !HasLessonId(OpenCourse(courses, courseId).value.modules, activeId.value))
    ensures r.CoursePage? ==> r.main == RenderMain(FindLesson(OpenCourse(courses, courseId).value.modules, activeId))
  {
    match OpenCourse(courses, courseId)
    case None => CourseNotFound
    case Some(c) =>
      FoundLessonHasId(c.modules, activeId);
      CoursePage(c.title, RenderMain(FindLesson(c.modules, activeId)))
  }
}
