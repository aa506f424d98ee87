/**
 * The dashboard (pages/Dashboard.tsx): the course cards' counts and badge, and the creation
 * dialog with its two paths, manual and generated. Each handler is one step from a snapshot of
 * the page's state to the next; navigation is recorded as the id of the course opened.
 */
module Dashboard {
  import opened Options
  import opened Strings
  import opened Types
  import opened Gemini
  import Store
  import Builder

  // ---------------------------------------------------------------------------
  // Course cards
  // ---------------------------------------------------------------------------

  /** The card's two counts: `modules.length`, and the lessons summed module by module from the
      left as `reduce` does, which is the number of lessons the viewer lists. */
  method CardCounts(c: Course) returns (modules: nat, lessons: nat)
    ensures modules == |c.modules|
    ensures lessons == LessonCount(c.modules) && lessons == |AllLessons(c.modules)|
  {
    var ms := c.modules;
    modules := |ms|;
    lessons := 0;
    var i := 0;
    while i < |ms|
      invariant 0 <= i <= |ms|
      invariant lessons == LessonCount(ms[..i])
    {
      assert ms[..i + 1] == ms[..i] + [ms[i]];
      LessonCountAppend(ms[..i], [ms[i]]);
      assert [ms[i]][1..] == [];
      lessons := lessons + |ms[i].lessons|;
      i := i + 1;
    }
    assert ms[..i] == ms;
  }

  /** The badge reads 'Publié' exactly for a published course and 'Brouillon' exactly for a draft. */
  function StatusBadge(s: CourseStatus): (r: string)
    ensures r == "Publié" <==> s == Published
    ensures r == "Brouillon" <==> s == Draft
  {
    assert "Publié"[0] != "Brouillon"[0];
    match s
    case Published => "Publié"
    case Draft => "Brouillon"
  }

  // ---------------------------------------------------------------------------
  // The creation dialog
  // ---------------------------------------------------------------------------

  /** The page's state, with the course list it is given; `navigatedTo` is the course the page
      navigated to, if it did. */
  datatype Dash = Dash(
    courses: seq<Course>,
    topic: string,
    showModal: bool,
    aiMode: bool,
    generating: bool,
    error: Option<string>,
    navigatedTo: Option<string>)

  /** Both "new project" buttons open the dialog in generated mode with no error shown. */
  function OpenDialog(d: Dash): (r: Dash)
    ensures r.showModal && r.aiMode && r.error.None?
    ensures r.courses == d.courses && r.topic == d.topic && r.generating == d.generating && r.navigatedTo == d.navigatedTo
  {
    d.(showModal := true, aiMode := true, error := None)
  }

  /** The dialog's two tabs switch between generated and manual creation and clear the error. */
  function ChooseMode(d: Dash, ai: bool): (r: Dash)
    ensures r.aiMode == ai && r.error.None?
    ensures r.courses == d.courses && r.topic == d.topic && r.showModal == d.showModal && r.generating == d.generating
    ensures r.navigatedTo == d.navigatedTo
  {
    d.(aiMode := ai, error := None)
  }

  /** The create button is disabled exactly when the topic is blank or a generation runs. */
  function CreateDisabled(topic: string, generating: bool): (r: bool)
    ensures r <==> generating || forall i :: 0 <= i < |topic| ==> IsWhitespace(topic[i])
  {
    IsBlank(topic) || generating
  }

  /** `handleCreateManual`: with a topic that is not blank, one empty draft course titled with
      the topic exactly as typed (untrimmed) goes in front and is opened; with a blank topic
      nothing happens. */
  function CreateManual(d: Dash, now: nat): (r: Dash)
    ensures IsBlank(d.topic) ==> r == d
    ensures !IsBlank(d.topic) ==>
      && |r.courses| == |d.courses| + 1 && r.courses[1..] == d.courses
      && r.courses[0].title == d.topic && r.courses[0].modules == [] && r.courses[0].status == Draft
      && r.navigatedTo == Some(r.courses[0].id)
  {
    if IsBlank(d.topic) then d
    else
      var a := Store.AddCourse(d.courses, d.topic, None, now);
      d.(courses := a.courses, navigatedTo := Some(a.id))
  }

  /** When no generation runs, the create button is disabled exactly when a manual creation
      would do nothing. */
  lemma ManualCreateEnabledIff(d: Dash, now: nat)
    ensures CreateDisabled(d.topic, false) <==> CreateManual(d, now) == d
  {
    if !IsBlank(d.topic) {
      assert |CreateManual(d, now).courses| != |d.courses|;
    }
  }

  /** `handleCreateWithAi` as the source writes it, given the generator's result. A blank topic
      does nothing. Otherwise the spinner starts and the error is cleared; an error with a
      message is shown and stops the spinner; an outline is added as a new course through the
      store, the dialog closes and the course opens. An error whose message is empty is falsy
      and is not an outline either, so neither branch runs and the spinner never stops. */
  function CreateWithAiAsWritten(d: Dash, result: GenResult<Outline>, now: nat): (r: Dash)
    ensures IsBlank(d.topic) ==> r == d
    ensures !IsBlank(d.topic) && result.Error? && result.message == "" ==>
      r.generating && r.error.None? && r.courses == d.courses
  {
    if IsBlank(d.topic) then d
    else
      var started := d.(generating := true, error := None);
      if Builder.ErrorIsTruthy(result) then started.(error := Some(result.message), generating := false)
      else if result.Data? then
        var a := Store.AddCourse(d.courses, result.value.title, Some(result.value), now);
        started.(courses := a.courses, generating := false, showModal := false, navigatedTo := Some(a.id))
      else started
  }

  /** The handler stays busy for ever when the generator's call throws an empty string that
      carries no readable error field: the extracted message is empty, hence falsy. */
  lemma EmptyThrowLeavesSpinner()
    ensures var d := Dash([], "UX", true, true, false, None, None);
      var noField: Parser<string> := (s: string) => None;
      var noOutline: Parser<Outline> := (s: string) => None;
      var result := GenerateCourseOutline(Threw(StringError("")), noOutline, noField);
      result == Error("") && CreateWithAiAsWritten(d, result, 7).generating
  {
    var d := Dash([], "UX", true, true, false, None, None);
    var noField: Parser<string> := (s: string) => None;
    var noOutline: Parser<Outline> := (s: string) => None;
    assert noField("").None?;
    var result := GenerateCourseOutline(Threw(StringError("")), noOutline, noField);
    assert result == Error("");
    assert !IsBlank("UX") by {
      assert !IsWhitespace("UX"[0]);
    }
    assert !Builder.ErrorIsTruthy(result);
  }

  /** `handleCreateWithAi` with every error treated as an error, as the code evidently means:
      a blank topic does nothing; an error adds no course, is recorded and stops the spinner;
      an outline becomes one new draft course in front whose modules spell the outline, the
      dialog closes and the new course opens. Whatever the result, no generation is left
      running. */
  function CreateWithAi(d: Dash, result: GenResult<Outline>, now: nat): (r: Dash)
    ensures IsBlank(d.topic) ==> r == d
    ensures !IsBlank(d.topic) ==> !r.generating
    ensures !IsBlank(d.topic) && result.Error? ==>
      r.courses == d.courses && r.error == Some(result.message) && r.navigatedTo == d.navigatedTo
    ensures !IsBlank(d.topic) && result.Data? ==>
      && |r.courses| == |d.courses| + 1 && r.courses[1..] == d.courses
      && r.courses[0].status == Draft && r.courses[0].title == result.value.title
      && Store.OutlineOf(r.courses[0].modules) == result.value.modules
      && r.courses[0].modules == Store.Materialize(result.value, now)
      && r.error.None? && !r.showModal && r.navigatedTo == Some(r.courses[0].id)
  {
    if IsBlank(d.topic) then d
    else
      var started := d.(generating := true, error := None);
      match result
      case Error(m) => started.(error := Some(m), generating := false)
      case Data(o) =>
        var a := Store.AddCourse(d.courses, o.title, Some(o), now);
        started.(courses := a.courses, generating := false, showModal := false, navigatedTo := Some(a.id))
  }

  /** The corrected handler agrees with the written one on every result except an error whose
      message is empty. */
  lemma CreateWithAiAgrees(d: Dash, result: GenResult<Outline>, now: nat)
    ensures !(result.Error? && result.message == "") ==> CreateWithAi(d, result, now) == CreateWithAiAsWritten(d, result, now)
  {
  }

  /** A reply that is not an outline adds no course and shows exactly the invalid-format message. */
  lemma UnreadableOutlineIsReported(d: Dash, text: Option<string>, parseOutline: Parser<Outline>, errorField: Parser<string>, now: nat)
    requires !IsBlank(d.topic)
    requires SafeParseJson(text, parseOutline).None?
    ensures var r := CreateWithAi(d, GenerateCourseOutline(Returned(text), parseOutline, errorField), now);
      r.courses == d.courses && r.error == Some(InvalidOutlineMessage) && !r.generating
  {
  }
}
