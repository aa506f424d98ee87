/**
 * The course store (App.tsx): the ordered list of courses, its seed, and the three operations
 * the pages call: add (optionally from a generated outline), replace by id, delete by id.
 * Persistence is a snapshot string decoded by a parameter; `now` stands for `Date.now()`.
 */
module Store {
  import opened Options
  import opened Strings
  import opened Types
  import opened Gemini
  import Seqs

  /** `INITIAL_COURSES`: one published course, one module, two finished lessons with no blocks yet. */
  const SeedCourses: seq<Course> := [
    Course(
      "1",
      "Minimalist UX Foundations",
      "Learn the art of subtraction in digital interface design.",
      "https://picsum.photos/seed/design/1000/700",
      Published,
      [Module("m1", "The Philosophy", [
        Lesson("l1", "Why Less is More", "Exploring the history of minimalism", [], false),
        Lesson("l2", "Visual Hierarchy", "Guiding the eye with white space", [], false)])])
  ]

  const NoDescription: string := "No description provided."

  /** The courses the application starts with: the saved snapshot, decoded, when one is stored
      (an empty string counts as none), and otherwise the seed, which is one published course
      holding one module with two non-draft lessons that have no blocks. */
  function InitialCourses(saved: Option<string>, decode: string -> seq<Course>): (r: seq<Course>)
    ensures saved.Some? && saved.value != "" ==> r == decode(saved.value)
    ensures saved.None? || saved.value == "" ==>
      && |r| == 1 && r[0].status == Published && |r[0].modules| == 1
      && |r[0].modules[0].lessons| == 2
      && forall j :: 0 <= j < 2 ==> !r[0].modules[0].lessons[j].isDraft && r[0].modules[0].lessons[j].blocks == []
  {
    if saved.Some? && saved.value != "" then decode(saved.value) else SeedCourses
  }

  // ---------------------------------------------------------------------------
  // addCourse
  // ---------------------------------------------------------------------------

  /** `m-ai-${mIdx}-${Date.now()}` */
  function ModuleIdFor(mIdx: nat, now: nat): string
  {
    "m-ai-" + NatToString(mIdx) + "-" + NatToString(now)
  }

  /** `l-ai-${mIdx}-${lIdx}-${Date.now()}` */
  function LessonIdFor(mIdx: nat, lIdx: nat, now: nat): string
  {
    "l-ai-" + NatToString(mIdx) + "-" + NatToString(lIdx) + "-" + NatToString(now)
  }

  /** The outline a module list spells: titles and descriptions, without ids, blocks or drafts. */
  function OutlineOf(ms: seq<Module>): (r: seq<OutlineModule>)
    ensures |r| == |ms|
  {
    seq(|ms|, i requires 0 <= i < |ms| =>
      OutlineModule(ms[i].title, seq(|ms[i].lessons|, j requires 0 <= j < |ms[i].lessons| =>
        OutlineLesson(ms[i].lessons[j].title, ms[i].lessons[j].description))))
  }

  /** The modules built from a generated outline: reading the outline back off them gives the
      outline (same count, order, titles and descriptions), and every lesson is a draft with
      no blocks whose id embeds its module and lesson index. */
  function Materialize(o: Outline, now: nat): (r: seq<Module>)
    ensures OutlineOf(r) == o.modules
    ensures forall i :: 0 <= i < |r| ==> r[i].id == ModuleIdFor(i, now)
    ensures forall i, j :: 0 <= i < |r| && 0 <= j < |r[i].lessons| ==>
      && r[i].lessons[j].isDraft && r[i].lessons[j].blocks == []
      && r[i].lessons[j].id == LessonIdFor(i, j, now)
  {
    var r := seq(|o.modules|, i requires 0 <= i < |o.modules| =>
      var m := o.modules[i];
      Module(ModuleIdFor(i, now), m.title, seq(|m.lessons|, j requires 0 <= j < |m.lessons| =>
        Lesson(LessonIdFor(i, j, now), m.lessons[j].title, m.lessons[j].description, [], true))));
    assert forall i :: 0 <= i < |r| ==> OutlineOf(r)[i] == o.modules[i] by {
      forall i | 0 <= i < |r|
        ensures OutlineOf(r)[i] == o.modules[i]
      {
        var got := OutlineOf(r)[i].lessons;
        assert |got| == |o.modules[i].lessons|;
        assert forall j :: 0 <= j < |got| ==> got[j] == o.modules[i].lessons[j];
      }
    }
    r
  }

  /** For one reading of the clock, the generated module ids are pairwise distinct, and so are
      the generated lesson ids across the whole course. */
  lemma MaterializedIdsDistinct(o: Outline, now: nat)
    ensures var ms := Materialize(o, now);
      forall i, k :: 0 <= i < k < |ms| ==> ms[i].id != ms[k].id
    ensures var ms := Materialize(o, now);
      forall i, j, k, l ::
        0 <= i < |ms| && 0 <= j < |ms[i].lessons| && 0 <= k < |ms| && 0 <= l < |ms[k].lessons| && (i, j) != (k, l)
        ==> ms[i].lessons[j].id != ms[k].lessons[l].id
  {
    var ms := Materialize(o, now);
    var t := NatToString(now);
    forall i, k | 0 <= i < k < |ms|
      ensures ms[i].id != ms[k].id
    {
      NumberedTagsDiffer("m-ai-", i, k, t, t);
    }
    forall i, j, k, l | 0 <= i < |ms| && 0 <= j < |ms[i].lessons| && 0 <= k < |ms| && 0 <= l < |ms[k].lessons|
      && (i, j) != (k, l)
      ensures ms[i].lessons[j].id != ms[k].lessons[l].id
    {
      var sj, sl := NatToString(j), NatToString(l);
      if i != k {
        NumberedTagsDiffer("l-ai-", i, k, sj + "-" + t, sl + "-" + t);
        assert LessonIdFor(i, j, now) == "l-ai-" + NatToString(i) + "-" + (sj + "-" + t);
        assert LessonIdFor(k, l, now) == "l-ai-" + NatToString(k) + "-" + (sl + "-" + t);
      } else {
        var p := "l-ai-" + NatToString(i) + "-";
        NumberedTagsDiffer(p, j, l, t, t);
      }
    }
  }

  /** The store after `addCourse`, and the id it returns. */
  datatype Added = Added(courses: seq<Course>, id: string)

  function NewCourse(title: string, outline: Option<Outline>, now: nat): Course
  {
    Course(
      NatToString(now),
      if outline.Some? && outline.value.title != "" then outline.value.title else title,
      if outline.Some? && outline.value.subtitle != "" then outline.value.subtitle else NoDescription,
      "https://picsum.photos/seed/" + NatToString(now) + "/1000/700",
      Draft,
      if outline.Some? then Materialize(outline.value, now) else [])
  }

  /** `addCourse`: one new draft course in front of the unchanged old ones, and its id. Without an
      outline it is empty and carries the given title and the placeholder subtitle; with one,
      its modules are the outline's materialised modules (draft lessons, no blocks, index ids),
      and its subtitle is the outline's unless that is empty. */
  function AddCourse(courses: seq<Course>, title: string, outline: Option<Outline>, now: nat): (r: Added)
    ensures |r.courses| == |courses| + 1 && r.courses[1..] == courses
    ensures r.courses[0].id == r.id && r.courses[0].status == Draft
    ensures outline.None? ==>
      r.courses[0].modules == [] && r.courses[0].title == title && r.courses[0].subtitle == NoDescription
    ensures outline.Some? ==> OutlineOf(r.courses[0].modules) == outline.value.modules
    ensures outline.Some? ==> r.courses[0].modules == Materialize(outline.value, now)
    ensures r.courses[0].subtitle ==
      if outline.Some? && outline.value.subtitle != "" then outline.value.subtitle else NoDescription
    ensures outline.Some? ==>
      r.courses[0].title == if outline.value.title != "" then outline.value.title else title
    ensures r.id == NatToString(now)
  {
    var c := NewCourse(title, outline, now);
    Added([c] + courses, c.id)
  }

  /** Two courses added at different clock readings get different ids. */
  lemma AddedIdsFollowClock(courses1: seq<Course>, title1: string, outline1: Option<Outline>, now1: nat,
                            courses2: seq<Course>, title2: string, outline2: Option<Outline>, now2: nat)
    ensures now1 != now2 ==>
      AddCourse(courses1, title1, outline1, now1).id != AddCourse(courses2, title2, outline2, now2).id
  {
    NatToStringInjective(now1, now2);
  }

  // ---------------------------------------------------------------------------
  // updateCourse, deleteCourse, lookup
  // ---------------------------------------------------------------------------

  /** `courses.find(c => c.id === id)`: the first course carrying the id. */
  function FindCourse(courses: seq<Course>, id: string): (r: Option<Course>)
    ensures r.Some? ==> r.value in courses && r.value.id == id
    ensures r.Some? ==> exists k ::
      && 0 <= k < |courses|
      && courses[k] == r.value
      && forall k' :: 0 <= k' < k ==> courses[k'].id != id
    ensures r.None? ==> forall i :: 0 <= i < |courses| ==> courses[i].id != id
  {
    if |courses| == 0 then None
    else if courses[0].id == id then Some(courses[0])
    else FindCourse(courses[1..], id)
  }

  /** `updateCourse`: every course with the edited course's id is replaced by it; length, order
      and every other course are kept. */
  function UpdateCourse(courses: seq<Course>, updated: Course): (r: seq<Course>)
    ensures |r| == |courses|
    ensures forall i :: 0 <= i < |courses| ==>
      r[i] == (if courses[i].id == updated.id then updated else courses[i])
  {
    seq(|courses|, i requires 0 <= i < |courses| => if courses[i].id == updated.id then updated else courses[i])
  }

  /** After an update the store serves the edited course under its id, if the id was known,
      and is unchanged otherwise. */
  lemma UpdateThenFind(courses: seq<Course>, updated: Course)
    ensures (exists i :: 0 <= i < |courses| && courses[i].id == updated.id) ==>
      FindCourse(UpdateCourse(courses, updated), updated.id) == Some(updated)
    ensures (forall i :: 0 <= i < |courses| ==> courses[i].id != updated.id) ==>
      UpdateCourse(courses, updated) == courses
  {
    var r := UpdateCourse(courses, updated);
    if exists i :: 0 <= i < |courses| && courses[i].id == updated.id {
      match FindCourse(r, updated.id)
      case None =>
      case Some(c) =>
        var k :| 0 <= k < |r| && r[k] == c;
    }
  }

  function KeepsOtherCourses(id: string): Course -> bool
  {
    (c: Course) => c.id != id
  }

  /** `deleteCourse`: no course with the id is left, every other course stays, as many times as
      before and in order. */
  function DeleteCourse(courses: seq<Course>, id: string): (r: seq<Course>)
    ensures forall i :: 0 <= i < |r| ==> r[i].id != id && r[i] in courses
    ensures forall i :: 0 <= i < |courses| && courses[i].id != id ==> courses[i] in r
    ensures Seqs.IsSubsequence(r, courses)
    ensures multiset(r) <= multiset(courses)
    ensures forall i :: 0 <= i < |courses| && courses[i].id != id ==> multiset(r)[courses[i]] == multiset(courses)[courses[i]]
    ensures (forall i :: 0 <= i < |courses| ==> courses[i].id != id) ==> r == courses
  {
    var keep := KeepsOtherCourses(id);
    Seqs.FilterIsSubsequence(keep, courses);
    Seqs.FilterKeepsAll(keep, courses);
    Seqs.FilterCounts(keep, courses);
    Seqs.Filter(keep, courses)
  }

  /** Deleting twice is deleting once, and a deleted course can no longer be found. */
  lemma DeleteIdempotent(courses: seq<Course>, id: string)
    ensures DeleteCourse(DeleteCourse(courses, id), id) == DeleteCourse(courses, id)
    ensures FindCourse(DeleteCourse(courses, id), id).None?
  {
    Seqs.FilterIdempotent(KeepsOtherCourses(id), courses);
  }
}
