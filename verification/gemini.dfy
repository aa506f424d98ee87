/**
 * The result plumbing of the three generator calls (services/geminiService.ts): turning whatever
 * a failed call threw into a message, cleaning and parsing a JSON reply, and the data/error
 * result each generator returns. The network call itself is an input: what it returned
 * (`response.text`, possibly absent) or what it threw. JSON parsing is a parameter.
 */
module Gemini {
  import opened Options
  import opened Strings
  import opened Types

  // ---------------------------------------------------------------------------
  // Shapes
  // ---------------------------------------------------------------------------

  /** What a generator hands back: exactly one of a payload or an error message. */
  datatype GenResult<T> = Data(value: T) | Error(message: string)

  /** What a failed call threw. A string, or an object whose optional fields are its
      `message`, the `message` of its nested `error` object, and its HTTP `status`.
      An absent field, `undefined`, `null` and a thrown `null` are all `None`. */
  datatype ErrorValue =
    | StringError(text: string)
    | ObjectError(message: Option<string>, nestedMessage: Option<string>, status: Option<nat>)

  /** The outcome of awaiting the SDK: it returned a response (whose `text` may be absent)
      or it threw. */
  datatype Call = Returned(text: Option<string>) | Threw(error: ErrorValue)

  datatype OutlineLesson = OutlineLesson(title: string, description: string)
  datatype OutlineModule = OutlineModule(title: string, lessons: seq<OutlineLesson>)

  /** The course skeleton the outline generator is asked for. */
  datatype Outline = Outline(title: string, subtitle: string, modules: seq<OutlineModule>)

  /** Reads `s` as a JSON document: `Some` of the payload, or `None` when `JSON.parse` throws or
      yields a falsy value. */
  type Parser<T> = string -> Option<T>

  const LeakedKeyMessage: string :=
    "Sécurité : Votre clé API a été signalée comme compromise (leaked) et a été désactivée par Google. Veuillez utiliser une clé valide dans vos variables d'environnement."
  const GenericFailureMessage: string :=
    "Une erreur inattendue est survenue lors de la communication avec l'IA."
  const InvalidOutlineMessage: string := "Le format du programme reçu est invalide."
  const ContentFallback: string := "Échec de la génération du contenu."
  /** How much lesson text the quiz prompt carries. */
  const QuizExcerptLength: nat := 3000

  // ---------------------------------------------------------------------------
  // extractErrorMessage
  // ---------------------------------------------------------------------------

  /** A string with no occurrence of one of `pat`'s characters cannot contain `pat`. */
  lemma AbsentCharNotContained(s: string, pat: string, k: nat)
    requires k < |pat| && pat[k] !in s
    ensures !Contains(s, pat)
  {
    forall i | 0 <= i <= |s|
      ensures !OccursAt(s, pat, i)
    {
      if i + |pat| <= |s| {
        assert s[i..i + |pat|][k] == s[i + k];
      }
    }
  }

  /** The message shown for a failure. `errorField(s)` is the `error.message` of `s` read as
      JSON, when it parses and has one. A string is that nested message or else itself; for
      anything else a mention of "leaked" wins, then the nested message, then the status line,
      then the message, then a generic text, so a non-string failure never gives an empty message. */
  function ExtractErrorMessage(e: ErrorValue, errorField: Parser<string>): (r: string)
    ensures e.StringError? ==>
      (if errorField(e.text).Some? && errorField(e.text).value != "" then r == errorField(e.text).value
       else r == e.text)
    ensures e.ObjectError? && Contains(e.message.GetOr(""), "leaked") ==> r == LeakedKeyMessage
    ensures e.ObjectError? && !Contains(e.message.GetOr(""), "leaked") ==>
      if e.nestedMessage.Some? && e.nestedMessage.value != "" then r == e.nestedMessage.value
      else if e.status.Some? && e.status.value != 0 then
        r == "Erreur " + NatToString(e.status.value) + ": " + e.message.GetOr("")
      else if e.message.GetOr("") != "" then r == e.message.value
      else r == GenericFailureMessage
    ensures e.ObjectError? ==> r != ""
  {
    match e
    case StringError(text) =>
      var nested := errorField(text);
      if nested.Some? && nested.value != "" then nested.value else text
    case ObjectError(message, nestedMessage, status) =>
      var msg := message.GetOr("");
      if Contains(msg, "leaked") then LeakedKeyMessage
      else if nestedMessage.Some? && nestedMessage.value != "" then nestedMessage.value
      else if status.Some? && status.value != 0 then "Erreur " + NatToString(status.value) + ": " + msg
      else if msg != "" then msg
      else GenericFailureMessage
  }

  // ---------------------------------------------------------------------------
  // safeParseJson: code-fence stripping
  // ---------------------------------------------------------------------------

  /** Three backticks start at index `i` of `s`. */
  predicate TicksAt(s: string, i: int)
  {
    0 <= i && i + 3 <= |s| && s[i] == '`' && s[i + 1] == '`' && s[i + 2] == '`'
  }

  /** `s.replace(/```json\n?|```/g, '')`: scanning left to right, a "```json" (with the newline
      after it, if any) or else a "```" is dropped, and any other character is kept. */
  function StripFences(s: string): (r: string)
    ensures |r| <= |s|
    decreases |s|
  {
    if |s| >= 7 && s[..7] == "```json" then
      (if |s| >= 8 && s[7] == '\n' then StripFences(s[8..]) else StripFences(s[7..]))
    else if TicksAt(s, 0) then StripFences(s[3..])
    else if |s| == 0 then []
    else [s[0]] + StripFences(s[1..])
  }

  /** A string that does not start with three backticks loses nothing at its head. */
  lemma StripKeepsHead(s: string)
    requires |s| > 0 && !TicksAt(s, 0)
    ensures StripFences(s) == [s[0]] + StripFences(s[1..])
  {
    if |s| >= 7 {
      assert s[..7][0] == s[0] && s[..7][1] == s[1] && s[..7][2] == s[2];
    }
  }

  /** No three backticks survive the stripping, even where removing a fence joins two pieces. */
  lemma {:induction false} StripLeavesNoTicks(s: string)
    ensures forall i :: !TicksAt(StripFences(s), i)
    decreases |s|
  {
    if |s| >= 7 && s[..7] == "```json" {
      if |s| >= 8 && s[7] == '\n' { StripLeavesNoTicks(s[8..]); } else { StripLeavesNoTicks(s[7..]); }
    } else if TicksAt(s, 0) {
      StripLeavesNoTicks(s[3..]);
    } else if |s| > 0 {
      var t := s[1..];
      var rest := StripFences(t);
      StripLeavesNoTicks(t);
      StripKeepsHead(s);
      var r := StripFences(s);
      assert r == [s[0]] + rest;
      forall i | 0 < i
        ensures !TicksAt(r, i)
      {
        if TicksAt(r, i) {
          assert TicksAt(rest, i - 1);
        }
      }
      // A backtick kept at the head is never followed by two more.
      if s[0] == '`' && |r| >= 3 {
        if t[0] != '`' {
          StripKeepsHead(t);
        } else {
          assert |t| >= 2 && t[1] != '`';
          StripKeepsHead(t);
          StripKeepsHead(t[1..]);
        }
      }
    }
  }

  /** Text without backticks passes through the stripping untouched, in front of anything. */
  lemma {:induction false} StripSkipsPlainPrefix(x: string, y: string)
    requires '`' !in x
    ensures StripFences(x + y) == x + StripFences(y)
    decreases |x|
  {
    if |x| > 0 {
      StripKeepsHead(x + y);
      assert (x + y)[1..] == x[1..] + y;
      StripSkipsPlainPrefix(x[1..], y);
    } else {
      assert x + y == y;
    }
  }

  lemma TicksAtIffContains(s: string)
    ensures (exists i :: TicksAt(s, i)) <==> Contains(s, "```")
  {
    if Contains(s, "```") {
      var i :| 0 <= i <= |s| && OccursAt(s, "```", i);
      assert s[i..i + 3][0] == s[i] && s[i..i + 3][1] == s[i + 1] && s[i..i + 3][2] == s[i + 2];
      assert TicksAt(s, i);
    }
    if exists i :: TicksAt(s, i) {
      var i :| TicksAt(s, i);
      assert s[i..i + 3] == "```";
      assert OccursAt(s, "```", i);
    }
  }

  /** Three backticks inside a slice are three backticks of the whole text. */
  lemma TicksInSlice(t: string, a: nat, b: nat)
    requires a <= b <= |t|
    ensures forall i :: TicksAt(t[a..b], i) ==> TicksAt(t, a + i)
  {
    forall i | TicksAt(t[a..b], i)
      ensures TicksAt(t, a + i)
    {
      assert t[a..b][i] == t[a + i] && t[a..b][i + 1] == t[a + i + 1] && t[a..b][i + 2] == t[a + i + 2];
    }
  }

  /** Trimming cannot create three backticks: it only cuts whitespace off the ends. */
  lemma TrimKeepsNoTicks(t: string)
    requires forall i :: !TicksAt(t, i)
    ensures forall i :: !TicksAt(Trim(t), i)
  {
    var a, b :| TrimmedSlice(t, Trim(t), a, b);
    TicksInSlice(t, a, b);
  }

  /** The text handed to `JSON.parse`: fences removed, then trimmed. It holds no "```" and has
      no leading or trailing whitespace. */
  function CleanFences(s: string): (r: string)
    ensures !Contains(r, "```")
    ensures r == [] || (!IsWhitespace(r[0]) && !IsWhitespace(r[|r| - 1]))
  {
    var stripped := StripFences(s);
    StripLeavesNoTicks(s);
    TrimKeepsNoTicks(stripped);
    TicksAtIffContains(Trim(stripped));
    Trim(stripped)
  }

  /** A reply wrapped as a ```json fenced block, with no backtick inside, cleans to its body. */
  lemma CleanFencedBlock(body: string)
    requires '`' !in body
    ensures CleanFences("```json\n" + body + "```") == Trim(body)
  {
    var s := "```json\n" + body + "```";
    assert s[..7] == "```json" && s[7] == '\n';
    assert s[8..] == body + "```";
    StripSkipsPlainPrefix(body, "```");
    assert StripFences("```") == [];
    assert body + [] == body;
  }

  /** `safeParseJson(text)`: nothing for an absent or empty text or the text "undefined";
      otherwise whatever parsing the cleaned text gives. */
  function SafeParseJson<T>(text: Option<string>, parse: Parser<T>): (r: Option<T>)
    ensures text.None? || text.value == "" || text.value == "undefined" ==> r.None?
    ensures text.Some? && text.value != "" && text.value != "undefined" ==>
      r == parse(CleanFences(text.value))
  {
    if text.None? || text.value == "" || text.value == "undefined" then None
    else parse(CleanFences(text.value))
  }

  // ---------------------------------------------------------------------------
  // The three generators
  // ---------------------------------------------------------------------------

  /** `generateCourseOutline`: a parsed outline, or an error. An unreadable reply is an error
      with exactly the invalid-format message, a thrown failure an error with its extracted message. */
  function GenerateCourseOutline(call: Call, parseOutline: Parser<Outline>, errorField: Parser<string>)
    : (r: GenResult<Outline>)
    ensures call.Threw? ==> r == Error(ExtractErrorMessage(call.error, errorField))
    ensures call.Returned? && SafeParseJson(call.text, parseOutline).None? ==> r == Error(InvalidOutlineMessage)
    ensures call.Returned? && SafeParseJson(call.text, parseOutline).Some? ==>
      r == Data(SafeParseJson(call.text, parseOutline).value)
  {
    match call
    case Threw(e) => Error(ExtractErrorMessage(e, errorField))
    case Returned(text) =>
      match SafeParseJson(text, parseOutline)
      case None =>
        // `throw new Error(...)` inside the try block, caught and passed through extractErrorMessage.
        AbsentCharNotContained(InvalidOutlineMessage, "leaked", 3);
        Error(ExtractErrorMessage(ObjectError(Some(InvalidOutlineMessage), None, None), errorField))
      case Some(o) => Data(o)
  }

  /** `generateLessonContent`: the reply text, with a fixed fallback text when it is absent
      or empty; an error only when the call threw. */
  function GenerateLessonContent(call: Call, errorField: Parser<string>): (r: GenResult<string>)
    ensures r.Error? <==> call.Threw?
    ensures r.Data? ==> r.value != ""
    ensures r.Data? && call.text.Some? && call.text.value != "" ==> r.value == call.text.value
    ensures r.Data? && (call.text.None? || call.text.value == "") ==> r.value == ContentFallback
  {
    match call
    case Threw(e) => Error(ExtractErrorMessage(e, errorField))
    case Returned(text) => Data(if text.Some? && text.value != "" then text.value else ContentFallback)
  }

  /** The lesson text the quiz prompt quotes: `content.substring(0, 3000)`. */
  function QuizExcerpt(content: string): (r: string)
    ensures |r| <= QuizExcerptLength && |r| <= |content| && r == content[..|r|]
    ensures |content| <= QuizExcerptLength ==> r == content
    ensures |content| > QuizExcerptLength ==> |r| == QuizExcerptLength
  {
    if |content| <= QuizExcerptLength then content else content[..QuizExcerptLength]
  }

  /** `generateQuiz`: an unreadable reply is not an error but an empty question list; an error
      only when the call threw. */
  function GenerateQuiz(call: Call, parseQuiz: Parser<seq<QuizQuestion>>, errorField: Parser<string>)
    : (r: GenResult<seq<QuizQuestion>>)
    ensures r.Error? <==> call.Threw?
    ensures call.Threw? ==> r.message == ExtractErrorMessage(call.error, errorField)
    ensures call.Returned? && SafeParseJson(call.text, parseQuiz).None? ==> r == Data([])
    ensures call.Returned? && SafeParseJson(call.text, parseQuiz).Some? ==>
      r == Data(SafeParseJson(call.text, parseQuiz).value)
  {
    match call
    case Threw(e) => Error(ExtractErrorMessage(e, errorField))
    case Returned(text) => Data(SafeParseJson(text, parseQuiz).GetOr([]))
  }
}
