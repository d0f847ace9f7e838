/**
 * The doctor-suggestion endpoint, `POST /api/suggest-doctors`: the user's
 * notes go into a one-line prompt, the completion text is trimmed and has
 * the first "```json" and then the first "```" cut out of it, and the rest
 * is handed to `JSON.parse`; whatever the backend call or the parse throws
 * is sent back as the answer's body.
 */
module SuggestDoctors {
  import opened Options
  import opened JsStrings
  import opened JsValues
  import MedicalReport

  // ---------------------------------------------------------------------
  // Cleaning the completion text
  // ---------------------------------------------------------------------

  /** `content.trim().replace('```json', '').replace('```', '')`. */
  function StripFirstFences(content: string): (r: string)
    ensures |r| <= |Trim(content)|
  {
    ReplaceFirst(ReplaceFirst(Trim(content), "```json"), "```")
  }

  /** Each `replace` with a string pattern removes at most one copy of its
    * marker: the text is as long as the trimmed reply, less 7 when "```json"
    * occurs in it, less a further 3 when a "```" is left after that. */
  lemma StripLength(content: string)
    ensures var trimmed := Trim(content);
      var once := ReplaceFirst(trimmed, "```json");
      |StripFirstFences(content)|
      == |trimmed| - (if Contains(trimmed, "```json") then 7 else 0) - (if Contains(once, "```") then 3 else 0)
  {
    var trimmed := Trim(content);
    var once := ReplaceFirst(trimmed, "```json");
    var twice := ReplaceFirst(once, "```");
    if Contains(trimmed, "```json") {
      ReplaceFirstRoundTrip(trimmed, "```json");
    }
    if Contains(once, "```") {
      ReplaceFirstRoundTrip(once, "```");
    }
  }

  /** A reply without a backtick is only trimmed. */
  lemma PlainReplyOnlyTrimmed(content: string)
    requires '`' !in content
    ensures StripFirstFences(content) == Trim(content)
  {
    NoBacktickNoOccurrence(content, "```json");
    TrimKeepsAbsence(content, "```json");
    NoBacktickNoOccurrence(content, "```");
    TrimKeepsAbsence(content, "```");
  }

  /** Text between two bare fences, without a backtick and not starting with
    * "json", leaves no room for "```json". */
  lemma BareFenceHasNoJsonFence(body: string)
    requires '`' !in body && !StartsWith(body, "json")
    ensures !Contains("```" + body + "```", "```json")
  {
    var s := "```" + body + "```";
    forall i | 0 <= i <= |s|
      ensures !StartsWith(s[i..], "```json")
    {
      if i == 0 && |body| >= 4 {
        assert s[3..7] == body[..4];
        assert s[..7][3..] == s[3..7];
      } else if i == 0 && |s| >= 7 {
        assert s[..7][3 + |body|] == '`';
      } else if i + 7 <= |s| {
        assert s[i..][..7][2] == body[i - 1];
      }
    }
    NoStartNotContained(s, "```json");
  }

  /** A reply that starts and ends with a backtick is already trimmed, so
    * only the two removals act on it. */
  lemma StripTrimmed(s: string)
    requires |s| > 0 && s[0] == '`' && s[|s| - 1] == '`'
    ensures StripFirstFences(s) == ReplaceFirst(ReplaceFirst(s, "```json"), "```")
  {
    TrimOfTrimmed(s);
  }

  /** A reply fenced with bare "```" loses only its opening fence: the
    * closing fence stays in the text handed to the parser. */
  lemma BareFenceKeepsClosingFence(body: string)
    requires '`' !in body && !StartsWith(body, "json")
    ensures StripFirstFences("```" + body + "```") == body + "```"
  {
    var s := "```" + body + "```";
    StripTrimmed(s);
    BareFenceHasNoJsonFence(body);
    Regroup3("```", body, "```");
    LeadingMarkerRemoved("```", body + "```");
  }

  /** A "```json" fence loses both markers but keeps the whitespace inside
    * them, since nothing trims after the removal. */
  lemma JsonFenceKeepsInnerWhitespace(w2: string, body: string, w3: string)
    requires AllWhitespace(w2) && AllWhitespace(w3) && '`' !in body && Trimmed(body)
    ensures StripFirstFences("```json" + w2 + body + w3 + "```") == w2 + body + w3
  {
    var inner := w2 + body + w3;
    var s := "```json" + w2 + body + w3 + "```";
    StripTrimmed(s);
    Regroup5("```json", w2, body, w3, "```");
    LeadingMarkerRemoved("```json", inner + "```");
    WhitespaceAroundPlainText(w2, body, w3);
    ClosingFenceRemoved(inner);
  }

  /** Whitespace on both sides of backtick-free text adds no backtick. */
  lemma WhitespaceAroundPlainText(w2: string, body: string, w3: string)
    requires AllWhitespace(w2) && AllWhitespace(w3) && '`' !in body
    ensures '`' !in w2 + body + w3
  {
    assert forall k :: 0 <= k < |w2| ==> IsWhitespace(w2[k]);
    assert forall k :: 0 <= k < |w3| ==> IsWhitespace(w3[k]);
  }

  /** Backtick-free text followed by "```" loses that fence. */
  lemma ClosingFenceRemoved(inner: string)
    requires '`' !in inner
    ensures ReplaceFirst(inner + "```", "```") == inner
  {
    assert inner + "```" == inner + "```" + "";
    FenceAfterPlainText(inner, "```", "");
    assert inner + "" == inner;
  }

  /** The two endpoints part ways on the same fenced reply: the report
    * endpoint cleans it down to the body, the suggestion endpoint keeps the
    * whitespace inside the fence. */
  lemma FenceCleaningDiffers(w2: string, body: string, w3: string)
    requires AllWhitespace(w2) && AllWhitespace(w3) && '`' !in body && Trimmed(body)
    ensures MedicalReport.CleanReport("```json" + w2 + body + w3 + "```") == body
    ensures StripFirstFences("```json" + w2 + body + w3 + "```") == w2 + body + w3
  {
    MedicalReport.CleanFencedReply(w2, body, w3);
    JsonFenceKeepsInnerWhitespace(w2, body, w3);
  }

  /** Only the first "```json" goes: in a reply holding two fenced blocks,
    * the second block keeps its opening "```json" and its closing fence. */
  lemma SecondJsonFenceSurvives(a: string, ws: string, b: string)
    requires '`' !in a && '`' !in b && AllWhitespace(ws)
    ensures StripFirstFences("```json" + a + "```" + ws + "```json" + b + "```")
         == a + ws + "```json" + b + "```"
  {
    var rest := ws + "```json" + b + "```";
    var s := "```json" + a + "```" + ws + "```json" + b + "```";
    StripTrimmed(s);
    Regroup7("```json", a, "```", ws, "```json", b, "```");
    LeadingMarkerRemoved("```json", a + "```" + rest);
    FenceAfterPlainText(a, "```", rest);
    Regroup5(a, ws, "```json", b, "```");
  }

  // ---------------------------------------------------------------------
  // The handler
  // ---------------------------------------------------------------------

  /** The parsed request body: `{ notes }` destructured from `req.json()`,
    * or the error that reading it throws. */
  datatype SuggestRequest = Unreadable(thrown: Thrown) | Body(notes: Option<string>)

  /** What `openai.chat.completions.create` gives: the thrown error, as the
    * JSON it serializes to, or the first choice's message content (`None`
    * when there is no first choice or it has no string content). */
  datatype Completion = CallFailed(error: Json) | Completed(content: Option<string>)

  /** The handler's effect: an error escaping the handler, or the prompt it
    * sent and its answer. */
  datatype SuggestOutcome = Uncaught(thrown: Thrown) | Answered(prompt: string, response: Response)

  /** The request that follows the notes in the prompt. */
  const NotesInstruction: string :=
    ", Depends on user notes and symptoms, Please suggest list of doctors , Return Object in JSON only "

  /** `"User Notes/Symptoms:" + notes + ...`; absent notes show as
    * "undefined". */
  function NotesPrompt(notes: Option<string>): (r: string)
    ensures StartsWith(r, "User Notes/Symptoms:")
    ensures notes.Some? ==> StartsWith(r[|"User Notes/Symptoms:"|..], notes.value)
    ensures notes.None? ==> StartsWith(r[|"User Notes/Symptoms:"|..], "undefined")
    ensures |r| >= |NotesInstruction| && r[|r| - |NotesInstruction|..] == NotesInstruction
  {
    var shown := if notes.Some? then notes.value else "undefined";
    var r := "User Notes/Symptoms:" + shown + NotesInstruction;
    assert r[..|"User Notes/Symptoms:"|] == "User Notes/Symptoms:";
    assert r[|"User Notes/Symptoms:"|..][..|shown|] == shown;
    assert r[|r| - |NotesInstruction|..] == NotesInstruction;
    r
  }

  /** What `NextResponse.json(e)` sends for a `TypeError` or `SyntaxError`:
    * such errors have no enumerable properties, so they serialize as `{}`. */
  const EmptyObject: Json := JObject(map[])

  /** The body of the answer once the request has been read: the call's
    * error, `{}` for the `TypeError` of missing content or the parser's
    * `SyntaxError`, or the parsed reply. */
  function AnswerBody(completion: Completion, parse: string -> ParseResult): (r: Json)
    ensures completion.CallFailed? ==> r == completion.error
    ensures completion.Completed? ==>
      || r == EmptyObject
      || (completion.content.Some? && parse(StripFirstFences(completion.content.value)) == Parsed(r))
  {
    match completion
    case CallFailed(e) => e
    case Completed(None) => EmptyObject
    case Completed(Some(content)) =>
      match parse(StripFirstFences(content))
      case SyntaxError(_) => EmptyObject
      case Parsed(v) => v
  }

  /** The whole handler. Reading the body happens before the `try`, so its
    * error escapes; after that, every path answers with status 200. */
  function Suggest(req: SuggestRequest, completion: Completion, parse: string -> ParseResult): (o: SuggestOutcome)
    ensures o.Uncaught? <==> req.Unreadable?
    ensures o.Uncaught? ==> o.thrown == req.thrown
    ensures o.Answered? ==> o.prompt == NotesPrompt(req.notes) && o.response.status == 200
  {
    match req
    case Unreadable(e) => Uncaught(e)
    case Body(notes) => Answered(NotesPrompt(notes), Response(200, AnswerBody(completion, parse)))
  }

  /** The backend call's error is the answer's body. */
  lemma CallErrorReturned(notes: Option<string>, error: Json, parse: string -> ParseResult)
    ensures Suggest(Body(notes), CallFailed(error), parse).response == Response(200, error)
  {
  }

  /** Missing message content makes `.trim()` throw a `TypeError`, answered
    * as `{}` with status 200. */
  lemma MissingContentAnswersEmptyObject(notes: Option<string>, parse: string -> ParseResult)
    ensures Suggest(Body(notes), Completed(None), parse).response == Response(200, EmptyObject)
  {
  }

  /** A reply that parses is answered as parsed; one that does not is
    * answered `{}`, exactly like a reply that parses to an empty object. */
  lemma ParseOutcomeAnswered(notes: Option<string>, content: string, parse: string -> ParseResult)
    ensures var r := Suggest(Body(notes), Completed(Some(content)), parse).response;
      var parsed := parse(StripFirstFences(content));
      && (parsed.Parsed? ==> r == Response(200, parsed.value))
      && (parsed.SyntaxError? ==> r == Response(200, EmptyObject))
  {
  }

  /** A fenced reply is parsed from the text between the fences with its
    * inner whitespace kept, where the report endpoint parses the body alone. */
  lemma FencedReplyParsedWithWhitespace(notes: Option<string>, w2: string, body: string, w3: string,
                                        parse: string -> ParseResult)
    requires AllWhitespace(w2) && AllWhitespace(w3) && '`' !in body && Trimmed(body)
    ensures var r := Suggest(Body(notes), Completed(Some("```json" + w2 + body + w3 + "```")), parse).response;
      var parsed := parse(w2 + body + w3);
      && (parsed.Parsed? ==> r == Response(200, parsed.value))
      && (parsed.SyntaxError? ==> r == Response(200, EmptyObject))
  {
    var content := "```json" + w2 + body + w3 + "```";
    JsonFenceKeepsInnerWhitespace(w2, body, w3);
    ParseOutcomeAnswered(notes, content, parse);
  }
}
