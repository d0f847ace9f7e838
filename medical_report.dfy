/**
 * The report-generation endpoint (`POST /api/medical-report`): validate the
 * request, render the consultation transcript into a prompt, call the
 * text-generation backend, strip code fences from its reply, parse it as
 * JSON, fill in the session id, store the report on the session row
 * (best effort) and answer with the report.
 *
 * The backend call, `JSON.parse` and the database are inputs: the
 * backend's answer is a `BackendReply` value, the parser a function from
 * text to `ParseResult`, and the database write either succeeds or fails
 * as its caller says.
 */
module MedicalReport {
  import opened Options
  import opened JsStrings
  import opened JsValues

  // ---------------------------------------------------------------------
  // Inputs and outcome
  // ---------------------------------------------------------------------

  /** One entry of the request's `messages` array. */
  datatype Message = Message(role: Option<string>, transcript: Option<string>, content: Option<string>)

  /** The fields the handler reads from the request body; `specialist` is
    * `sessionDetail?.selectedDoctor?.specialist`. */
  datatype Request = Request(sessionId: Option<string>, specialist: Option<string>, messages: Option<seq<Message>>)

  /** The request body: unreadable (`req.json()` throws) or its fields. */
  datatype RequestBody = Unreadable(thrown: Thrown) | Body(request: Request)

  /** The environment: the `OPEN_ROUTER_API_KEY` setting and the clock
    * reading `new Date().toISOString()`. */
  datatype Env = Env(apiKey: Option<string>, now: string)

  /** What the backend `fetch` produced: it rejected, or it answered with a
    * status, the raw body text (read when the status is not 2xx) and the
    * completion text `choices?.[0]?.message?.content` (read otherwise).
    * `NetworkError` also stands for the other throws on this path, all of
    * which end in the same `catch`: `response.text()` rejecting on a non-2xx
    * answer, `response.json()` failing on a 2xx body, a 2xx body that parses
    * to `null` (reading `completion.choices` throws, since the optional
    * chaining starts after it), and a truthy non-string content whose `.trim`
    * is not a function. */
  datatype BackendReply =
    | NetworkError(thrown: Thrown)
    | Reply(status: nat, text: string, content: Option<string>)

  /** The database update `set({ report, conversation })` on the row whose
    * `sessionId` matches. */
  datatype ReportWrite = ReportWrite(sessionId: string, report: Json, conversation: seq<Message>)

  /** The HTTP response, the user prompt sent to the backend (if the backend
    * was called) and the database update issued (if any). */
  datatype Outcome = Outcome(response: Response, prompt: Option<string>, write: Option<ReportWrite>)

  // ---------------------------------------------------------------------
  // Conversation rendering and the prompt
  // ---------------------------------------------------------------------

  /** Only the role "assistant" is the doctor; every other role, and a
    * missing one, is the patient. */
  function RoleLabel(role: Option<string>): (r: string)
    ensures r == "Doctor" <==> role == Some("assistant")
    ensures r == "Doctor" || r == "Patient"
  {
    if role == Some("assistant") then "Doctor" else "Patient"
  }

  /** `msg.transcript || msg.content || ''`: the text is empty only when both
    * fields are falsy, and otherwise comes from the transcript when that is
    * non-empty and from the content when it is not. */
  function MessageText(m: Message): (r: string)
    ensures r != "" <==> Present(m.transcript) || Present(m.content)
    ensures Present(m.transcript) ==> r == m.transcript.value
    ensures !Present(m.transcript) ==> r == OrElse(m.content, "")
  {
    OrElse(m.transcript, OrElse(m.content, ""))
  }

  /** An empty transcript behaves exactly like a missing one: the content is
    * used instead. */
  lemma EmptyTranscriptFallsBack(m: Message)
    requires m.transcript == Some("")
    ensures MessageText(m) == MessageText(m.(transcript := None))
    ensures Present(m.content) ==> MessageText(m) == m.content.value
  {
  }

  function RenderLine(m: Message): string
  {
    RoleLabel(m.role) + ": " + MessageText(m)
  }

  /** The rendered lines: one per message, in message order. */
  function Lines(msgs: seq<Message>): (r: seq<string>)
    ensures |r| == |msgs|
    ensures forall i :: 0 <= i < |msgs| ==> r[i] == RoleLabel(msgs[i].role) + ": " + MessageText(msgs[i])
  {
    if msgs == [] then [] else [RenderLine(msgs[0])] + Lines(msgs[1..])
  }

  /** `messages.map(...).join('\n')`. */
  function Conversation(msgs: seq<Message>): (r: string)
    ensures r == "" <==> msgs == []
  {
    Join(Lines(msgs), "\n")
  }

  lemma LinesHaveNoNewline(msgs: seq<Message>)
    requires forall i :: 0 <= i < |msgs| ==> '\n' !in MessageText(msgs[i])
    ensures forall k :: 0 <= k < |msgs| ==> '\n' !in Lines(msgs)[k]
  {
    forall k | 0 <= k < |msgs|
      ensures '\n' !in Lines(msgs)[k]
    {
      var name := RoleLabel(msgs[k].role);
      assert '\n' !in name;
      assert Lines(msgs)[k] == name + ": " + MessageText(msgs[k]);
    }
  }

  /** Splitting the rendered conversation at newlines gives back exactly one
    * line per message, in order, provided no message text has a newline. */
  lemma ConversationLines(msgs: seq<Message>)
    requires |msgs| >= 1
    requires forall i :: 0 <= i < |msgs| ==> '\n' !in MessageText(msgs[i])
    ensures Split(Conversation(msgs), '\n') == Lines(msgs)
  {
    LinesHaveNoNewline(msgs);
    SplitJoin(Lines(msgs), '\n');
  }

  /** `sessionDetail?.selectedDoctor?.specialist || 'General Physician'`. */
  function SpecialistName(specialist: Option<string>): (r: string)
    ensures r != ""
    ensures Present(specialist) ==> r == specialist.value
    ensures !Present(specialist) ==> r == "General Physician"
  {
    OrElse(specialist, "General Physician")
  }

  const ReportInstruction: string :=
    "Create a detailed medical report based on this consultation. Include every detail discussed, exact medication timings, and comprehensive explanations."

  /** The user message sent to the backend (the template literal `UserInput`). */
  function UserPayload(specialist: Option<string>, now: string, sessionId: string, conversation: string): string
  {
    "Doctor Specialist: " + SpecialistName(specialist) + "\nDate: " + now + "\nSession: " + sessionId
    + "\n\nCONVERSATION:\n" + conversation + "\n\n" + ReportInstruction
  }

  /** The header lines of the prompt, before the conversation. */
  function PayloadHeader(specialist: Option<string>, now: string, sessionId: string): seq<string>
  {
    ["Doctor Specialist: " + SpecialistName(specialist), "Date: " + now, "Session: " + sessionId, "", "CONVERSATION:"]
  }

  /** The template literal, cut at its line breaks. */
  lemma PayloadShape(name: string, now: string, sessionId: string, conversation: string, instruction: string)
    ensures "Doctor Specialist: " + name + "\nDate: " + now + "\nSession: " + sessionId
            + "\n\nCONVERSATION:\n" + conversation + "\n\n" + instruction
         == ("Doctor Specialist: " + name) + "\n" + ("Date: " + now) + "\n" + ("Session: " + sessionId)
            + "\n" + "" + "\n" + "CONVERSATION:" + "\n" + conversation + "\n" + "" + "\n" + instruction
  {
    var nl := "\n";
    assert "\nDate: " == nl + "Date: ";
    assert "\nSession: " == nl + "Session: ";
    assert "\n\nCONVERSATION:\n" == nl + "" + nl + "CONVERSATION:" + nl;
    assert "\n\n" == nl + "" + nl;
    LinesRegrouped("Doctor Specialist: ", name, "Date: ", now, "Session: ", sessionId,
                   "CONVERSATION:", conversation, instruction, nl);
  }

  lemma LinesRegrouped(h0: string, name: string, h1: string, now: string, h2: string, sessionId: string,
                       h4: string, conversation: string, instruction: string, nl: string)
    ensures h0 + name + (nl + h1) + now + (nl + h2) + sessionId
            + (nl + "" + nl + h4 + nl) + conversation + (nl + "" + nl) + instruction
         == (h0 + name) + nl + (h1 + now) + nl + (h2 + sessionId)
            + nl + "" + nl + h4 + nl + conversation + nl + "" + nl + instruction
  {
  }

  /** The lines of the prompt before its closing instruction: the header,
    * one line per message and a blank line. */
  function PromptLines(specialist: Option<string>, now: string, sessionId: string, msgs: seq<Message>): seq<string>
  {
    PayloadHeader(specialist, now, sessionId) + Lines(msgs) + [""]
  }

  /** The prompt is its header lines, one line per message and a blank
    * line, joined by line breaks, then a line break and the closing
    * instruction. */
  lemma PayloadAsLines(specialist: Option<string>, now: string, sessionId: string, msgs: seq<Message>)
    requires |msgs| >= 1
    ensures var lines := PromptLines(specialist, now, sessionId, msgs);
      UserPayload(specialist, now, sessionId, Conversation(msgs)) == Join(lines, "\n") + "\n" + ReportInstruction
  {
    var header := PayloadHeader(specialist, now, sessionId);
    var body := Lines(msgs);
    var nl := "\n";
    JoinFive(header[0], header[1], header[2], header[3], header[4], nl);
    JoinAppend(header, body, nl);
    JoinAppend(header + body, [""], nl);
    assert Join([""], nl) == "";
    PayloadShape(SpecialistName(specialist), now, sessionId, Conversation(msgs), ReportInstruction);
  }

  /** No header line holds a line break when the fields it shows hold none. */
  lemma HeaderHasNoNewline(specialist: Option<string>, now: string, sessionId: string)
    requires '\n' !in SpecialistName(specialist) && '\n' !in now && '\n' !in sessionId
    ensures forall k :: 0 <= k < 5 ==> '\n' !in PayloadHeader(specialist, now, sessionId)[k]
  {
    var labels := ["Doctor Specialist: ", "Date: ", "Session: ", "CONVERSATION:"];
    forall j, i | 0 <= j < 4 && 0 <= i < |labels[j]|
      ensures labels[j][i] != '\n'
    {
    }
  }

  /** No line of the prompt holds a line break when no field it shows does. */
  lemma PayloadLinesLackNewline(specialist: Option<string>, now: string, sessionId: string, msgs: seq<Message>)
    requires '\n' !in SpecialistName(specialist) && '\n' !in now && '\n' !in sessionId
    requires forall i :: 0 <= i < |msgs| ==> '\n' !in MessageText(msgs[i])
    ensures forall k :: 0 <= k < |PromptLines(specialist, now, sessionId, msgs)| ==>
      '\n' !in PromptLines(specialist, now, sessionId, msgs)[k]
  {
    var header := PayloadHeader(specialist, now, sessionId);
    var body := Lines(msgs);
    HeaderHasNoNewline(specialist, now, sessionId);
    LinesHaveNoNewline(msgs);
    NoneHolds(header, body, '\n');
    NoneHolds(header + body, [""], '\n');
  }

  /** The header lines, the message lines and the closing blank line come
    * back from splitting their join at the line breaks. */
  lemma PayloadLinesSplit(specialist: Option<string>, now: string, sessionId: string, msgs: seq<Message>)
    requires '\n' !in SpecialistName(specialist) && '\n' !in now && '\n' !in sessionId
    requires forall i :: 0 <= i < |msgs| ==> '\n' !in MessageText(msgs[i])
    ensures Split(Join(PromptLines(specialist, now, sessionId, msgs), "\n"), '\n')
         == PromptLines(specialist, now, sessionId, msgs)
  {
    PayloadLinesLackNewline(specialist, now, sessionId, msgs);
    SplitJoin(PromptLines(specialist, now, sessionId, msgs), '\n');
  }

  /** Line by line, the prompt is: the specialist (or "General Physician"),
    * the date, "Session: <id>", a blank line, "CONVERSATION:", one line per
    * message in order and a blank line; then comes the closing instruction. */
  lemma PayloadLines(specialist: Option<string>, now: string, sessionId: string, msgs: seq<Message>)
    requires |msgs| >= 1
    requires '\n' !in SpecialistName(specialist) && '\n' !in now && '\n' !in sessionId
    requires forall i :: 0 <= i < |msgs| ==> '\n' !in MessageText(msgs[i])
    ensures var lines := PromptLines(specialist, now, sessionId, msgs);
      && UserPayload(specialist, now, sessionId, Conversation(msgs)) == Join(lines, "\n") + "\n" + ReportInstruction
      && Split(Join(lines, "\n"), '\n') == lines
  {
    PayloadAsLines(specialist, now, sessionId, msgs);
    PayloadLinesSplit(specialist, now, sessionId, msgs);
  }

  // ---------------------------------------------------------------------
  // Cleaning the backend reply
  // ---------------------------------------------------------------------

  /** "```" at the front of `s`, stated on characters. */
  lemma FenceAtFront(s: string)
    ensures StartsWith(s, "```") <==> |s| >= 3 && s[0] == '`' && s[1] == '`' && s[2] == '`'
  {
    if |s| >= 3 && s[0] == '`' && s[1] == '`' && s[2] == '`' {
      assert s[..3] == "```";
    }
  }

  lemma StrippedStartsWithBacktick(t: string)
    requires StripAllWithWhitespace(t, "```") != []
    requires StripAllWithWhitespace(t, "```")[0] == '`'
    ensures t != [] && t[0] == '`'
  {
    FenceAtFront(t);
  }

  lemma StrippedStartsWithTwoBackticks(t: string)
    requires |StripAllWithWhitespace(t, "```")| >= 2
    requires StripAllWithWhitespace(t, "```")[0] == '`' && StripAllWithWhitespace(t, "```")[1] == '`'
    ensures |t| >= 2 && t[0] == '`' && t[1] == '`'
  {
    FenceAtFront(t);
    if !StartsWith(t, "```") {
      var r := StripAllWithWhitespace(t[1..], "```");
      assert StripAllWithWhitespace(t, "```") == [t[0]] + r;
      StrippedStartsWithBacktick(t[1..]);
    }
  }

  /** No triple backtick survives the global removal of "```" and the
    * whitespace after it. */
  lemma {:induction false} NoFenceAfterStrip(s: string)
    ensures !Contains(StripAllWithWhitespace(s, "```"), "```")
    decreases |s|
  {
    FenceAtFront(s);
    if StartsWith(s, "```") {
      NoFenceAfterStrip(TrimStart(s[3..]));
    } else if s != [] {
      var r := StripAllWithWhitespace(s[1..], "```");
      NoFenceAfterStrip(s[1..]);
      var x := [s[0]] + r;
      assert x[1..] == r;
      FenceAtFront(x);
      if StartsWith(x, "```") {
        StrippedStartsWithTwoBackticks(s[1..]);
      }
    }
  }

  /** The cleaning chain `trim().replace(/```json\s*\/g, '')
    * .replace(/```\s*\/g, '').trim()`. */
  function CleanReport(raw: string): (r: string)
    ensures Trimmed(r) && |r| <= |raw|
  {
    Trim(StripAllWithWhitespace(StripAllWithWhitespace(Trim(raw), "```json"), "```"))
  }

  /** The cleaned text has no triple backtick and no leading or trailing
    * whitespace. */
  lemma CleanReportClean(raw: string)
    ensures Trimmed(CleanReport(raw))
    ensures !Contains(CleanReport(raw), "```")
  {
    var stripped := StripAllWithWhitespace(StripAllWithWhitespace(Trim(raw), "```json"), "```");
    NoFenceAfterStrip(StripAllWithWhitespace(Trim(raw), "```json"));
    TrimKeepsAbsence(stripped, "```");
  }

  lemma {:induction false} AbsentExtended(s: string, p: string, q: string)
    requires !Contains(s, p)
    ensures !Contains(s, p + q)
    decreases |s|
  {
    if s != [] {
      AbsentExtended(s[1..], p, q);
    }
  }

  /** Text without a triple backtick is only trimmed. */
  lemma CleanWithoutFence(s: string)
    requires !Contains(s, "```")
    ensures CleanReport(s) == Trim(s)
  {
    var t := Trim(s);
    TrimKeepsAbsence(s, "```");
    AbsentExtended(t, "```", "json");
    assert "```" + "json" == "```json";
    StripAllAbsent(t, "```json");
    StripAllAbsent(t, "```");
    TrimIdempotent(s);
  }

  /** A reply with no backtick at all is only trimmed. */
  lemma CleanWithoutBacktick(s: string)
    requires '`' !in s
    ensures CleanReport(s) == Trim(s)
  {
    NoBacktickNoOccurrence(s, "```");
    CleanWithoutFence(s);
  }

  /** Cleaning is idempotent. */
  lemma CleanIdempotent(s: string)
    ensures CleanReport(CleanReport(s)) == CleanReport(s)
  {
    var c := CleanReport(s);
    CleanReportClean(s);
    CleanWithoutFence(c);
    TrimOfTrimmed(c);
  }

  /** Whitespace-only text cleans to the empty string. */
  lemma CleanWhitespace(w: string)
    requires AllWhitespace(w)
    ensures CleanReport(w) == ""
  {
    TrimAllWhitespace(w);
    TrimAllWhitespace("");
  }

  lemma JsonFenceAtFront(s: string)
    ensures StartsWith(s, "```json") ==> |s| >= 7 && s[0] == '`'
  {
    if StartsWith(s, "```json") {
      assert s[0] == s[..7][0];
    }
  }

  lemma {:induction false} NoJsonFenceBeforeClosing(a: string)
    requires '`' !in a
    ensures !Contains(a + "```", "```json")
    decreases |a|
  {
    var x := a + "```";
    JsonFenceAtFront(x);
    if a == [] {
      ShorterNotContained(x, "```json");
    } else {
      assert x[0] == a[0];
      assert x[1..] == a[1..] + "```";
      NoJsonFenceBeforeClosing(a[1..]);
    }
  }

  lemma {:induction false} StripClosingFence(a: string)
    requires '`' !in a
    ensures StripAllWithWhitespace(a + "```", "```") == a
    decreases |a|
  {
    var x := a + "```";
    FenceAtFront(x);
    if a == [] {
      assert x == "```" && StartsWith(x, "```");
      assert x[3..] == [];
      assert TrimStart(x[3..]) == [];
    } else {
      assert x[0] == a[0];
      assert x[1..] == a[1..] + "```";
      StripClosingFence(a[1..]);
      assert StripAllWithWhitespace(x, "```") == [a[0]] + a[1..];
    }
  }

  /** An opening "```json" and the whitespace after it are removed. */
  lemma StripOpeningJsonFence(w: string, rest: string)
    requires AllWhitespace(w) && (rest == [] || !IsWhitespace(rest[0]))
    ensures StripAllWithWhitespace("```json" + w + rest, "```json") == StripAllWithWhitespace(rest, "```json")
  {
    var x := "```json" + w + rest;
    assert x[..7] == "```json";
    assert x[7..] == w + rest;
    TrimStartPadded(w, rest);
  }

  lemma FencedShape(w2: string, body: string, w3: string)
    ensures "```json" + w2 + body + w3 + "```" == "```json" + w2 + ((body + w3) + "```")
    ensures body == [] ==> "```json" + w2 + body + w3 + "```" == "```json" + (w2 + w3) + ("" + "```")
  {
  }

  /** Removing the opening "```json" and its whitespace from a fenced body
    * leaves the body, its trailing whitespace and the closing fence; an
    * empty body leaves only the closing fence. */
  lemma JsonFenceOpened(w2: string, body: string, w3: string)
    requires AllWhitespace(w2) && AllWhitespace(w3) && '`' !in body && Trimmed(body)
    ensures StripAllWithWhitespace("```json" + w2 + body + w3 + "```", "```json")
         == (if body == [] then "" else body + w3) + "```"
  {
    var rest := if body == [] then "" else body + w3;
    FencedShape(w2, body, w3);
    if body == [] {
      StripOpeningJsonFence(w2 + w3, "" + "```");
    } else {
      StripOpeningJsonFence(w2, (body + w3) + "```");
    }
    assert forall k :: 0 <= k < |w3| ==> IsWhitespace(w3[k]);
    NoJsonFenceBeforeClosing(rest);
    StripAllAbsent(rest + "```", "```json");
  }

  /** Removing the closing fence and trimming leaves the body. */
  lemma ClosingFenceCleaned(body: string, w3: string)
    requires AllWhitespace(w3) && '`' !in body && Trimmed(body)
    ensures Trim(StripAllWithWhitespace((if body == [] then "" else body + w3) + "```", "```")) == body
  {
    var rest := if body == [] then "" else body + w3;
    assert forall k :: 0 <= k < |w3| ==> IsWhitespace(w3[k]);
    StripClosingFence(rest);
    if body == [] {
      TrimAllWhitespace("");
    } else {
      TrimTrailing(body, w3);
    }
  }

  /** A body wrapped in a "```json" fence, with optional whitespace around
    * the fence markers and the body, comes out exactly as the body. */
  lemma CleanFencedBody(w1: string, w2: string, body: string, w3: string, w4: string)
    requires AllWhitespace(w1) && AllWhitespace(w2) && AllWhitespace(w3) && AllWhitespace(w4)
    requires '`' !in body && Trimmed(body)
    ensures CleanReport(w1 + "```json" + w2 + body + w3 + "```" + w4) == body
  {
    var fenced := "```json" + w2 + body + w3 + "```";
    Surrounded(w1, "```json", w2, body, w3, "```", w4);
    assert fenced[0] == '`' && fenced[|fenced| - 1] == '`';
    TrimPadded(w1, fenced, w4);
    JsonFenceOpened(w2, body, w3);
    ClosingFenceCleaned(body, w3);
  }

  /** The same with nothing around the fences. */
  lemma CleanFencedReply(w2: string, body: string, w3: string)
    requires AllWhitespace(w2) && AllWhitespace(w3) && '`' !in body && Trimmed(body)
    ensures CleanReport("```json" + w2 + body + w3 + "```") == body
  {
    Unpadded("```json", w2, body, w3, "```");
    CleanFencedBody("", w2, body, w3, "");
  }

  // ---------------------------------------------------------------------
  // Errors and the session-id backfill
  // ---------------------------------------------------------------------

  /** The `catch (error)` response: 500 with the error's message and name,
    * or "Unknown error" / "Error" when those are empty. */
  function Failed(e: Thrown): (r: Response)
    ensures r.status == 500 && r.body.JObject?
    ensures r.body.fields.Keys == {"error", "details", "type"}
    ensures r.body.fields["error"] == JString("Failed to generate report")
    ensures e.message != "" ==> r.body.fields["details"] == JString(e.message)
    ensures e.message == "" ==> r.body.fields["details"] == JString("Unknown error")
    ensures e.name != "" ==> r.body.fields["type"] == JString(e.name)
    ensures e.name == "" ==> r.body.fields["type"] == JString("Error")
  {
    Response(500, JObject(map[
      "error" := JString("Failed to generate report"),
      "details" := JString(if e.message != "" then e.message else "Unknown error"),
      "type" := JString(if e.name != "" then e.name else "Error")]))
  }

  const MissingSessionId: Response := Response(400, ErrorBody("sessionId required", "No session ID"))
  const NoConversation: Response := Response(400, ErrorBody("No conversation", "Messages array empty"))
  const MissingApiKey: Response :=
    Response(500, ErrorBody("API key not configured", "Check OPEN_ROUTER_API_KEY in .env.local"))

  /** `response.ok`. */
  predicate IsOk(status: nat) {
    200 <= status <= 299
  }

  /** The message thrown for a non-2xx backend answer. */
  function UpstreamMessage(status: nat, text: string): (r: string)
    ensures StartsWith(r, "API returned " + DecimalString(status) + ": ")
    ensures |r| <= |"API returned " + DecimalString(status) + ": "| + 200
    ensures r[|"API returned " + DecimalString(status) + ": "|..] == Substring0(text, 200)
  {
    "API returned " + DecimalString(status) + ": " + Substring0(text, 200)
  }

  /** The TypeError a strict-mode `JSONResp.sessionId` read or write raises
    * on a parsed value that is not an object (messages as V8 words them). */
  function PrimitiveTypeError(v: Json): (r: Thrown)
    requires v.JNull? || v.JBool? || v.JNumber? || v.JString?
    ensures r.name == "TypeError"
  {
    match v
    case JNull => Thrown("TypeError", "Cannot read properties of null (reading 'sessionId')")
    case JBool(b) =>
      Thrown("TypeError", "Cannot create property 'sessionId' on boolean '" + (if b then "true" else "false") + "'")
    case JNumber(repr) => Thrown("TypeError", "Cannot create property 'sessionId' on number '" + repr + "'")
    case JString(s) => Thrown("TypeError", "Cannot create property 'sessionId' on string '" + s + "'")
  }

  /** `if (!JSONResp.sessionId) JSONResp.sessionId = sessionId`. On an object
    * a truthy `sessionId` is kept, a falsy or missing one becomes the
    * request's id, and every other field is left as it was; on an array the
    * new property does not appear in the JSON, so the array is unchanged;
    * on any other value the access throws. */
  function Backfill(v: Json, sessionId: string): (r: Result<Json, Thrown>)
    ensures v.JObject? ==>
      && r.Success? && r.value.JObject?
      && r.value.fields.Keys == v.fields.Keys + {"sessionId"}
      && (forall k :: k in v.fields && k != "sessionId" ==> r.value.fields[k] == v.fields[k])
      && r.value.fields["sessionId"]
         == if "sessionId" in v.fields && Truthy(v.fields["sessionId"]) then v.fields["sessionId"] else JString(sessionId)
    ensures v.JArray? ==> r == Success(v)
    ensures !v.JObject? && !v.JArray? ==> r.Failure? && r.error.name == "TypeError"
  {
    match v
    case JObject(fields) =>
      if "sessionId" in fields && Truthy(fields["sessionId"]) then Success(v)
      else Success(JObject(fields["sessionId" := JString(sessionId)]))
    case JArray(_) => Success(v)
    case _ => Failure(PrimitiveTypeError(v))
  }

  /** Everything between the prompt and the stored report: call outcome,
    * emptiness check, cleaning, parsing and backfill. */
  function Synthesize(sessionId: string, backend: BackendReply, parse: string -> ParseResult): (r: Result<Json, Thrown>)
    ensures r.Success? ==> backend.Reply? && IsOk(backend.status) && Present(backend.content)
    ensures backend.NetworkError? ==> r == Failure(backend.thrown)
  {
    match backend
    case NetworkError(e) => Failure(e)
    case Reply(status, text, content) =>
      if !IsOk(status) then Failure(Thrown("Error", UpstreamMessage(status, text)))
      else if !Present(content) then Failure(Thrown("Error", "Empty response from AI"))
      else
        match parse(CleanReport(content.value))
        case SyntaxError(m) => Failure(Thrown("Error", "Failed to parse AI response: " + m))
        case Parsed(v) => Backfill(v, sessionId)
  }

  /** The three checks, in order, that must pass before the backend is
    * called. */
  predicate Validated(req: RequestBody, env: Env) {
    && req.Body?
    && Present(req.request.sessionId)
    && req.request.messages.Some? && |req.request.messages.value| > 0
    && Present(env.apiKey)
  }

  /** The whole handler. The backend is called exactly when the three checks
    * pass; a report is stored exactly when the answer is 200, and the
    * answer's body is then the stored report, under the request's session
    * id and with the request's messages. */
  function Generate(req: RequestBody, env: Env, backend: BackendReply, parse: string -> ParseResult): (o: Outcome)
    ensures o.prompt.Some? <==> Validated(req, env)
    ensures o.write.Some? <==> o.response.status == 200
    ensures o.write.Some? ==>
      && o.prompt.Some?
      && o.response.body == o.write.value.report
      && req.request.sessionId == Some(o.write.value.sessionId)
      && req.request.messages == Some(o.write.value.conversation)
    ensures o.response.status in {200, 400, 500}
    ensures req.Unreadable? ==> o == Outcome(Failed(req.thrown), None, None)
  {
    match req
    case Unreadable(e) => Outcome(Failed(e), None, None)
    case Body(r) =>
      if !Present(r.sessionId) then Outcome(MissingSessionId, None, None)
      else if r.messages.None? || |r.messages.value| == 0 then Outcome(NoConversation, None, None)
      else if !Present(env.apiKey) then Outcome(MissingApiKey, None, None)
      else
        var sessionId := r.sessionId.value;
        var prompt := UserPayload(r.specialist, env.now, sessionId, Conversation(r.messages.value));
        match Synthesize(sessionId, backend, parse)
        case Failure(e) => Outcome(Failed(e), Some(prompt), None)
        case Success(report) =>
          Outcome(Response(200, report), Some(prompt), Some(ReportWrite(sessionId, report, r.messages.value)))
  }

  // ---------------------------------------------------------------------
  // Properties of the handler
  // ---------------------------------------------------------------------

  /** A falsy session id is answered 400 before anything else is looked at:
    * whatever the messages, the key and the backend. */
  lemma SessionIdCheckedFirst(r: Request, env: Env, backend: BackendReply, parse: string -> ParseResult)
    requires !Present(r.sessionId)
    ensures Generate(Body(r), env, backend, parse) == Outcome(MissingSessionId, None, None)
  {
  }

  /** With a session id, a missing or empty message list is answered 400
    * whatever the key and the backend. */
  lemma MessagesCheckedSecond(r: Request, env: Env, backend: BackendReply, parse: string -> ParseResult)
    requires Present(r.sessionId)
    requires r.messages.None? || r.messages.value == []
    ensures Generate(Body(r), env, backend, parse) == Outcome(NoConversation, None, None)
  {
  }

  /** With a session id and messages, a missing key is answered 500 and the
    * backend is not called. */
  lemma ApiKeyCheckedThird(r: Request, env: Env, backend: BackendReply, parse: string -> ParseResult)
    requires Present(r.sessionId) && r.messages.Some? && r.messages.value != []
    requires !Present(env.apiKey)
    ensures Generate(Body(r), env, backend, parse) == Outcome(MissingApiKey, None, None)
  {
  }

  /** Once validated, the prompt sent names the specialist, the date, the
    * session and the rendered conversation. */
  lemma PromptSent(r: Request, env: Env, backend: BackendReply, parse: string -> ParseResult)
    requires Validated(Body(r), env)
    ensures Generate(Body(r), env, backend, parse).prompt
         == Some(UserPayload(r.specialist, env.now, r.sessionId.value, Conversation(r.messages.value)))
  {
  }

  /** A non-2xx backend answer becomes a 500 whose details are
    * "API returned <status>: " and at most 200 characters of the body. */
  lemma UpstreamErrorDetails(r: Request, env: Env, status: nat, text: string, content: Option<string>,
                             parse: string -> ParseResult)
    requires Validated(Body(r), env) && !IsOk(status)
    ensures var o := Generate(Body(r), env, Reply(status, text, content), parse);
      && o.response.status == 500
      && o.response.body.fields["details"].s
         == "API returned " + DecimalString(status) + ": " + text[..if |text| < 200 then |text| else 200]
      && o.response == Failed(Thrown("Error", UpstreamMessage(status, text)))
      && o.write.None?
  {
  }

  /** A 2xx answer without completion text becomes a 500. */
  lemma EmptyReplyFails(r: Request, env: Env, status: nat, text: string, content: Option<string>,
                        parse: string -> ParseResult)
    requires Validated(Body(r), env) && IsOk(status) && !Present(content)
    ensures Generate(Body(r), env, Reply(status, text, content), parse).response
         == Failed(Thrown("Error", "Empty response from AI"))
  {
  }

  /** Once validated, the answer and the write follow the backend step
    * alone: a failure becomes `Failed` and writes nothing, a report is
    * answered 200 and written under the session id with the messages. */
  lemma AnswerFollowsSynthesis(r: Request, env: Env, backend: BackendReply, parse: string -> ParseResult)
    requires Validated(Body(r), env)
    ensures var o := Generate(Body(r), env, backend, parse);
      match Synthesize(r.sessionId.value, backend, parse)
      case Failure(e) => o.response == Failed(e) && o.write.None?
      case Success(v) =>
        o.response == Response(200, v) && o.write == Some(ReportWrite(r.sessionId.value, v, r.messages.value))
  {
  }

  /** Text that does not parse after cleaning becomes a 500 carrying the
    * parser's message. */
  lemma ParseErrorFails(r: Request, env: Env, status: nat, text: string, reply: string,
                        parse: string -> ParseResult)
    requires Validated(Body(r), env) && IsOk(status) && reply != ""
    requires parse(CleanReport(reply)).SyntaxError?
    ensures Generate(Body(r), env, Reply(status, text, Some(reply)), parse).response
         == Failed(Thrown("Error", "Failed to parse AI response: " + parse(CleanReport(reply)).message))
  {
    SynthesizeParseError(r.sessionId.value, status, text, reply, parse);
    AnswerFollowsSynthesis(r, env, Reply(status, text, Some(reply)), parse);
  }

  /** A 2xx answer whose cleaned completion text does not parse fails with
    * the parser's message. */
  lemma SynthesizeParseError(sessionId: string, status: nat, text: string, reply: string,
                             parse: string -> ParseResult)
    requires IsOk(status) && reply != ""
    requires parse(CleanReport(reply)).SyntaxError?
    ensures Synthesize(sessionId, Reply(status, text, Some(reply)), parse)
         == Failure(Thrown("Error", "Failed to parse AI response: " + parse(CleanReport(reply)).message))
  {
  }

  /** Whitespace-only completion text passes the emptiness check, cleans to
    * "" and fails as a parse error, since `JSON.parse("")` throws. */
  lemma WhitespaceReplyFailsParse(r: Request, env: Env, status: nat, text: string, reply: string,
                                  parse: string -> ParseResult)
    requires Validated(Body(r), env) && IsOk(status)
    requires reply != "" && AllWhitespace(reply)
    requires parse("").SyntaxError?
    ensures Generate(Body(r), env, Reply(status, text, Some(reply)), parse).response
         == Failed(Thrown("Error", "Failed to parse AI response: " + parse("").message))
  {
    CleanWhitespace(reply);
    ParseErrorFails(r, env, status, text, reply, parse);
  }

  /** A 2xx answer whose completion text is accepted is the parsed
    * cleaned text with its session id backfilled. */
  lemma SynthesizeParsed(sessionId: string, status: nat, text: string, reply: string,
                         parse: string -> ParseResult, v: Json)
    requires IsOk(status) && reply != ""
    requires parse(CleanReport(reply)) == Parsed(v)
    ensures Synthesize(sessionId, Reply(status, text, Some(reply)), parse) == Backfill(v, sessionId)
  {
    assert Present(Some(reply));
  }

  /** A fenced JSON object reply succeeds with the parsed object, its
    * session id filled in when it lacked one, and that object is stored. */
  lemma FencedReportSucceeds(r: Request, env: Env, status: nat, text: string, w2: string, body: string, w3: string,
                             fields: map<string, Json>, parse: string -> ParseResult)
    requires Validated(Body(r), env) && IsOk(status)
    requires AllWhitespace(w2) && AllWhitespace(w3) && '`' !in body && Trimmed(body)
    requires parse(body) == Parsed(JObject(fields))
    requires "sessionId" !in fields
    ensures var o := Generate(Body(r), env, Reply(status, text, Some("```json" + w2 + body + w3 + "```")), parse);
      && o.response == Response(200, JObject(fields["sessionId" := JString(r.sessionId.value)]))
      && o.write == Some(ReportWrite(r.sessionId.value, o.response.body, r.messages.value))
  {
    var reply := "```json" + w2 + body + w3 + "```";
    FencedReplySynthesized(r.sessionId.value, status, text, w2, body, w3, fields, parse);
    AnswerFollowsSynthesis(r, env, Reply(status, text, Some(reply)), parse);
  }

  /** The synthesis step of the above: the fenced reply is cleaned to the
    * body, parsed, and given the session id it lacked. */
  lemma FencedReplySynthesized(sessionId: string, status: nat, text: string, w2: string, body: string, w3: string,
                               fields: map<string, Json>, parse: string -> ParseResult)
    requires IsOk(status)
    requires AllWhitespace(w2) && AllWhitespace(w3) && '`' !in body && Trimmed(body)
    requires parse(body) == Parsed(JObject(fields))
    requires "sessionId" !in fields
    ensures Synthesize(sessionId, Reply(status, text, Some("```json" + w2 + body + w3 + "```")), parse)
         == Success(JObject(fields["sessionId" := JString(sessionId)]))
  {
    var reply := "```json" + w2 + body + w3 + "```";
    CleanFencedReply(w2, body, w3);
    SynthesizeParsed(sessionId, status, text, reply, parse, JObject(fields));
  }

  // ---------------------------------------------------------------------
  // The session table and the handler as it runs
  // ---------------------------------------------------------------------

  /** The columns of a session row that this handler touches, and its notes. */
  datatype SessionRecord = SessionRecord(notes: string, report: Option<Json>, conversation: Option<seq<Message>>)

  /** The rows after a successful update: the row with the write's session id,
    * if there is one, gets the report and the conversation; nothing else
    * changes, and no row is added. */
  function AfterWrite(rows: map<string, SessionRecord>, w: ReportWrite): (r: map<string, SessionRecord>)
    ensures r.Keys == rows.Keys
    ensures forall k :: k in rows && k != w.sessionId ==> r[k] == rows[k]
    ensures w.sessionId in rows ==>
      && r[w.sessionId].notes == rows[w.sessionId].notes
      && r[w.sessionId].report == Some(w.report)
      && r[w.sessionId].conversation == Some(w.conversation)
  {
    if w.sessionId in rows
    then rows[w.sessionId := rows[w.sessionId].(report := Some(w.report), conversation := Some(w.conversation))]
    else rows
  }

  /** The rows after the handler ran: updated when it issued a write and the
    * database accepted it, unchanged otherwise. */
  function Persisted(rows: map<string, SessionRecord>, write: Option<ReportWrite>, dbSucceeds: bool): (r: map<string, SessionRecord>)
    ensures r.Keys == rows.Keys
    ensures write.None? || !dbSucceeds ==> r == rows
    ensures write.Some? && dbSucceeds ==> r == AfterWrite(rows, write.value)
  {
    if write.Some? && dbSucceeds then AfterWrite(rows, write.value) else rows
  }

  /** The `SessionChatTable` rows, keyed by session id. */
  class SessionTable {
    var rows: map<string, SessionRecord>

    constructor (initial: map<string, SessionRecord>)
      ensures rows == initial
    {
      rows := initial;
    }

    /** `db.update(SessionChatTable).set({ report, conversation })
      * .where(eq(sessionId, ...))`; `succeeds` is whether the database
      * accepts it, and a failed update changes nothing. */
    method UpdateReport(w: ReportWrite, succeeds: bool) returns (ok: bool)
      modifies this
      ensures ok == succeeds
      ensures rows == if succeeds then AfterWrite(old(rows), w) else old(rows)
    {
      if succeeds {
        rows := AfterWrite(rows, w);
      }
      ok := succeeds;
    }
  }

  /** The handler step by step, with its early returns and the database
    * update whose failure it swallows: the answer is the one `Generate`
    * gives whether or not the update succeeds, and the table changes only
    * by that update. */
  method Post(table: SessionTable, req: RequestBody, env: Env, backend: BackendReply,
              parse: string -> ParseResult, dbSucceeds: bool) returns (resp: Response)
    modifies table
    ensures resp == Generate(req, env, backend, parse).response
    ensures table.rows == Persisted(old(table.rows), Generate(req, env, backend, parse).write, dbSucceeds)
  {
    if req.Unreadable? {
      return Failed(req.thrown);
    }
    var sessionId, messages := req.request.sessionId, req.request.messages;
    if !Present(sessionId) {
      return MissingSessionId;
    }
    if messages.None? || |messages.value| == 0 {
      return NoConversation;
    }
    if !Present(env.apiKey) {
      return MissingApiKey;
    }
    var result := Synthesize(sessionId.value, backend, parse);
    if result.Failure? {
      return Failed(result.error);
    }
    var report := result.value;
    var _ := table.UpdateReport(ReportWrite(sessionId.value, report, messages.value), dbSucceeds);
    resp := Response(200, report);
  }
}
