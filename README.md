# Report and doctor-suggestion endpoints of the AI medical voice agent, in Dafny

This project models the two server routes of the medical voice agent that
turn model output into data:

- `POST /api/medical-report` (`MedicalReport`, in `medical_report.dfy`). It
  checks the request in a fixed order: session id, then messages, then the
  OpenRouter API key. It renders the consultation into a prompt, one line per
  message, and calls the text-generation backend. It strips code fences from
  the reply and parses it as JSON. It fills in a missing or falsy `sessionId`,
  stores the report and conversation on the session row (best effort), and
  answers with the report. A missing session id or conversation is answered
  400, and a missing key 500, each with an error and details. Every error
  thrown inside the `try` becomes a 500 carrying the error's message and
  name. A failed database update is logged and does not change the answer.
- `POST /api/suggest-doctors` (`SuggestDoctors`, in `suggest_doctors.dfy`). It
  puts the user's notes into a prompt, trims the completion text, and removes
  the first "```json" and then the first "```". It answers with whatever
  `JSON.parse` makes of the rest. Anything thrown inside its `try` is sent back
  as the body, with status 200.

Shared parts:

- `JsStrings` (`js_strings.dfy`) models the JavaScript string built-ins the
  routes call: `trim` with the ECMAScript whitespace set, `replace` with a
  string pattern, `replace` with a `/lit\s*/g` pattern, `substring`, `join`
  on a newline, and decimal rendering of a status code. `IndexOf` is the
  search that a string-pattern `replace` performs. `Split` is not called by
  either route; it is the inverse used to state the round trip of `join`.
- `JsValues` (`js_values.dfy`) holds parsed JSON values, JavaScript
  truthiness and responses.
- `Options` (`options.dfy`) holds `Option` and `Result`.

The report route is written two ways:

- `MedicalReport.Generate` is a function from the request, the environment,
  the backend's answer and the parser to the response, the prompt sent and the
  database write issued.
- `MedicalReport.Post` is a method that runs the same steps with early
  returns against a `SessionTable` object whose rows it updates.
  `Post`'s contract ties its answer to `Generate`, whether or not the update
  succeeds. It also says the table changes only by that update.

The network, the clock, `JSON.parse` and the database's success are inputs.

Some behaviour of the code that is easy to miss:

- No required-field check is made on the parsed report.
- The emptiness test comes before cleaning, so whitespace-only text fails as
  a parse error (`WhitespaceReplyFailsParse`).
- Fences are removed wherever they occur, not only at the ends.
- The session id is replaced when it is falsy, not only when it is missing.
- A missing API key is a 500 answered before any call.
- The raw reply is not kept in the error.

## Model

| member | source | states |
|---|---|---|
| MedicalReport.RoleLabel | app/api/medical-report/route.tsx:170 | the label is "Doctor" exactly when the role is "assistant", and "Patient" otherwise |
| MedicalReport.MessageText | app/api/medical-report/route.tsx:171 | the text is empty exactly when both transcript and content are falsy; it is a non-empty transcript when there is one, otherwise the content or "" |
| MedicalReport.EmptyTranscriptFallsBack | app/api/medical-report/route.tsx:171 | an empty transcript gives the same text as a missing one, namely the content |
| MedicalReport.Lines | app/api/medical-report/route.tsx:169-172 | one rendered line per message, in order, each "<role label>: <text>" |
| MedicalReport.ConversationLines | app/api/medical-report/route.tsx:169-173 | splitting the joined conversation at newlines gives back exactly the per-message lines, when no text holds a newline |
| MedicalReport.SpecialistName | app/api/medical-report/route.tsx:175 | the selected doctor's specialist when truthy, else "General Physician"; never empty |
| MedicalReport.Conversation | app/api/medical-report/route.tsx:169-173 | the rendered lines joined by newlines; empty exactly when there are no messages |
| MedicalReport.UserPayload | app/api/medical-report/route.tsx:175-182 | the template literal itself, with no contract of its own; PayloadAsLines and PayloadLines state its line structure |
| MedicalReport.PayloadLines | app/api/medical-report/route.tsx:175-182 | the prompt is the lines "Doctor Specialist: …", "Date: …", "Session: <id>", "", "CONVERSATION:", one line per message and "", joined by newlines and followed by the closing instruction; splitting recovers those lines |
| MedicalReport.PayloadAsLines | app/api/medical-report/route.tsx:175-182 | the template literal equals that line structure joined by newlines, then the instruction |
| MedicalReport.CleanReport | app/api/medical-report/route.tsx:228-231 | the cleaned text has no leading or trailing whitespace and is no longer than the reply; the lemmas below pin down what it removes |
| MedicalReport.CleanReportClean | app/api/medical-report/route.tsx:228-231 | the cleaned text holds no "```" and has no leading or trailing whitespace |
| MedicalReport.NoFenceAfterStrip | app/api/medical-report/route.tsx:230 | the global removal of "```" plus the whitespace after it leaves no "```" |
| MedicalReport.CleanWithoutFence | app/api/medical-report/route.tsx:228-231 | text without "```" is only trimmed |
| MedicalReport.CleanWithoutBacktick | app/api/medical-report/route.tsx:228-231 | a reply without any backtick is only trimmed |
| MedicalReport.CleanIdempotent | app/api/medical-report/route.tsx:228-231 | cleaning a cleaned text changes nothing |
| MedicalReport.CleanWhitespace | app/api/medical-report/route.tsx:228-231 | whitespace-only text cleans to "" |
| MedicalReport.CleanFencedBody | app/api/medical-report/route.tsx:228-231 | whitespace + "```json" + whitespace + body + whitespace + "```" + whitespace cleans to exactly the body, for a trimmed body without backticks |
| MedicalReport.CleanFencedReply | app/api/medical-report/route.tsx:228-231 | the same for a reply with nothing outside the fences |
| MedicalReport.UpstreamMessage | app/api/medical-report/route.tsx:211 | the message is "API returned <status>: " followed by exactly the first min(length, 200) characters of the upstream body |
| MedicalReport.Failed | app/api/medical-report/route.tsx:269-283 | the catch answer has status 500 and exactly the keys error, details and type; error is "Failed to generate report", details the error's message or "Unknown error" when it is empty, type its name or "Error" when it is empty |
| MedicalReport.PrimitiveTypeError | app/api/medical-report/route.tsx:246-249 | the error raised on a parsed value that is not an object is a TypeError |
| MedicalReport.Synthesize | app/api/medical-report/route.tsx:208-249 | a report comes only from a 2xx answer with non-empty content; a thrown backend step (the rejected fetch, or a throw while reading the answer) is passed on as the failure itself |
| MedicalReport.Validated | app/api/medical-report/route.tsx:140-164 | the three checks before the call, with no contract of its own; Generate and the three CheckedFirst/Second/Third lemmas state its role |
| MedicalReport.Backfill | app/api/medical-report/route.tsx:246-249 | on an object, a truthy sessionId is kept and a falsy or missing one becomes the request's id; every other field is unchanged and no other key appears; an array is unchanged; any other value throws a TypeError |
| MedicalReport.SynthesizeParsed | app/api/medical-report/route.tsx:214-249 | a 2xx answer with non-empty content that parses after cleaning gives the parsed value with its session id backfilled |
| MedicalReport.SynthesizeParseError | app/api/medical-report/route.tsx:235-244 | a 2xx answer with non-empty content that does not parse after cleaning fails with "Failed to parse AI response: " and the parser's message |
| MedicalReport.FencedReplySynthesized | app/api/medical-report/route.tsx:228-249 | a fenced JSON object without a sessionId is cleaned to its body, parsed, and given the request's session id |
| MedicalReport.Generate | app/api/medical-report/route.tsx:128-285 | the backend is called exactly when the three checks pass; a report is written exactly when the status is 200, and the answer is then that report, under the request's session id and with the request's messages; the status is 200, 400 or 500; an unreadable body is answered with the catch answer for its error, with no call and no write |
| MedicalReport.SessionIdCheckedFirst | app/api/medical-report/route.tsx:140-146 | a falsy session id is answered 400 "sessionId required", with no call and no write, whatever else the request holds |
| MedicalReport.MessagesCheckedSecond | app/api/medical-report/route.tsx:148-154 | with a session id, absent or empty messages are answered 400 "No conversation", with no call and no write |
| MedicalReport.ApiKeyCheckedThird | app/api/medical-report/route.tsx:156-164 | with a session id and messages, a missing key is answered 500 "API key not configured", with no call and no write |
| MedicalReport.PromptSent | app/api/medical-report/route.tsx:175-199 | once the checks pass, the prompt sent is the payload for the specialist, date, session id and rendered conversation |
| MedicalReport.UpstreamErrorDetails | app/api/medical-report/route.tsx:208-212 | a non-2xx answer becomes a 500 whose details are "API returned <status>: " and the first 200 characters of the body, and whose type is "Error", with no write |
| MedicalReport.EmptyReplyFails | app/api/medical-report/route.tsx:217-223 | a 2xx answer with missing or empty content becomes a 500 "Empty response from AI" |
| MedicalReport.AnswerFollowsSynthesis | app/api/medical-report/route.tsx:208-283 | once validated, a failing backend step becomes the 500 error answer with no write, and a report becomes a 200 answer with the write of that report |
| MedicalReport.ParseErrorFails | app/api/medical-report/route.tsx:235-244 | cleaned text that does not parse becomes a 500 whose details carry the parser's message |
| MedicalReport.WhitespaceReplyFailsParse | app/api/medical-report/route.tsx:219-244 | whitespace-only content passes the emptiness check, cleans to "" and fails as a parse error |
| MedicalReport.FencedReportSucceeds | app/api/medical-report/route.tsx:228-268 | a fenced JSON object without a sessionId is answered 200 with that object plus the request's session id, and that object is written |
| MedicalReport.AfterWrite | app/api/medical-report/route.tsx:254-259 | the update sets report and conversation on the matching row only, keeps its other columns, and adds or removes no row |
| MedicalReport.Persisted | app/api/medical-report/route.tsx:253-265 | the rows after the handler keep the same session ids; an issued write the database accepts gives AfterWrite's rows, otherwise the rows are unchanged |
| MedicalReport.SessionTable.UpdateReport | app/api/medical-report/route.tsx:253-265 | a successful update leaves the rows as AfterWrite gives them, a failed one leaves them unchanged, and the outcome is reported |
| MedicalReport.Post | app/api/medical-report/route.tsx:128-285 | the answer is Generate's whether or not the database update succeeds; the rows change only by that update, and only when a report was produced |
| JsStrings.Trim | app/api/medical-report/route.tsx:228 | the result has no leading or trailing whitespace and is no longer than the input |
| JsStrings.TrimStartShape | app/api/medical-report/route.tsx:228 | the leading-whitespace removal keeps a suffix of the text, drops only whitespace, and leaves no whitespace at the front |
| JsStrings.TrimEndShape | app/api/medical-report/route.tsx:228 | the trailing-whitespace removal keeps a prefix of the text, drops only whitespace, and leaves no whitespace at the end |
| JsStrings.TrimPadded | app/api/medical-report/route.tsx:228 | trimming whitespace + a trimmed core + whitespace gives exactly the core |
| JsStrings.TrimIdempotent | app/api/medical-report/route.tsx:231 | trimming twice is trimming once |
| JsStrings.TrimKeepsAbsence | app/api/medical-report/route.tsx:231 | trimming cannot create an occurrence of a literal |
| JsValues.Truthy | app/api/medical-report/route.tsx:247 | JavaScript truthiness of a parsed value, with no contract of its own; Backfill's contract states how it decides the sessionId |
| JsStrings.Join | app/api/medical-report/route.tsx:173 | the joined text starts with the first line; SplitJoin states that splitting recovers the lines |
| JsStrings.StripAllWithWhitespace | app/api/medical-report/route.tsx:229-230 | the global removal never lengthens the text; NoFenceAfterStrip and StripAllAbsent state what it removes |
| JsStrings.IndexOf | app/api/suggest-doctors/route.tsx:20 | absent exactly when the literal does not occur; otherwise an occurrence with no earlier one |
| JsStrings.ReplaceFirst | app/api/suggest-doctors/route.tsx:20 | without an occurrence the text is returned unchanged; with one it is shorter by exactly the literal's length |
| JsStrings.ReplaceFirstRoundTrip | app/api/suggest-doctors/route.tsx:20 | putting the literal back where its first occurrence was removed restores the text, which is therefore shorter by the literal's length |
| JsStrings.ReplaceFirstAfter | app/api/suggest-doctors/route.tsx:20 | when the literal starts nowhere before a given copy, that copy is the one removed |
| JsStrings.StripAllAbsent | app/api/medical-report/route.tsx:229-230 | a global removal whose literal never occurs changes nothing |
| JsStrings.Substring0 | app/api/medical-report/route.tsx:211 | the first n characters, or all of a shorter text |
| JsStrings.SplitJoin | app/api/medical-report/route.tsx:173 | splitting at the separator undoes joining with it when no line holds the separator |
| JsStrings.DecimalString | app/api/medical-report/route.tsx:211 | the status renders as decimal digits without a leading zero |
| JsStrings.DecimalRoundTrip | app/api/medical-report/route.tsx:211 | reading the rendered digits back gives the status |
| SuggestDoctors.StripFirstFences | app/api/suggest-doctors/route.tsx:20 | the cleaned text is no longer than the trimmed reply; StripLength gives its exact length |
| SuggestDoctors.StripLength | app/api/suggest-doctors/route.tsx:20 | the output is the trimmed length, less 7 when "```json" occurs, less a further 3 when a "```" remains after that removal |
| SuggestDoctors.PlainReplyOnlyTrimmed | app/api/suggest-doctors/route.tsx:20 | a reply without backticks is only trimmed |
| SuggestDoctors.BareFenceHasNoJsonFence | app/api/suggest-doctors/route.tsx:20 | a bare-fenced body that is backtick-free and does not start with "json" holds no "```json" |
| SuggestDoctors.BareFenceKeepsClosingFence | app/api/suggest-doctors/route.tsx:20 | a reply fenced with bare "```" loses only its opening fence, so the closing fence reaches the parser |
| SuggestDoctors.JsonFenceKeepsInnerWhitespace | app/api/suggest-doctors/route.tsx:20 | a "```json" fence loses both markers but keeps the whitespace inside them |
| SuggestDoctors.FenceCleaningDiffers | app/api/suggest-doctors/route.tsx:20 | on the same fenced reply, the report route's cleaner gives the body and this route gives the body with its inner whitespace |
| SuggestDoctors.SecondJsonFenceSurvives | app/api/suggest-doctors/route.tsx:20 | in a reply with two "```json" blocks, the second keeps its opening marker and its closing fence |
| SuggestDoctors.NotesPrompt | app/api/suggest-doctors/route.tsx:14 | the prompt starts "User Notes/Symptoms:" followed by the notes, or by "undefined" when they are absent, and ends with the request for a JSON list of doctors |
| SuggestDoctors.Suggest | app/api/suggest-doctors/route.tsx:6-26 | an unreadable request body escapes the handler exactly when it occurs; otherwise the notes prompt is sent and the answer has status 200 |
| SuggestDoctors.AnswerBody | app/api/suggest-doctors/route.tsx:18-24 | a call error is the body as it is; after a completion the body is `{}` or the value the parser made of the cleaned content |
| SuggestDoctors.CallErrorReturned | app/api/suggest-doctors/route.tsx:9-24 | an error thrown by the backend call becomes the body of a 200 answer |
| SuggestDoctors.MissingContentAnswersEmptyObject | app/api/suggest-doctors/route.tsx:18-24 | missing message content is answered 200 with `{}` |
| SuggestDoctors.ParseOutcomeAnswered | app/api/suggest-doctors/route.tsx:20-24 | parsed text is answered as parsed; unparsable text is answered `{}`, the same as a reply that parses to an empty object |
| SuggestDoctors.FencedReplyParsedWithWhitespace | app/api/suggest-doctors/route.tsx:20-22 | a "```json"-fenced reply is parsed from the text between the fences, inner whitespace included |

## Left out

- The network calls are inputs (`BackendReply`, `Completion`), not models:
  the OpenRouter `fetch` (medical-report lines 187-204) and the OpenAI client
  call (suggest-doctors lines 9-16). Request headers and the model ids are
  constant configuration, as is `max_tokens`.
- `temperature: 0.3` is a floating-point constant and is not modelled.
- `JSON.parse` is a parameter from text to a parsed value or a SyntaxError
  message. Object key order and number formatting other than JavaScript's
  canonical text are not modelled.
- `JSON.stringify(AIDoctorAgents)` is not modelled: it is the system message,
  a constant list from `shared/list`, and that file is not part of this model.
- `new Date().toISOString()` is the `Env.now` parameter. The prompt text
  `DETAILED_REPORT_PROMPT` is an opaque constant sent as the system message,
  and it is not modelled.
- All `console.log` and `console.error` calls are left out, including the
  ones that print parts of the reply.
- Database access is reduced to the `SessionTable` rows and a success flag.
  The drizzle query builder is left out, and so is `app/api/session-chat/route.tsx`.
- Request bodies are modelled by the fields the handlers read. A readable
  body whose fields are not strings or arrays is not modelled.
- MedicalReport.Request: `messages` is absent or an array of messages. A
  `null` body throws at line 134 of app/api/medical-report/route.tsx and is
  modelled as an unreadable body. Other shapes are not modelled. A falsy
  non-array `messages` (or an object with `length: 0`) is answered 400
  "No conversation" at lines 148-153. A truthy non-array passes every check
  and then throws a TypeError at `messages.map` (line 169). A `null` entry in
  the array throws at `msg.role` (line 170), also after the checks.
- SuggestDoctors.SuggestRequest: `notes` is a string or absent (shown as
  "undefined"). Other JSON values and their `String()` forms are not modelled.
- SuggestDoctors.Completion: a thrown error is given directly as the JSON it
  serializes to. Missing choices, a missing message and non-string content
  are all `Completed(None)`, the TypeError path.
- What escapes the suggest-doctors handler (`Uncaught`) is left to the
  framework; the framework's own error answer is not modelled.
- MedicalReport.Backfill: the parsed value is updated as a value rather than
  in place. On an array the new property is invisible in the JSON answer, so
  the array is returned unchanged. The V8 TypeError message texts are
  modelled only for primitive parse results.
- MedicalReport.Backfill: the session id is stored as a JSON string. The
  model covers only string session ids in the request.
- Strings are sequences of Unicode scalar values. `substring(0, 200)` counts
  UTF-16 code units, which differs only for characters outside the Basic
  Multilingual Plane.
- MedicalReport.PayloadLines: the line structure of the closing instruction
  is not stated. The instruction is a single line, but the statement is kept
  to the prompt up to the instruction.
- JsValues.Truthy: a number is falsy exactly when its text is "0". This
  relies on `parse` giving numbers in JavaScript's canonical `String(n)`
  form, which the model does not enforce; a parser that gave "-0" or "0.0"
  for zero would make Backfill keep a sessionId that JavaScript replaces.
- MedicalReport.SessionTable: the rows are a map keyed by session id, so
  at most one row per session id is modelled. The update's `where` clause
  would set every row whose `sessionId` matches.
