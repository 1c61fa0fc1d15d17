# Interview-intake dialogue: a Dafny model

This project models the core of the job-interview helper chatbot backend
(`main.py`): the dialogue state machine behind the `/help/job-interview`
endpoint and the two in-memory stores around it.

The dialogue collects a user's resume information in one of two ways.
Either the user fills in three form fields (career, job duties, tech skills),
or the user writes free text that the text-generation collaborator summarises.
The dialogue then asks for an interview concern, generates five interview
questions (again on request), and finally recommends a learning path.

- `session_data.dfy` (`SessionData`): the `UserState` enum, the `SessionData`
  record as the immutable `Session`, and Python truthiness of optional strings.
- `dialogue.dfy` (`Dialogue`): one turn as the pure function `Step(session,
  message, form fields, oracle)`. It returns the new session, the reply or a
  generation failure, and the generation request it made, if any.
  - The collaborator (`chain_with_history.invoke`) is an oracle parameter.
    It maps a structured `Prompt` to `Generated(text)` or `Unavailable`.
    Each turn gets its own oracle, so two identical requests in different
    turns may get different text.
  - The prompts are modelled by the data they carry: the long text, or the
    resume context and the concern. The resume context is built by the single
    function `ResumeContextOf`, which all three request sites use.
  - The writes made before a failing call are kept, because the source
    writes in place before the call raises.
- `dialogue_invariants.dfy` (`DialogueInvariants`): the invariant of reachable
  sessions, its preservation over any sequence of turns, and the state graph.
- `dialogue_transitions.dfy` (`DialogueTransitions`): the transition table,
  one state and one branch at a time.
- `session_stores.dfy` (`SessionStores`): the session-data store
  (`map<string, Session>`) and the chat-history store (the set of ids that
  have a history). It also holds the message endpoint, `init_conversation`,
  `remove_conversation` and `get_session_status`.
- `scenario.dfy` (`Scenario`): two end-to-end conversations through the stores.
- `text.dfy` (`Text`): prefix, suffix and substring facts about strings.

## Behaviour of the code worth knowing

Only some generation calls leave the session untouched when they fail:

- The summary call at LONG_TEXT_INPUT (main.py:164) writes `long_text` before
  the call and `summary` and the state only after it (main.py:151, 169-170).
  A failure keeps the state, so resending the same text is safe.
- The regeneration call on `questions_no` (main.py:298) writes nothing.
  A failure leaves the session unchanged, so resending is safe.
- At CONCERN_INPUT the concern and the new state are written before the call
  (main.py:206-207). After a failure the session is already in
  QUESTIONS_GENERATED, so resending the concern falls through to the generic
  error, unless the concern is one of the two question button values:
  `questions_no` then regenerates the questions and `questions_yes` moves on
  to LEARNING_PATH (main.py:245, 281).
- On `questions_yes` the state is written before the call (main.py:246).
  After a failure the session is in LEARNING_PATH, where every message falls
  through.

See `LongTextRetryAfterFailure`, `RegenerationRetryAfterFailure`,
`ConcernRetryAfterFailureFallsThrough` and `LearningPathFailureStrands`.

`has_resume_info` tests truthiness (main.py:343), so a session whose
generated summary is empty reports `false`.

When a turn makes a generation request, the model registers the session id in
the history store. This stands for the history lookup that the generation
library performs through `get_by_session_id` (main.py:78-83).

## Model

| member | source | states |
|---|---|---|
| `Dialogue.Step` | main.py:98-315 | questions and learning_path are never written; QUESTIONS_CONFIRMATION is never entered; an error reply leaves the session unchanged and has no state key; any other reply reports the new state; a turn fails exactly when its generation request fails; every request after the intake carries the resume context of the session; each field is written only in the state that owns it |
| `Dialogue.ResumeContextOf` | main.py:210-213 | the resume context is built from the form fields exactly when career is truthy; the form arm carries career, job duties and tech skills; the summary arm carries the stored summary, `None` included |
| `SessionStores.GetHistory` | main.py:51-54 | after the lookup the id has a history; an id that already had one leaves the stores unchanged; no other id and no session is affected |
| `SessionStores.GetSessionData` | main.py:56-59 | the returned session is the stored one; an unknown id gets a fresh START session, which is stored; known ids and their sessions stay as they were |
| `SessionStores.LookupsIdempotent` | main.py:51-59 | repeating either get-or-create lookup changes nothing more |
| `SessionStores.Handle` | main.py:87-96 | the turn runs on the stored session, or on a fresh START session for an unknown id; the resulting session is stored even when generation fails; the id gains a history exactly when a request is made; no other conversation is touched |
| `SessionStores.HandleUnknownIdStartsFresh` | main.py:96-108 | a message for an unknown id creates a START session and moves it to INPUT_METHOD_SELECTION |
| `SessionStores.InitConversation` | main.py:317-322 | a new id gets a history and a START session; nothing else changes |
| `SessionStores.RemoveConversation` | main.py:324-332 | not-found exactly when the id has no session data; afterwards the id has neither session nor history, also in the not-found case; other ids are untouched |
| `SessionStores.SessionStatus` | main.py:334-344 | not-found exactly when the id has no session data; otherwise the id, its state, and whether career or summary is truthy |
| `SessionStores.RemoveUndoesInit` | main.py:317-332 | removing a conversation just created restores the stores exactly and reports success |
| `SessionStores.RemoveThenUnknown` | main.py:324-344 | after removal the status is not-found and a second removal reports not-found and changes nothing |
| `SessionStores.StatusAfterInit` | main.py:317-344 | a new conversation reports START and no resume information |
| `SessionStores.StoreOperationsPreserveInv` | main.py:87-332 | the message endpoint, creation and removal keep every stored session within the reachable-session invariant |
| `SessionStores.ResumeInfoReflectsIntake` | main.py:336-344 | for a reachable session the status flag is false before a resume path is chosen, true after form input, and after the summary path true exactly when the summary is non-empty |
| `DialogueInvariants.StepPreservesInv` | main.py:98-315 | every turn, successful or failed, keeps the state-by-state invariant of reachable sessions |
| `DialogueInvariants.ExactlyOneResumeSource` | main.py:132-213 | a reachable session is never in QUESTIONS_CONFIRMATION; from CONCERN_INPUT on exactly one of form fields and summary is the resume source; before that no form field is set |
| `DialogueInvariants.ResumeContextNeverMixes` | main.py:209-213 | past the intake, a form resume context comes with all three fields truthy and no summary, and a summary context comes with the summary set and no form field |
| `DialogueInvariants.RequestsNeverMixResumeSources` | main.py:205-301 | every question or learning-path request from a reachable session carries either three truthy form fields (no summary on record) or a set summary (no form field on record) |
| `DialogueInvariants.ConcernWrittenOnce` | main.py:205-207 | once the concern is on record, no turn changes it |
| `DialogueInvariants.RetryFormAlwaysPrefilled` | main.py:194-203 | in a reachable session a rejected summary reopens the free-text form pre-filled with the stored, non-empty long text |
| `DialogueInvariants.ResumeFrozenAfterIntake` | main.py:205-315 | from CONCERN_INPUT on the session stays past the intake and its resume fields, long text and summary never change |
| `DialogueInvariants.StepFollowsEdge` | main.py:98-315 | every turn stays put or moves along one edge of the state graph; LEARNING_PATH has no outgoing edge |
| `DialogueInvariants.EdgeTaken` | main.py:99-310 | every edge that leaves a state is taken by some message, fields and collaborator answer |
| `DialogueInvariants.RunPreservesInv` | main.py:98-315 | the invariant holds after any sequence of turns |
| `DialogueInvariants.ReachableSessionsSatisfyInv` | main.py:24-45 | every session reachable from a fresh one satisfies the invariant and is not in QUESTIONS_CONFIRMATION |
| `DialogueInvariants.RunKeepsResumeAfterIntake` | main.py:205-315 | over any sequence of turns from CONCERN_INPUT on, the state stays past the intake and career, duties, skills and summary are unchanged |
| `DialogueTransitions.StartOpensMenu` | main.py:99-108 | at START any message moves to INPUT_METHOD_SELECTION with the buttons form_input and long_text_input, asks nothing, and changes no other field |
| `DialogueTransitions.MethodSelection` | main.py:110-130 | "form_input" opens the three-field form in FORM_INPUT, "long_text_input" opens the free-text form in LONG_TEXT_INPUT, anything else gives the generic error with the session unchanged |
| `DialogueTransitions.FormInputAdvancesIff` | main.py:132-147 | FORM_INPUT moves to CONCERN_INPUT if and only if career, job duties and tech skills are all truthy |
| `DialogueTransitions.FormInputAccepts` | main.py:133-142 | accepted fields are stored verbatim, no request is made, and the reply contains each field and ends with the concern question |
| `DialogueTransitions.AcknowledgementEchoesFields` | main.py:140 | the acknowledgement contains each of the three fields and ends with the concern question |
| `DialogueTransitions.FormInputRejects` | main.py:143-147 | a missing or empty field gives the validation error with no state key and leaves the session, state included, unchanged |
| `DialogueTransitions.LongTextSummarised` | main.py:149-180 | a truthy long text causes exactly one summarisation request; on success the text and summary are stored and the state is SUMMARY_CONFIRMATION with three confirmation buttons |
| `DialogueTransitions.LongTextGenerationFails` | main.py:150-170 | when summarisation fails the long text is already stored but the state stays LONG_TEXT_INPUT and the summary is unchanged |
| `DialogueTransitions.LongTextRetryAfterFailure` | main.py:149-170 | retrying the same long text after a failed summarisation gives the same result as a first-time success |
| `DialogueTransitions.LongTextMissing` | main.py:181-185 | an empty or missing long text gives the validation error and changes nothing |
| `DialogueTransitions.SummaryConfirmationBranches` | main.py:187-203 | the state becomes CONCERN_INPUT if and only if the message is "confirm_yes" or contains 맞, 좋 or 잘; otherwise LONG_TEXT_INPUT with the form pre-filled from the stored long text; no request either way |
| `DialogueTransitions.SummaryConfirmationExamples` | main.py:188 | "맞아" confirms; "아니" and "confirm_no" return to LONG_TEXT_INPUT |
| `DialogueTransitions.ConcernAsksQuestions` | main.py:205-242 | the message is stored as the concern and the state becomes QUESTIONS_GENERATED even if generation fails; one request carries the session's resume context and the concern; a reply is exactly the generated text followed by the fixed closing question, with the yes/no buttons |
| `DialogueTransitions.ConcernRetryAfterFailureFallsThrough` | main.py:205-242 | after a failed question request the concern and QUESTIONS_GENERATED are on record, and resending the same concern falls through to the generic error unless the concern is `questions_yes` or `questions_no`, which the questions branches take |
| `DialogueTransitions.QuestionsAccepted` | main.py:244-279 | "questions_yes" moves to LEARNING_PATH before one learning-path request with the resume context and concern; a reply is final, not an error, and is the fixed header followed by the generated text |
| `DialogueTransitions.LearningPathFailureStrands` | main.py:244-273 | a failed learning-path request leaves the session in LEARNING_PATH, where every message falls through |
| `DialogueTransitions.QuestionsRejected` | main.py:281-310 | "questions_no" keeps the session unchanged and makes one request with the same resume context and no concern; a reply is exactly the generated text followed by the fixed closing question, in QUESTIONS_GENERATED with the same two buttons |
| `DialogueTransitions.RegenerationRetryAfterFailure` | main.py:281-301 | a failed regeneration leaves the session unchanged, and resending "questions_no" then gives the same result as a first-time success |
| `DialogueTransitions.QuestionsOther` | main.py:244-315 | any other message in QUESTIONS_GENERATED gives the generic error with nothing changed |
| `DialogueTransitions.LearningPathIsStuck` | main.py:312-315 | in LEARNING_PATH (and QUESTIONS_CONFIRMATION) every message gives the generic error, changes nothing and asks nothing |
| `Scenario.FormPathScenario` | main.py:96-279 | the form path from a new conversation reports INPUT_METHOD_SELECTION, FORM_INPUT, CONCERN_INPUT, QUESTIONS_GENERATED twice with different text, then a final LEARNING_PATH reply, with the three form fields and the concern on record |
| `Scenario.SummaryPathScenario` | main.py:149-242 | on the free-text path a failed summary keeps LONG_TEXT_INPUT without summary, the retry and "맞아" reach CONCERN_INPUT, and the question request carries the summary |

## Left out

- FastAPI routing, `Form` parsing, the `HTTPException` mapping and the
  `uvicorn` start-up (main.py:1-16, 85-95, 346-347). Not-found is a result
  variant, and a failed generation call is the `GenerationFailed` outcome.
- The LangChain/OpenAI chain and its configuration (main.py:18-21, 62-83).
  It is the oracle parameter. The contents and order of the message history
  belong to that library and are not modelled; the history store holds only
  which ids have a history.
- The Korean prompt texts (main.py:154-162, 216-228, 255-268, 288-296).
  Each prompt is modelled by the data it interpolates.
- `uuid.uuid4()` in `init_conversation` (main.py:319). The new id is a
  parameter that must be unused in both stores.
- The labels and advertised `maxlength` values of the form descriptors
  (main.py:116-118, 127, 200). The server never enforces them; only the kind
  of form and the pre-filled value are modelled.
- Async execution. The source has no locking, and the model treats each
  request as one atomic turn.
- `InitConversation`: for an id already in a store, get-or-create would
  return the existing records. This case is excluded by the freshness
  requirement that stands for the random UUID.
