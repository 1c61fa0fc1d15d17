/** The transition table, one state at a time: what each message does to the
    session, what the reply looks like, and whether the collaborator is asked. */
module DialogueTransitions {
  import opened SessionData
  import opened Dialogue
  import opened Text

  /** The generic fall-through: an error reply, no state key, nothing changed, no request. */
  predicate IsUnmatched(s: Session, r: StepResult) {
    r.session == s && r.request.None?
    && r.outcome == Reply(Response(GenericErrorMessage, [], None, None, false, true))
  }

  function ButtonValues(bs: seq<Button>): seq<string> {
    seq(|bs|, i requires 0 <= i < |bs| => bs[i].value)
  }

  /** START: any message opens the two-option menu and changes nothing but the state. */
  lemma StartOpensMenu(s: Session, msg: string, f: FormValues, gen: Oracle)
    requires s.state == Start
    ensures var r := Step(s, msg, f, gen);
      r.session == s.(state := InputMethodSelection) && r.request.None?
      && r.outcome.Reply? && !r.outcome.response.error
      && ButtonValues(r.outcome.response.buttons) == ["form_input", "long_text_input"]
      && r.outcome.response.state == Some(InputMethodSelection)
  {
  }

  /** INPUT_METHOD_SELECTION: the two button values pick the input path, anything else falls through. */
  lemma MethodSelection(s: Session, msg: string, f: FormValues, gen: Oracle)
    requires s.state == InputMethodSelection
    ensures var r := Step(s, msg, f, gen);
      && r.request.None?
      && (msg == "form_input" ==>
            r.session == s.(state := FormInput)
            && r.outcome == Reply(Say(FormPromptMessage, [], Some(ResumeFieldsForm), FormInput)))
      && (msg == "long_text_input" ==>
            r.session == s.(state := LongTextInput)
            && r.outcome == Reply(Say(LongTextPromptMessage, [], Some(LongTextForm), LongTextInput)))
      && (msg != "form_input" && msg != "long_text_input" ==> IsUnmatched(s, r))
  {
  }

  /** FORM_INPUT advances exactly when all three fields are truthy. */
  lemma FormInputAdvancesIff(s: Session, msg: string, f: FormValues, gen: Oracle)
    requires s.state == FormInput
    ensures var r := Step(s, msg, f, gen);
      r.session.state == ConcernInput <==> Truthy(f.career) && Truthy(f.jobDuties) && Truthy(f.techSkills)
  {
  }

  /** Accepted fields are stored verbatim and each is echoed in the reply,
      which ends with the concern question. */
  lemma FormInputAccepts(s: Session, msg: string, f: FormValues, gen: Oracle)
    requires s.state == FormInput
    requires Truthy(f.career) && Truthy(f.jobDuties) && Truthy(f.techSkills)
    ensures var r := Step(s, msg, f, gen);
      && r.session == s.(career := f.career, jobDuties := f.jobDuties, techSkills := f.techSkills,
                         state := ConcernInput)
      && r.request.None? && r.outcome.Reply?
      && Contains(r.outcome.response.message, f.career.value)
      && Contains(r.outcome.response.message, f.jobDuties.value)
      && Contains(r.outcome.response.message, f.techSkills.value)
      && EndsWith(r.outcome.response.message, ConcernQuestion)
  {
    AcknowledgementEchoesFields(f.career.value, f.jobDuties.value, f.techSkills.value);
  }

  /** The acknowledgement contains each field and ends with the concern question. */
  lemma AcknowledgementEchoesFields(c: string, d: string, t: string)
    ensures var m := FormAcknowledgement(c, d, t);
      Contains(m, c) && Contains(m, d) && Contains(m, t) && EndsWith(m, ConcernQuestion)
  {
    var a0 := "이력서 정보를 잘 받았습니다!\n경력: ";
    var a1 := a0 + c;
    var a2 := a1 + "\n수행 직무: ";
    var a3 := a2 + d;
    var a4 := a3 + "\n보유 기술: ";
    var a5 := a4 + t;
    var a6 := a5 + "\n\n";
    assert FormAcknowledgement(c, d, t) == a6 + ConcernQuestion;
    ContainsRight(a0, c);
    ContainsExtended(a1, c, "\n수행 직무: ");
    ContainsExtended(a2, c, d);
    ContainsExtended(a3, c, "\n보유 기술: ");
    ContainsExtended(a4, c, t);
    ContainsExtended(a5, c, "\n\n");
    ContainsExtended(a6, c, ConcernQuestion);
    ContainsRight(a2, d);
    ContainsExtended(a3, d, "\n보유 기술: ");
    ContainsExtended(a4, d, t);
    ContainsExtended(a5, d, "\n\n");
    ContainsExtended(a6, d, ConcernQuestion);
    ContainsRight(a4, t);
    ContainsExtended(a5, t, "\n\n");
    ContainsExtended(a6, t, ConcernQuestion);
    EndsWithAppended(a6, ConcernQuestion);
  }

  /** Missing or empty fields give a validation error and leave the session,
      its state included, untouched. */
  lemma FormInputRejects(s: Session, msg: string, f: FormValues, gen: Oracle)
    requires s.state == FormInput
    requires !(Truthy(f.career) && Truthy(f.jobDuties) && Truthy(f.techSkills))
    ensures var r := Step(s, msg, f, gen);
      r.session == s && r.request.None?
      && r.outcome == Reply(Response(MissingFieldsMessage, [], None, None, false, true))
  {
  }

  /** LONG_TEXT_INPUT with text: one summarisation request; on success the
      text and its summary are stored and the summary is shown for confirmation. */
  lemma LongTextSummarised(s: Session, msg: string, f: FormValues, gen: Oracle)
    requires s.state == LongTextInput && Truthy(f.longText)
    requires gen(SummarizeResume(f.longText.value)).Generated?
    ensures var r := Step(s, msg, f, gen);
      var text := gen(SummarizeResume(f.longText.value)).text;
      && r.request == Some(SummarizeResume(f.longText.value))
      && r.session == s.(longText := f.longText, summary := Some(text), state := SummaryConfirmation)
      && r.outcome == Reply(Say(text, SummaryButtons, None, SummaryConfirmation))
  {
  }

  /** A failed summarisation keeps the state and the old summary but has
      already stored the new text. */
  lemma LongTextGenerationFails(s: Session, msg: string, f: FormValues, gen: Oracle)
    requires s.state == LongTextInput && Truthy(f.longText)
    requires gen(SummarizeResume(f.longText.value)).Unavailable?
    ensures var r := Step(s, msg, f, gen);
      r.outcome.GenerationFailed? && r.session.state == LongTextInput
      && r.session.summary == s.summary && r.session == s.(longText := f.longText)
  {
  }

  /** A failed summarisation is safe to retry: the same input from the
      resulting session, once the collaborator answers, gives the same
      session as a first-time success. */
  lemma LongTextRetryAfterFailure(s: Session, msg: string, f: FormValues, down: Oracle, up: Oracle)
    requires s.state == LongTextInput && Truthy(f.longText)
    requires down(SummarizeResume(f.longText.value)).Unavailable?
    requires up(SummarizeResume(f.longText.value)).Generated?
    ensures Step(Step(s, msg, f, down).session, msg, f, up) == Step(s, msg, f, up)
  {
  }

  /** An empty or missing text gives a validation error and changes nothing. */
  lemma LongTextMissing(s: Session, msg: string, f: FormValues, gen: Oracle)
    requires s.state == LongTextInput && !Truthy(f.longText)
    ensures var r := Step(s, msg, f, gen);
      r.session == s && r.request.None?
      && r.outcome == Reply(Response(MissingTextMessage, [], None, None, false, true))
  {
  }

  /** SUMMARY_CONFIRMATION: an affirmative message moves on to the concern,
      anything else reopens the free-text form pre-filled with the stored
      text; neither asks the collaborator. */
  lemma SummaryConfirmationBranches(s: Session, msg: string, f: FormValues, gen: Oracle)
    requires s.state == SummaryConfirmation
    ensures var r := Step(s, msg, f, gen);
      && r.request.None?
      && (r.session.state == ConcernInput <==> Affirmative(msg))
      && (Affirmative(msg) ==>
            r.session == s.(state := ConcernInput)
            && r.outcome == Reply(Say(ConcernQuestion, [], None, ConcernInput)))
      && (!Affirmative(msg) ==>
            r.session == s.(state := LongTextInput)
            && r.outcome.Reply? && r.outcome.response.form == Some(LongTextRetryForm(s.longText)))
  {
  }

  /** The two example replies: "맞아" confirms, "아니" does not. */
  lemma SummaryConfirmationExamples(s: Session, f: FormValues, gen: Oracle)
    requires s.state == SummaryConfirmation
    ensures Step(s, "맞아", f, gen).session.state == ConcernInput
    ensures Step(s, "아니", f, gen).session.state == LongTextInput
    ensures Step(s, "confirm_no", f, gen).session.state == LongTextInput
  {
    assert '맞' in "맞아";
    assert !Affirmative("아니");
    assert !Affirmative("confirm_no");
  }

  /** CONCERN_INPUT: the message becomes the concern and the state moves on
      before the one question request is made, so both survive its failure;
      on success the questions are followed by the fixed closing phrase. */
  lemma ConcernAsksQuestions(s: Session, msg: string, f: FormValues, gen: Oracle)
    requires s.state == ConcernInput
    ensures var r := Step(s, msg, f, gen);
      && r.session == s.(concern := Some(msg), state := QuestionsGenerated)
      && r.request == Some(GenerateQuestions(ResumeContextOf(s), Some(msg)))
      && (r.outcome.Reply? ==>
            var text := gen(r.request.value).text;
            && r.outcome.response.buttons == QuestionButtons
            && EndsWith(r.outcome.response.message, QuestionsSuffix)
            && r.outcome.response.message == text + QuestionsSuffix)
  {
    var r := Step(s, msg, f, gen);
    if r.outcome.Reply? {
      EndsWithAppended(gen(r.request.value).text, QuestionsSuffix);
    }
  }

  /** A failed question request does not roll back: the session is already
      in QUESTIONS_GENERATED, so resending the same concern (unless it happens
      to be a question button value) falls through to the generic error and
      asks nothing. */
  lemma ConcernRetryAfterFailureFallsThrough(s: Session, msg: string, f: FormValues, down: Oracle, gen: Oracle)
    requires s.state == ConcernInput
    requires down(GenerateQuestions(ResumeContextOf(s), Some(msg))).Unavailable?
    requires msg != "questions_yes" && msg != "questions_no"
    ensures var failed := Step(s, msg, f, down);
      failed.outcome.GenerationFailed? && failed.session.state == QuestionsGenerated
      && IsUnmatched(failed.session, Step(failed.session, msg, f, gen))
  {
  }

  /** QUESTIONS_GENERATED, "questions_yes": the state moves to LEARNING_PATH
      before the learning-path request; on success the final reply is the
      fixed header followed by the generated text. */
  lemma QuestionsAccepted(s: Session, f: FormValues, gen: Oracle)
    requires s.state == QuestionsGenerated
    ensures var r := Step(s, "questions_yes", f, gen);
      && r.session == s.(state := LearningPath)
      && r.request == Some(RecommendLearningPath(ResumeContextOf(s), s.concern))
      && (r.outcome.Reply? ==>
            var text := gen(r.request.value).text;
            && r.outcome.response.final && !r.outcome.response.error
            && r.outcome.response.state == Some(LearningPath)
            && StartsWith(r.outcome.response.message, LearningPathHeader)
            && r.outcome.response.message[|LearningPathHeader|..] == text)
  {
    var r := Step(s, "questions_yes", f, gen);
    if r.outcome.Reply? {
      StartsWithPrepended(LearningPathHeader, gen(r.request.value).text);
    }
  }

  /** A failed learning-path request leaves the session in LEARNING_PATH, from
      which no message leads anywhere. */
  lemma LearningPathFailureStrands(s: Session, f: FormValues, down: Oracle, msg: string, gen: Oracle)
    requires s.state == QuestionsGenerated
    requires down(RecommendLearningPath(ResumeContextOf(s), s.concern)).Unavailable?
    ensures var failed := Step(s, "questions_yes", f, down);
      failed.outcome.GenerationFailed? && failed.session.state == LearningPath
      && IsUnmatched(failed.session, Step(failed.session, msg, f, gen))
  {
  }

  /** QUESTIONS_GENERATED, "questions_no": one request for a new question set
      from the same resume context, without the concern; the session is unchanged. */
  lemma QuestionsRejected(s: Session, f: FormValues, gen: Oracle)
    requires s.state == QuestionsGenerated
    ensures var r := Step(s, "questions_no", f, gen);
      && r.session == s
      && r.request == Some(RegenerateQuestions(ResumeContextOf(s)))
      && (r.outcome.Reply? ==>
            var text := gen(r.request.value).text;
            && r.outcome.response.buttons == QuestionButtons
            && r.outcome.response.state == Some(QuestionsGenerated)
            && EndsWith(r.outcome.response.message, QuestionsSuffix)
            && r.outcome.response.message == text + QuestionsSuffix)
  {
    var r := Step(s, "questions_no", f, gen);
    if r.outcome.Reply? {
      EndsWithAppended(gen(r.request.value).text, QuestionsSuffix);
    }
  }

  /** A failed regeneration writes nothing, so resending "questions_no" once
      the collaborator answers gives the same result as a first-time success. */
  lemma RegenerationRetryAfterFailure(s: Session, f: FormValues, down: Oracle, up: Oracle)
    requires s.state == QuestionsGenerated
    requires down(RegenerateQuestions(ResumeContextOf(s))).Unavailable?
    ensures Step(s, "questions_no", f, down).session == s
    ensures Step(Step(s, "questions_no", f, down).session, "questions_no", f, up)
            == Step(s, "questions_no", f, up)
  {
  }

  /** QUESTIONS_GENERATED, any other message: the generic fall-through. */
  lemma QuestionsOther(s: Session, msg: string, f: FormValues, gen: Oracle)
    requires s.state == QuestionsGenerated
    requires msg != "questions_yes" && msg != "questions_no"
    ensures IsUnmatched(s, Step(s, msg, f, gen))
  {
  }

  /** LEARNING_PATH (and the never-entered QUESTIONS_CONFIRMATION) has no
      outgoing branch: every message falls through. */
  lemma LearningPathIsStuck(s: Session, msg: string, f: FormValues, gen: Oracle)
    requires s.state == LearningPath || s.state == QuestionsConfirmation
    ensures IsUnmatched(s, Step(s, msg, f, gen))
  {
  }
}
