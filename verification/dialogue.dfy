/** One turn of the interview-intake dialogue: given the session, the user's
    message and the optional form fields, decide the next session, the reply
    and the (at most one) request to the text-generation collaborator.

    The collaborator is an oracle passed in per turn: it maps a structured
    prompt to generated text or to a failure. The session data written before
    the call survives a failure, exactly as the in-place writes of the handler
    survive the exception that the failing call raises. */
module Dialogue {
  import opened SessionData

  /** The optional form fields posted with a message (`None` when omitted). */
  datatype FormValues = FormValues(
    career: Option<string>,
    jobDuties: Option<string>,
    techSkills: Option<string>,
    longText: Option<string>)

  /** The resume information a prompt is built from: either the three form
      fields or the generated summary. The summary arm keeps `None`, which the
      handler would format into its prompt as is. */
  datatype ResumeContext =
    | FromForm(career: string, jobDuties: Option<string>, techSkills: Option<string>)
    | FromSummary(summary: Option<string>)

  /** The four generation requests, by the data each prompt carries. */
  datatype Prompt =
    | SummarizeResume(longText: string)
    | GenerateQuestions(resume: ResumeContext, concern: Option<string>)
    | RegenerateQuestions(resume: ResumeContext)
    | RecommendLearningPath(resume: ResumeContext, concern: Option<string>)

  datatype GenResult = Generated(text: string) | Unavailable

  /** The generation collaborator, seen from one turn. */
  type Oracle = Prompt -> GenResult

  datatype Button = Button(text: string, value: string)

  /** The form descriptors a reply can carry; labels and advertised lengths are not modelled. */
  datatype Form =
    | ResumeFieldsForm
    | LongTextForm
    | LongTextRetryForm(previous: Option<string>)

  /** A reply. `state` is `None` when the reply has no state key; an empty
      `buttons` means the reply has no buttons key. */
  datatype Response = Response(
    message: string,
    buttons: seq<Button>,
    form: Option<Form>,
    state: Option<UserState>,
    final: bool,
    error: bool)

  /** A reply, or the failure of the generation call propagating out of the handler. */
  datatype Outcome = Reply(response: Response) | GenerationFailed

  datatype StepResult = StepResult(session: Session, outcome: Outcome, request: Option<Prompt>)

  const Greeting := "안녕하세요! 면접 준비를 도와드릴게요. 먼저 이력서 정보를 입력해주세요."
  const FormPromptMessage := "폼을 통해 이력서 정보를 입력해주세요."
  const LongTextPromptMessage := "경력, 수행 업무, 기술 스킬 등에 대해 자유롭게 설명해주세요."
  const ConcernQuestion := "이력서 정보 중 면접에서 어떤 부분과 관련한 질문이 나올까봐 제일 걱정되시나요?"
  const MissingFieldsMessage := "모든 필드를 입력해주세요."
  const MissingTextMessage := "설명을 입력해주세요."
  const RetryMessage := "다시 설명해주세요. 이전 내용을 수정하거나 추가해서 작성하실 수 있습니다."
  const QuestionsSuffix := "\n\n질문 5개가 마음에 드셨나요?"
  const LearningPathHeader := "🎯 **개인 맞춤 학습 경로 추천**\n\n"
  const GenericErrorMessage := "죄송합니다. 처리할 수 없는 요청입니다."

  const MethodButtons := [
    Button("폼 입력으로 간단하게 이력서 정보를 넣을래.", "form_input"),
    Button("설명을 나열할테니 이력서 핵심 정보로 요약해줘.", "long_text_input")]
  const SummaryButtons := [
    Button("맞아", "confirm_yes"),
    Button("틀렸어", "confirm_no"),
    Button("추가하고 싶은 부분이 있어", "confirm_no")]
  const QuestionButtons := [
    Button("예", "questions_yes"),
    Button("아니오", "questions_no")]

  /** The acknowledgement of accepted form fields, echoing each of them. */
  function FormAcknowledgement(career: string, jobDuties: string, techSkills: string): string {
    "이력서 정보를 잘 받았습니다!\n경력: " + career + "\n수행 직무: " + jobDuties
      + "\n보유 기술: " + techSkills + "\n\n" + ConcernQuestion
  }

  /** The confirmation policy at SUMMARY_CONFIRMATION: the button value, or a
      message containing one of the affirmative syllables 맞, 좋, 잘. */
  predicate Affirmative(msg: string) {
    msg == "confirm_yes" || '맞' in msg || '좋' in msg || '잘' in msg
  }

  /** The resume context, built the same way at all three sites that need it:
      the form fields when `career` is truthy, the summary otherwise. */
  function ResumeContextOf(s: Session): (ctx: ResumeContext)
    ensures ctx.FromForm? <==> Truthy(s.career)
    ensures ctx.FromForm? ==> ctx == FromForm(s.career.value, s.jobDuties, s.techSkills)
    ensures ctx.FromSummary? ==> ctx.summary == s.summary
  {
    if Truthy(s.career) then FromForm(s.career.value, s.jobDuties, s.techSkills)
    else FromSummary(s.summary)
  }

  function Say(msg: string, buttons: seq<Button>, form: Option<Form>, st: UserState): Response {
    Response(msg, buttons, form, Some(st), false, false)
  }

  /** An error reply: no state key, `error: true`. */
  function ErrorReply(msg: string): Response {
    Response(msg, [], None, None, false, true)
  }

  /** The fall-through at the end of the handler, for every unmatched (state, message). */
  function Unmatched(s: Session): StepResult {
    StepResult(s, Reply(ErrorReply(GenericErrorMessage)), None)
  }

  /** The handler of one message, dispatching on the session's state. */
  function Step(s: Session, msg: string, f: FormValues, gen: Oracle): (r: StepResult)
    // questions and learning_path are declared but never written
    ensures r.session.questions == s.questions && r.session.learningPath == s.learningPath
    // QUESTIONS_CONFIRMATION is never entered
    ensures r.session.state == QuestionsConfirmation ==> s.state == QuestionsConfirmation
    // an error reply changes nothing and has no state key
    ensures r.outcome.Reply? && r.outcome.response.error ==>
              r.session == s && r.outcome.response.state.None? && r.request.None?
    // every other reply reports the state the session is now in
    ensures r.outcome.Reply? && !r.outcome.response.error ==>
              r.outcome.response.state == Some(r.session.state)
    // a turn fails exactly when its generation request fails
    ensures r.outcome.GenerationFailed? <==> r.request.Some? && gen(r.request.value).Unavailable?
    // every request after the resume intake carries the resume context of the session it started from
    ensures r.request.Some? && !r.request.value.SummarizeResume? ==>
              r.request.value.resume == ResumeContextOf(s)
    // each field is written only by the state that owns it
    ensures s.state != FormInput ==>
              r.session.career == s.career && r.session.jobDuties == s.jobDuties
              && r.session.techSkills == s.techSkills
    ensures s.state != LongTextInput ==>
              r.session.longText == s.longText && r.session.summary == s.summary
    ensures s.state != ConcernInput ==> r.session.concern == s.concern
  {
    match s.state
    case Start =>
      var s' := s.(state := InputMethodSelection);
      StepResult(s', Reply(Say(Greeting, MethodButtons, None, s'.state)), None)

    case InputMethodSelection =>
      if msg == "form_input" then
        var s' := s.(state := FormInput);
        StepResult(s', Reply(Say(FormPromptMessage, [], Some(ResumeFieldsForm), s'.state)), None)
      else if msg == "long_text_input" then
        var s' := s.(state := LongTextInput);
        StepResult(s', Reply(Say(LongTextPromptMessage, [], Some(LongTextForm), s'.state)), None)
      else
        Unmatched(s)

    case FormInput =>
      if Truthy(f.career) && Truthy(f.jobDuties) && Truthy(f.techSkills) then
        var s' := s.(career := f.career, jobDuties := f.jobDuties, techSkills := f.techSkills,
                     state := ConcernInput);
        var ack := FormAcknowledgement(f.career.value, f.jobDuties.value, f.techSkills.value);
        StepResult(s', Reply(Say(ack, [], None, s'.state)), None)
      else
        StepResult(s, Reply(ErrorReply(MissingFieldsMessage)), None)

    case LongTextInput =>
      if Truthy(f.longText) then
        // long_text is stored before the call, summary and state only after it
        var written := s.(longText := f.longText);
        var p := SummarizeResume(f.longText.value);
        match gen(p) {
          case Unavailable => StepResult(written, GenerationFailed, Some(p))
          case Generated(text) =>
            var s' := written.(summary := Some(text), state := SummaryConfirmation);
            StepResult(s', Reply(Say(text, SummaryButtons, None, s'.state)), Some(p))
        }
      else
        StepResult(s, Reply(ErrorReply(MissingTextMessage)), None)

    case SummaryConfirmation =>
      if Affirmative(msg) then
        var s' := s.(state := ConcernInput);
        StepResult(s', Reply(Say(ConcernQuestion, [], None, s'.state)), None)
      else
        var s' := s.(state := LongTextInput);
        StepResult(s', Reply(Say(RetryMessage, [], Some(LongTextRetryForm(s.longText)), s'.state)), None)

    case ConcernInput =>
      // concern and state are written before the call
      var written := s.(concern := Some(msg), state := QuestionsGenerated);
      var p := GenerateQuestions(ResumeContextOf(written), written.concern);
      match gen(p) {
        case Unavailable => StepResult(written, GenerationFailed, Some(p))
        case Generated(text) =>
          StepResult(written, Reply(Say(text + QuestionsSuffix, QuestionButtons, None, written.state)), Some(p))
      }

    case QuestionsGenerated =>
      if msg == "questions_yes" then
        // the state is written before the call
        var written := s.(state := LearningPath);
        var p := RecommendLearningPath(ResumeContextOf(written), written.concern);
        match gen(p) {
          case Unavailable => StepResult(written, GenerationFailed, Some(p))
          case Generated(text) =>
            var reply := Response(LearningPathHeader + text, [], None, Some(written.state), true, false);
            StepResult(written, Reply(reply), Some(p))
        }
      else if msg == "questions_no" then
        var p := RegenerateQuestions(ResumeContextOf(s));
        match gen(p) {
          case Unavailable => StepResult(s, GenerationFailed, Some(p))
          case Generated(text) =>
            StepResult(s, Reply(Say(text + QuestionsSuffix, QuestionButtons, None, s.state)), Some(p))
        }
      else
        Unmatched(s)

    case QuestionsConfirmation => Unmatched(s)
    case LearningPath => Unmatched(s)
  }
}
