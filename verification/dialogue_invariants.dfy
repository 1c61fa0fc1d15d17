/** What every reachable session satisfies, why each turn preserves it, and
    the state graph the dispatch follows. */
module DialogueInvariants {
  import opened SessionData
  import opened Dialogue

  predicate NoFormFields(s: Session) {
    s.career.None? && s.jobDuties.None? && s.techSkills.None?
  }

  /** Resume information arrived through the form: all three fields, no summary. */
  predicate ResumeFromForm(s: Session) {
    Truthy(s.career) && Truthy(s.jobDuties) && Truthy(s.techSkills) && s.summary.None?
  }

  /** Resume information arrived as a generated summary: no form field at all. */
  predicate ResumeFromSummary(s: Session) {
    NoFormFields(s) && s.summary.Some?
  }

  /** CONCERN_INPUT and the states after it. */
  predicate PastIntake(st: UserState) {
    st == ConcernInput || st == QuestionsGenerated || st == LearningPath
  }

  /** The invariant of reachable sessions, state by state. */
  predicate Inv(s: Session) {
    && s.questions == [] && s.learningPath.None?
    && (s.concern.Some? <==> s.state == QuestionsGenerated || s.state == LearningPath)
    && match s.state
       case Start | InputMethodSelection | FormInput =>
         NoFormFields(s) && s.longText.None? && s.summary.None?
       case LongTextInput => NoFormFields(s)
       case SummaryConfirmation => NoFormFields(s) && Truthy(s.longText) && s.summary.Some?
       case ConcernInput | QuestionsGenerated | LearningPath =>
         ResumeFromForm(s) || ResumeFromSummary(s)
       case QuestionsConfirmation => false
  }

  lemma InitialSessionSatisfiesInv()
    ensures Inv(InitialSession())
  {
  }

  /** Every turn, successful or failed, keeps the invariant. */
  lemma StepPreservesInv(s: Session, msg: string, f: FormValues, gen: Oracle)
    requires Inv(s)
    ensures Inv(Step(s, msg, f, gen).session)
  {
  }

  /** From CONCERN_INPUT on, exactly one source of resume information holds,
      and none holds before. */
  lemma ExactlyOneResumeSource(s: Session)
    requires Inv(s)
    ensures s.state != QuestionsConfirmation
    ensures PastIntake(s.state) ==> (ResumeFromForm(s) <==> !ResumeFromSummary(s))
    ensures !PastIntake(s.state) ==> NoFormFields(s)
  {
  }

  /** The resume context of a reachable session past the intake never mixes
      its two sources: form fields come complete and without a summary, a
      summary comes without any form field. */
  lemma ResumeContextNeverMixes(s: Session)
    requires Inv(s) && PastIntake(s.state)
    ensures ResumeContextOf(s).FromForm? ==>
              ResumeFromForm(s)
              && ResumeContextOf(s) == FromForm(s.career.value, s.jobDuties, s.techSkills)
    ensures ResumeContextOf(s).FromSummary? ==>
              ResumeFromSummary(s) && ResumeContextOf(s) == FromSummary(s.summary)
  {
  }

  /** Every generation request issued from a reachable session that carries a
      resume context carries a complete, unmixed one. */
  lemma RequestsNeverMixResumeSources(s: Session, msg: string, f: FormValues, gen: Oracle)
    requires Inv(s)
    ensures var r := Step(s, msg, f, gen);
      r.request.Some? && !r.request.value.SummarizeResume? ==>
        match r.request.value.resume
        case FromForm(c, d, t) =>
          |c| > 0 && Truthy(d) && Truthy(t) && s.summary.None?
        case FromSummary(sm) =>
          sm.Some? && NoFormFields(s)
  {
    var r := Step(s, msg, f, gen);
    if r.request.Some? && !r.request.value.SummarizeResume? {
      assert PastIntake(s.state);
      ResumeContextNeverMixes(s);
    }
  }

  /** The concern is written once, on leaving CONCERN_INPUT, and never again. */
  lemma ConcernWrittenOnce(s: Session, msg: string, f: FormValues, gen: Oracle)
    requires Inv(s) && s.concern.Some?
    ensures Step(s, msg, f, gen).session.concern == s.concern
  {
  }

  /** In a reachable session the re-prompt after a rejected summary is
      always pre-filled with the non-empty text the summary was made from. */
  lemma RetryFormAlwaysPrefilled(s: Session, msg: string, f: FormValues, gen: Oracle)
    requires Inv(s) && s.state == SummaryConfirmation && !Affirmative(msg)
    ensures var r := Step(s, msg, f, gen);
      r.outcome.Reply? && r.outcome.response.form.Some?
      && r.outcome.response.form.value.LongTextRetryForm?
      && Truthy(r.outcome.response.form.value.previous)
      && r.outcome.response.form.value.previous == s.longText
  {
  }

  /** Once past the intake, the session stays past it and its resume
      information no longer changes. */
  lemma ResumeFrozenAfterIntake(s: Session, msg: string, f: FormValues, gen: Oracle)
    requires PastIntake(s.state)
    ensures var s' := Step(s, msg, f, gen).session;
      PastIntake(s'.state)
      && s'.career == s.career && s'.jobDuties == s.jobDuties && s'.techSkills == s.techSkills
      && s'.longText == s.longText && s'.summary == s.summary
  {
  }

  /** The state graph of the dispatch, including the stay-put branches. */
  predicate Edge(from: UserState, to: UserState) {
    from == to ||
    match from
    case Start => to == InputMethodSelection
    case InputMethodSelection => to == FormInput || to == LongTextInput
    case FormInput => to == ConcernInput
    case LongTextInput => to == SummaryConfirmation
    case SummaryConfirmation => to == ConcernInput || to == LongTextInput
    case ConcernInput => to == QuestionsGenerated
    case QuestionsGenerated => to == LearningPath
    case QuestionsConfirmation => false
    case LearningPath => false
  }

  /** Every turn moves along an edge of the graph. */
  lemma StepFollowsEdge(s: Session, msg: string, f: FormValues, gen: Oracle)
    ensures Edge(s.state, Step(s, msg, f, gen).session.state)
  {
  }

  /** Conversely, every edge that leaves a state is taken by some turn: the
      returned message, fields and collaborator move `s` to `to`. */
  lemma EdgeTaken(s: Session, to: UserState) returns (msg: string, f: FormValues, gen: Oracle)
    requires Edge(s.state, to) && s.state != to
    ensures Step(s, msg, f, gen).session.state == to
  {
    var none := FormValues(None, None, None, None);
    gen := (p: Prompt) => Generated("");
    match s.state
    case Start =>
      msg, f := "x", none;
    case InputMethodSelection =>
      msg := if to == FormInput then "form_input" else "long_text_input";
      f := none;
    case FormInput =>
      msg, f := "x", FormValues(Some("c"), Some("d"), Some("t"), None);
    case LongTextInput =>
      msg, f := "x", FormValues(None, None, None, Some("l"));
    case SummaryConfirmation =>
      msg := if to == ConcernInput then "confirm_yes" else "confirm_no";
      f := none;
    case ConcernInput =>
      msg, f := "x", none;
    case QuestionsGenerated =>
      msg, f := "questions_yes", none;
  }

  /** One posted message with the collaborator's behaviour for that turn. */
  datatype Turn = Turn(msg: string, fields: FormValues, gen: Oracle)

  /** The session after a sequence of turns. */
  function Run(s: Session, turns: seq<Turn>): Session
    decreases |turns|
  {
    if turns == [] then s
    else Run(Step(s, turns[0].msg, turns[0].fields, turns[0].gen).session, turns[1..])
  }

  lemma {:induction false} RunPreservesInv(s: Session, turns: seq<Turn>)
    requires Inv(s)
    ensures Inv(Run(s, turns))
    decreases |turns|
  {
    if turns != [] {
      var t := turns[0];
      StepPreservesInv(s, t.msg, t.fields, t.gen);
      RunPreservesInv(Step(s, t.msg, t.fields, t.gen).session, turns[1..]);
    }
  }

  /** Every session reachable from a fresh one satisfies the invariant, so it
      is never in QUESTIONS_CONFIRMATION and past the intake holds exactly one
      source of resume information. */
  lemma ReachableSessionsSatisfyInv(turns: seq<Turn>)
    ensures Inv(Run(InitialSession(), turns))
    ensures Run(InitialSession(), turns).state != QuestionsConfirmation
  {
    InitialSessionSatisfiesInv();
    RunPreservesInv(InitialSession(), turns);
  }

  /** Over any number of turns, resume information is frozen once the intake is over. */
  lemma {:induction false} RunKeepsResumeAfterIntake(s: Session, turns: seq<Turn>)
    requires PastIntake(s.state)
    ensures PastIntake(Run(s, turns).state)
    ensures Run(s, turns).career == s.career && Run(s, turns).summary == s.summary
    ensures Run(s, turns).jobDuties == s.jobDuties && Run(s, turns).techSkills == s.techSkills
    decreases |turns|
  {
    if turns != [] {
      var t := turns[0];
      ResumeFrozenAfterIntake(s, t.msg, t.fields, t.gen);
      RunKeepsResumeAfterIntake(Step(s, t.msg, t.fields, t.gen).session, turns[1..]);
    }
  }
}
