/** Two whole conversations, the form path and the free-text path, driven
    end to end through the stores. */
module Scenario {
  import opened SessionData
  import opened Dialogue
  import opened SessionStores

  function ReplyState(o: Outcome): Option<UserState> {
    if o.Reply? then o.response.state else None
  }

  /** Create a conversation, greet, choose the form, submit it, state a
      concern, ask for other questions, accept them: the replies report the
      state of each step, the last one final, and the session is then stuck
      in LEARNING_PATH with the form fields and the concern on record. */
  lemma FormPathScenario(st: Stores, id: string)
    requires id !in st.sessions && id !in st.histories
    ensures
      var none := FormValues(None, None, None, None);
      var form := FormValues(Some("3년차 백엔드"), Some("커머스 API"), Some("AWS, Spring"), None);
      var first: Oracle := (p: Prompt) => Generated("질문 세트 1");
      var second: Oracle := (p: Prompt) => Generated("질문 세트 2");
      var s0 := InitConversation(st, id);
      var h1 := Handle(s0, id, "hello", none, first);
      var h2 := Handle(h1.stores, id, "form_input", none, first);
      var h3 := Handle(h2.stores, id, "x", form, first);
      var h4 := Handle(h3.stores, id, "DB 설계가 걱정돼요", none, first);
      var h5 := Handle(h4.stores, id, "questions_no", none, second);
      var h6 := Handle(h5.stores, id, "questions_yes", none, first);
      && ReplyState(h1.outcome) == Some(InputMethodSelection)
      && |h1.outcome.response.buttons| == 2
      && ReplyState(h2.outcome) == Some(FormInput)
      && h2.outcome.response.form == Some(ResumeFieldsForm)
      && ReplyState(h3.outcome) == Some(ConcernInput)
      && ReplyState(h4.outcome) == Some(QuestionsGenerated)
      && h4.outcome.response.buttons == QuestionButtons
      && ReplyState(h5.outcome) == Some(QuestionsGenerated)
      && h5.outcome.response.message != h4.outcome.response.message
      && ReplyState(h6.outcome) == Some(LearningPath)
      && h6.outcome.response.final
      && h6.stores.sessions[id].career == Some("3년차 백엔드")
      && h6.stores.sessions[id].jobDuties == Some("커머스 API")
      && h6.stores.sessions[id].techSkills == Some("AWS, Spring")
      && h6.stores.sessions[id].concern == Some("DB 설계가 걱정돼요")
      && SessionStatus(h6.stores, id) == Status(id, LearningPath, true)
  {
    var first: Oracle := (p: Prompt) => Generated("질문 세트 1");
    var second: Oracle := (p: Prompt) => Generated("질문 세트 2");
    assert ("질문 세트 1" + QuestionsSuffix)[6] != ("질문 세트 2" + QuestionsSuffix)[6];
  }

  /** The free-text path with a collaborator outage: the failed summary
      leaves the session in LONG_TEXT_INPUT without a summary, the retry
      succeeds, "맞아" confirms, and the question request carries the summary
      as the resume context. */
  lemma SummaryPathScenario(st: Stores, id: string)
    requires id !in st.sessions && id !in st.histories
    ensures
      var none := FormValues(None, None, None, None);
      var text := FormValues(None, None, None, Some("백엔드 3년, 커머스 API, AWS"));
      var down: Oracle := (p: Prompt) => Unavailable;
      var up: Oracle := (p: Prompt) => Generated("3년차 백엔드 개발자");
      var s0 := InitConversation(st, id);
      var h1 := Handle(s0, id, "hello", none, up);
      var h2 := Handle(h1.stores, id, "long_text_input", none, up);
      var h3 := Handle(h2.stores, id, "x", text, down);
      var h4 := Handle(h3.stores, id, "x", text, up);
      var h5 := Handle(h4.stores, id, "맞아", none, up);
      var s5 := h5.stores.sessions[id];
      && ReplyState(h2.outcome) == Some(LongTextInput)
      && h3.outcome.GenerationFailed?
      && h3.stores.sessions[id].state == LongTextInput
      && h3.stores.sessions[id].summary.None?
      && ReplyState(h4.outcome) == Some(SummaryConfirmation)
      && ReplyState(h5.outcome) == Some(ConcernInput)
      && s5.summary == Some("3년차 백엔드 개발자")
      && Step(s5, "걱정", none, up).request
         == Some(GenerateQuestions(FromSummary(Some("3년차 백엔드 개발자")), Some("걱정")))
  {
    var none := FormValues(None, None, None, None);
    var text := FormValues(None, None, None, Some("백엔드 3년, 커머스 API, AWS"));
    var down: Oracle := (p: Prompt) => Unavailable;
    var up: Oracle := (p: Prompt) => Generated("3년차 백엔드 개발자");
    var s0 := InitConversation(st, id);
    var h1 := Handle(s0, id, "hello", none, up);
    assert h1.stores.sessions[id].state == InputMethodSelection;
    var h2 := Handle(h1.stores, id, "long_text_input", none, up);
    assert h2.stores.sessions[id] == InitialSession().(state := LongTextInput);
    var h3 := Handle(h2.stores, id, "x", text, down);
    assert h3.stores.sessions[id] == InitialSession().(state := LongTextInput, longText := text.longText);
    var h4 := Handle(h3.stores, id, "x", text, up);
    assert h4.stores.sessions[id] == InitialSession().(state := SummaryConfirmation,
      longText := text.longText, summary := Some("3년차 백엔드 개발자"));
    assert '맞' in "맞아";
    var h5 := Handle(h4.stores, id, "맞아", none, up);
    assert h5.stores.sessions[id] == InitialSession().(state := ConcernInput,
      longText := text.longText, summary := Some("3년차 백엔드 개발자"));
  }
}
