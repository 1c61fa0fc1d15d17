/** The per-conversation record of the interview helper: the dialogue states
    and the session data the dialogue accumulates, with Python's truthiness
    of optional strings made explicit. */
module SessionData {

  /** An optional value; `None` plays the part of Python's `None`. */
  datatype Option<+T> = None | Some(value: T)

  /** Python truthiness of an `Optional[str]`: both `None` and `""` are falsy. */
  predicate Truthy(o: Option<string>) {
    o.Some? && |o.value| > 0
  }

  /** The dialogue states, in the order the enum declares them. */
  datatype UserState =
    | Start
    | InputMethodSelection
    | FormInput
    | LongTextInput
    | SummaryConfirmation
    | ConcernInput
    | QuestionsGenerated
    | QuestionsConfirmation
    | LearningPath

  /** Everything the server remembers about one conversation. */
  datatype Session = Session(
    state: UserState,
    career: Option<string>,
    jobDuties: Option<string>,
    techSkills: Option<string>,
    longText: Option<string>,
    summary: Option<string>,
    concern: Option<string>,
    questions: seq<string>,
    learningPath: Option<string>)

  /** A freshly created session: every field at its declared default. */
  function InitialSession(): Session {
    Session(Start, None, None, None, None, None, None, [], None)
  }
}
