/** The two process-wide stores and the endpoints over them: the message
    handler (get-or-create the session, run one turn, write it back), the
    creation, deletion and status query of a conversation. */
module SessionStores {
  import opened SessionData
  import opened Dialogue
  import opened DialogueInvariants

  /** The session data store, and the ids that have a chat history. The
      history contents belong to the generation library and are not modelled. */
  datatype Stores = Stores(sessions: map<string, Session>, histories: set<string>)

  /** The history lookup the generation library performs: get-or-create. */
  function GetHistory(st: Stores, id: string): (st': Stores)
    ensures id in st'.histories
    ensures id in st.histories ==> st' == st
    ensures st'.sessions == st.sessions
    ensures forall k :: k != id ==> (k in st'.histories <==> k in st.histories)
  {
    if id in st.histories then st else st.(histories := st.histories + {id})
  }

  datatype Lookup = Lookup(stores: Stores, session: Session)

  /** The session-data lookup: the stored session, or a new START session that is stored first. */
  function GetSessionData(st: Stores, id: string): (r: Lookup)
    ensures id in r.stores.sessions && r.stores.sessions[id] == r.session
    ensures id in st.sessions ==> r.stores == st && r.session == st.sessions[id]
    ensures id !in st.sessions ==> r.session == InitialSession()
    ensures r.stores.histories == st.histories
    ensures r.stores.sessions.Keys == st.sessions.Keys + {id}
    ensures forall k :: k in st.sessions ==> r.stores.sessions[k] == st.sessions[k]
  {
    if id in st.sessions then Lookup(st, st.sessions[id])
    else
      var s := InitialSession();
      Lookup(st.(sessions := st.sessions[id := s]), s)
  }

  /** Both lookups are idempotent: a second lookup finds what the first left. */
  lemma LookupsIdempotent(st: Stores, id: string)
    ensures GetHistory(GetHistory(st, id), id) == GetHistory(st, id)
    ensures GetSessionData(GetSessionData(st, id).stores, id) == GetSessionData(st, id)
  {
  }

  datatype Handled = Handled(stores: Stores, outcome: Outcome)

  /** The message endpoint: look the session up (creating it when unknown),
      run one turn, and keep the resulting session. A generation request
      looks the conversation history up, which creates it. */
  function Handle(st: Stores, id: string, msg: string, f: FormValues, gen: Oracle): (r: Handled)
    ensures id in r.stores.sessions
    // the turn runs on the stored session, or on a new one for an unknown id
    ensures var before := if id in st.sessions then st.sessions[id] else InitialSession();
      var step := Step(before, msg, f, gen);
      r.stores.sessions[id] == step.session && r.outcome == step.outcome
      && (id in r.stores.histories <==> id in st.histories || step.request.Some?)
    // no other conversation is touched
    ensures forall k :: k != id ==> (k in r.stores.sessions <==> k in st.sessions)
    ensures forall k :: k != id && k in st.sessions ==> r.stores.sessions[k] == st.sessions[k]
    ensures forall k :: k != id ==> (k in r.stores.histories <==> k in st.histories)
  {
    var got := GetSessionData(st, id);
    var step := Step(got.session, msg, f, gen);
    var looked := if step.request.Some? then GetHistory(got.stores, id) else got.stores;
    Handled(looked.(sessions := looked.sessions[id := step.session]), step.outcome)
  }

  /** Creates a conversation under `newId`, which stands for the random UUID
      and so is assumed unused in either store. */
  function InitConversation(st: Stores, newId: string): (st': Stores)
    requires newId !in st.sessions && newId !in st.histories
    ensures newId in st'.sessions && newId in st'.histories
    ensures st'.sessions[newId] == InitialSession()
    ensures forall k :: k != newId ==> (k in st'.sessions <==> k in st.sessions)
    ensures forall k :: k != newId && k in st.sessions ==> st'.sessions[k] == st.sessions[k]
    ensures forall k :: k != newId ==> (k in st'.histories <==> k in st.histories)
  {
    var withHistory := GetHistory(st, newId);
    GetSessionData(withHistory, newId).stores
  }

  datatype RemoveResult = Removed | NotFound

  datatype Removal = Removal(stores: Stores, result: RemoveResult)

  /** Deletes a conversation. The history is dropped whether or not the
      session exists; the answer is not-found exactly when the session data
      store lacks the id. */
  function RemoveConversation(st: Stores, id: string): (r: Removal)
    ensures r.result == NotFound <==> id !in st.sessions
    ensures id !in r.stores.sessions && id !in r.stores.histories
    ensures forall k :: k != id ==> (k in r.stores.sessions <==> k in st.sessions)
    ensures forall k :: k != id && k in st.sessions ==> r.stores.sessions[k] == st.sessions[k]
    ensures forall k :: k != id ==> (k in r.stores.histories <==> k in st.histories)
  {
    var histories := if id in st.histories then st.histories - {id} else st.histories;
    if id in st.sessions then Removal(Stores(st.sessions - {id}, histories), Removed)
    else Removal(Stores(st.sessions, histories), NotFound)
  }

  datatype Status =
    | Status(sessionId: string, state: UserState, hasResumeInfo: bool)
    | StatusNotFound

  /** The status query: not-found for an unknown id; otherwise the state and
      whether a truthy career or a truthy summary is on record. */
  function SessionStatus(st: Stores, id: string): (r: Status)
    ensures r.StatusNotFound? <==> id !in st.sessions
    ensures r.Status? ==>
              r.sessionId == id && r.state == st.sessions[id].state
              && (r.hasResumeInfo <==> Truthy(st.sessions[id].career) || Truthy(st.sessions[id].summary))
  {
    if id !in st.sessions then StatusNotFound
    else
      var s := st.sessions[id];
      Status(id, s.state, Truthy(s.career) || Truthy(s.summary))
  }

  /** Deleting a conversation that was just created gives back the stores as they were. */
  lemma RemoveUndoesInit(st: Stores, newId: string)
    requires newId !in st.sessions && newId !in st.histories
    ensures RemoveConversation(InitConversation(st, newId), newId) == Removal(st, Removed)
  {
    var r := RemoveConversation(InitConversation(st, newId), newId);
    assert r.stores.sessions == st.sessions;
    assert r.stores.histories == st.histories;
  }

  /** After a deletion the id is unknown: its status is not-found and a second deletion fails. */
  lemma RemoveThenUnknown(st: Stores, id: string)
    ensures var after := RemoveConversation(st, id).stores;
      SessionStatus(after, id) == StatusNotFound
      && RemoveConversation(after, id).result == NotFound
      && RemoveConversation(after, id).stores == after
  {
  }

  /** A new conversation reports START and no resume information. */
  lemma StatusAfterInit(st: Stores, newId: string)
    requires newId !in st.sessions && newId !in st.histories
    ensures SessionStatus(InitConversation(st, newId), newId) == Status(newId, Start, false)
  {
  }

  /** A message for an unknown id runs as the first turn of a new session:
      it opens the input-method menu. */
  lemma HandleUnknownIdStartsFresh(st: Stores, id: string, msg: string, f: FormValues, gen: Oracle)
    requires id !in st.sessions
    ensures var r := Handle(st, id, msg, f, gen);
      r.stores.sessions[id] == InitialSession().(state := InputMethodSelection)
      && r.outcome == Step(InitialSession(), msg, f, gen).outcome
  {
  }

  /** Every stored session satisfies the dialogue invariant. */
  predicate StoresInv(st: Stores) {
    forall id :: id in st.sessions ==> Inv(st.sessions[id])
  }

  lemma StoreOperationsPreserveInv(st: Stores, id: string, msg: string, f: FormValues, gen: Oracle)
    requires StoresInv(st)
    ensures StoresInv(Handle(st, id, msg, f, gen).stores)
    ensures StoresInv(RemoveConversation(st, id).stores)
    ensures id !in st.sessions && id !in st.histories ==> StoresInv(InitConversation(st, id))
  {
    InitialSessionSatisfiesInv();
    var before := if id in st.sessions then st.sessions[id] else InitialSession();
    StepPreservesInv(before, msg, f, gen);
  }

  /** For a stored session that satisfies the invariant, the status flag
      tells how far the intake got: nothing before a resume path was chosen,
      always after form input, and after a summary exactly when the summary is
      non-empty. */
  lemma ResumeInfoReflectsIntake(st: Stores, id: string)
    requires StoresInv(st) && id in st.sessions
    ensures var s := st.sessions[id]; var r := SessionStatus(st, id);
      && r.Status?
      && (s.state in {Start, InputMethodSelection, FormInput} ==> !r.hasResumeInfo)
      && (ResumeFromForm(s) ==> r.hasResumeInfo)
      && (ResumeFromSummary(s) ==> (r.hasResumeInfo <==> |s.summary.value| > 0))
  {
    assert Inv(st.sessions[id]);
  }
}
