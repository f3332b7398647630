/** The chat panel, src/components/rag/ChatInterface.tsx: the optimistic
    send with its rollback, the reset when the conversation changes, the
    Enter key, and the document filter it forwards with each question. */
module ChatInterface {
  import opened Common
  import opened ClientState

  datatype Role = UserRole | AssistantRole

  /** A message as the panel keeps it; timestamps and cited excerpts are
      display data and are not kept. */
  datatype ChatMessage = ChatMessage(role: Role, content: string)

  datatype Chat = Chat(
    messages: seq<ChatMessage>,
    input: string,
    isLoading: bool,
    error: Option<string>,
    selectedDocumentIds: seq<int>,
    selectorOpen: bool)

  /** The body and header of `POST /api/v1/chat/chat`. An absent field is
      left out of the JSON body. */
  datatype ChatRequest = ChatRequest(
    authorization: string,
    message: string,
    conversationId: Option<int>,
    selectedDocumentIds: Option<seq<int>>)

  /** The fields of the answer the panel reads; `conversation_id` may be absent. */
  datatype ChatResponse = ChatResponse(message: string, conversationId: Option<int>)

  const SendFailed := "Failed to send message. Please try again."
  const LoadMessagesFailed := "Failed to load conversation messages"

  const Initial := Chat([], "", false, None, [], false)

  /** The send button is disabled exactly when `sendMessage` would return at once. */
  predicate SendDisabled(c: Chat) {
    Trim(c.input) == "" || c.isLoading
  }

  /** The first half of `sendMessage`: either nothing happens, or the user's
      message is shown at once and the request goes out. */
  datatype SendStart = Ignored | Started(chat: Chat, request: ChatRequest)

  function BeginSend(c: Chat, token: Option<string>, conversationId: Option<int>): (r: SendStart)
    ensures r.Ignored? <==> SendDisabled(c)
    ensures r.Started? ==> && r.chat.messages == c.messages + [ChatMessage(UserRole, Trim(c.input))]
                           && r.chat.input == "" && r.chat.isLoading && r.chat.error.None?
                           && r.chat.selectedDocumentIds == c.selectedDocumentIds
                           && r.chat.selectorOpen == c.selectorOpen
    ensures r.Started? ==> && r.request.message == Trim(c.input) && r.request.message != ""
                           && r.request.conversationId == conversationId
                           && r.request.authorization == FetchAuthorization(token)
                           && (r.request.selectedDocumentIds.None? <==> c.selectedDocumentIds == [])
                           && (r.request.selectedDocumentIds.Some? ==> r.request.selectedDocumentIds.value == c.selectedDocumentIds)
  {
    if SendDisabled(c) then Ignored
    else
      var content := Trim(c.input);
      var request := ChatRequest(FetchAuthorization(token), content, conversationId,
                                 if |c.selectedDocumentIds| > 0 then Some(c.selectedDocumentIds) else None);
      Started(c.(messages := c.messages + [ChatMessage(UserRole, content)], input := "", isLoading := true, error := None),
              request)
  }

  /** The second half: the answer is appended, or the last message is
      dropped and the error set. Loading ends either way. The second
      component is the id handed to `onNewConversation`, called only when
      the panel had no conversation and a callback was given. */
  function FinishSend(c: Chat, conversationId: Option<int>, hasCallback: bool, outcome: FetchOutcome<ChatResponse>): (r: (Chat, Option<Option<int>>))
    ensures !r.0.isLoading && r.0.input == c.input
    ensures r.0.selectedDocumentIds == c.selectedDocumentIds && r.0.selectorOpen == c.selectorOpen
    ensures outcome.Fetched? ==> r.0.messages == c.messages + [ChatMessage(AssistantRole, outcome.data.message)]
                                 && r.0.error == c.error
    ensures !outcome.Fetched? ==> r.0.messages == DropLast(c.messages) && r.0.error == Some(SendFailed)
    ensures r.1.Some? <==> outcome.Fetched? && !TruthyId(conversationId) && hasCallback
    ensures r.1.Some? ==> r.1.value == outcome.data.conversationId
  {
    match outcome
    case Fetched(answer) =>
      var shown := c.(messages := c.messages + [ChatMessage(AssistantRole, answer.message)], isLoading := false);
      (shown, if !TruthyId(conversationId) && hasCallback then Some(answer.conversationId) else None)
    case _ =>
      (c.(messages := DropLast(c.messages), isLoading := false, error := Some(SendFailed)), None)
  }

  /** `sendMessage` with the request settled before anything else happens:
      the new chat, the request sent (if any), and the new-conversation
      callback's argument (if it fires). */
  function SendMessage(c: Chat, token: Option<string>, conversationId: Option<int>, hasCallback: bool,
                       outcome: FetchOutcome<ChatResponse>): (r: (Chat, Option<ChatRequest>, Option<Option<int>>))
    ensures r.1.None? <==> SendDisabled(c)
    ensures r.1.None? ==> r.0 == c && r.2.None?
    ensures r.1.Some? ==> && r.1.value.message == Trim(c.input)
                          && r.0.input == "" && !r.0.isLoading
                          && r.0.selectedDocumentIds == c.selectedDocumentIds
    ensures r.1.Some? && outcome.Fetched? ==>
              && r.0.messages == c.messages + [ChatMessage(UserRole, Trim(c.input)), ChatMessage(AssistantRole, outcome.data.message)]
              && r.0.error.None?
    ensures r.1.Some? && !outcome.Fetched? ==> r.0.messages == c.messages && r.0.error == Some(SendFailed)
    ensures r.2.Some? <==> !SendDisabled(c) && outcome.Fetched? && !TruthyId(conversationId) && hasCallback
  {
    match BeginSend(c, token, conversationId)
    case Ignored => (c, None, None)
    case Started(started, request) =>
      assert DropLast(started.messages) == c.messages;
      var (finished, callback) := FinishSend(started, conversationId, hasCallback, outcome);
      (finished, Some(request), callback)
  }

  /** A disabled send is a no-op: no request, no callback, no change. */
  lemma DisabledSendIsNoOp(c: Chat, token: Option<string>, conversationId: Option<int>, hasCallback: bool,
                           outcome: FetchOutcome<ChatResponse>)
    requires SendDisabled(c)
    ensures SendMessage(c, token, conversationId, hasCallback, outcome) == (c, None, None)
  {
  }

  /** A whitespace-only draft is never sent. */
  lemma BlankDraftNotSent(c: Chat, token: Option<string>, conversationId: Option<int>)
    requires AllWhitespace(c.input)
    ensures BeginSend(c, token, conversationId).Ignored?
  {
    TrimEmptyIffAllWhitespace(c.input);
  }

  /** A failed send rolls the list back to exactly what it was before the
      send, clears the draft, and leaves the panel ready for another try. */
  lemma FailedSendRollsBack(c: Chat, token: Option<string>, conversationId: Option<int>, hasCallback: bool,
                            outcome: FetchOutcome<ChatResponse>)
    requires !SendDisabled(c) && !outcome.Fetched?
    ensures var (after, request, callback) := SendMessage(c, token, conversationId, hasCallback, outcome);
            && after.messages == c.messages
            && after.input == "" && !after.isLoading && after.error == Some(SendFailed)
            && request.Some? && callback.None?
  {
    var started := BeginSend(c, token, conversationId).chat;
    assert DropLast(started.messages) == c.messages;
  }

  /** A successful send adds exactly the user's trimmed question followed by
      the answer. */
  lemma SuccessfulSendAppendsPair(c: Chat, token: Option<string>, conversationId: Option<int>, hasCallback: bool,
                                  answer: ChatResponse)
    requires !SendDisabled(c)
    ensures var after := SendMessage(c, token, conversationId, hasCallback, Fetched(answer)).0;
            && after.messages == c.messages + [ChatMessage(UserRole, Trim(c.input)), ChatMessage(AssistantRole, answer.message)]
            && !after.isLoading && after.error.None?
  {
  }

  /** Only a panel without a conversation announces the one the answer
      belongs to; an id of 0 counts as no conversation. */
  lemma CallbackOnlyForNewConversation(c: Chat, token: Option<string>, hasCallback: bool, answer: ChatResponse)
    requires !SendDisabled(c) && hasCallback
    ensures SendMessage(c, token, None, hasCallback, Fetched(answer)).2 == Some(answer.conversationId)
    ensures SendMessage(c, token, Some(0), hasCallback, Fetched(answer)).2 == Some(answer.conversationId)
    ensures forall id :: id != 0 ==> SendMessage(c, token, Some(id), hasCallback, Fetched(answer)).2.None?
  {
  }

  /** The effect of a new `conversationId`: a falsy id empties the list; a
      truthy one loads that conversation, replacing the list on an `ok`
      response, doing nothing on a non-`ok` one, and setting the error when
      the request throws. */
  function ConversationChanged(c: Chat, conversationId: Option<int>, outcome: FetchOutcome<seq<ChatMessage>>): (r: Chat)
    ensures !TruthyId(conversationId) ==> r == c.(messages := [])
    ensures TruthyId(conversationId) && outcome.Fetched? ==> r == c.(messages := outcome.data)
    ensures TruthyId(conversationId) && outcome.NotOk? ==> r == c
    ensures TruthyId(conversationId) && outcome.Thrown? ==> r == c.(error := Some(LoadMessagesFailed))
  {
    if !TruthyId(conversationId) then c.(messages := [])
    else match outcome
      case Fetched(list) => c.(messages := list)
      case NotOk => c
      case Thrown => c.(error := Some(LoadMessagesFailed))
  }

  /** Switching to a conversation whose messages fail to load keeps showing
      the previous conversation's messages. */
  lemma FailedSwitchKeepsOldMessages(c: Chat, id: int, outcome: FetchOutcome<seq<ChatMessage>>)
    requires id != 0 && !outcome.Fetched?
    ensures ConversationChanged(c, Some(id), outcome).messages == c.messages
  {
  }

  /** `handleKeyPress`: Enter without Shift sends; any other key, and
      Shift+Enter, leave everything alone. */
  function KeyPress(c: Chat, key: string, shift: bool, token: Option<string>, conversationId: Option<int>,
                    hasCallback: bool, outcome: FetchOutcome<ChatResponse>): (r: (Chat, Option<ChatRequest>, Option<Option<int>>))
    ensures key == "Enter" && !shift ==> r == SendMessage(c, token, conversationId, hasCallback, outcome)
    ensures !(key == "Enter" && !shift) ==> r == (c, None, None)
  {
    if key == "Enter" && !shift then SendMessage(c, token, conversationId, hasCallback, outcome)
    else (c, None, None)
  }

  /** Shift+Enter never sends, whatever the draft. */
  lemma ShiftEnterNeverSends(c: Chat, token: Option<string>, conversationId: Option<int>, hasCallback: bool,
                             outcome: FetchOutcome<ChatResponse>)
    ensures KeyPress(c, "Enter", true, token, conversationId, hasCallback, outcome).1.None?
  {
  }

  /** The selection the picker edits lives here; clearing it drops the
      document filter from the next question. */
  function ClearSelectedDocuments(c: Chat): (r: Chat)
    ensures r.selectedDocumentIds == []
    ensures r.(selectedDocumentIds := c.selectedDocumentIds) == c
  {
    c.(selectedDocumentIds := [])
  }

  lemma ClearedSelectionSearchesEverything(c: Chat, token: Option<string>, conversationId: Option<int>)
    requires !SendDisabled(c)
    ensures BeginSend(ClearSelectedDocuments(c), token, conversationId).request.selectedDocumentIds.None?
  {
  }
}
