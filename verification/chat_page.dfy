/** The chat page, src/app/chat/page.tsx: the selected conversation it
    hands to the sidebar and the panel, and how their callbacks move it. */
module ChatPage {
  import opened Common
  import opened ClientState
  import ConversationSidebar
  import ChatInterface

  /** The page's only state: the selected conversation id, `undefined` at first. */
  datatype Page = Page(selected: Option<int>)

  const Initial := Page(None)

  /** `handleSelectConversation`. */
  function SelectConversation(p: Page, id: int): (r: Page)
    ensures r.selected == Some(id)
  {
    Page(Some(id))
  }

  /** `handleNewConversation`: a truthy id is selected; `undefined` and 0
      clear the selection. */
  function NewConversation(p: Page, id: Option<int>): (r: Page)
    ensures TruthyId(id) ==> r.selected == id
    ensures !TruthyId(id) ==> r.selected.None?
    ensures TruthyId(r.selected) || r.selected.None?
  {
    if TruthyId(id) then Page(id) else Page(None)
  }

  /** The sidebar's callbacks. Its new-conversation callback is wired as
      `() => handleNewConversation()`, with no id, so it always clears. */
  function OnSidebar(p: Page, cb: ConversationSidebar.Callback): (r: Page)
    ensures cb.NoCallback? ==> r == p
    ensures cb.SelectConversation? ==> r.selected == Some(cb.id)
    ensures cb.NewConversation? ==> r.selected.None?
  {
    match cb
    case NoCallback => p
    case SelectConversation(id) => SelectConversation(p, id)
    case NewConversation => NewConversation(p, None)
  }

  /** The panel's callback, when it fires, passes the answer's id on. */
  function OnChat(p: Page, cb: Option<Option<int>>): (r: Page)
    ensures cb.None? ==> r == p
    ensures cb.Some? ==> r == NewConversation(p, cb.value)
  {
    match cb
    case None => p
    case Some(id) => NewConversation(p, id)
  }

  /** The panel's callback never leaves a selection of 0: starting from no
      selection or a truthy one, the page keeps one of the two. */
  lemma SelectionNeverZeroFromPanel(p: Page, cb: Option<Option<int>>)
    requires p.selected.None? || TruthyId(p.selected)
    ensures var r := OnChat(p, cb); r.selected.None? || TruthyId(r.selected)
  {
  }

  /** Deleting the selected conversation in the sidebar clears the page's
      selection, and the panel, seeing a falsy id, empties its list. */
  lemma DeletingSelectedConversationEmptiesPanel(
    p: Page, s: ConversationSidebar.Sidebar, id: int, chat: ChatInterface.Chat,
    load: FetchOutcome<seq<ChatInterface.ChatMessage>>)
    requires p.selected == Some(id)
    ensures var (_, cb) := ConversationSidebar.Delete(s, p.selected, id, true, Fetched(()));
            var q := OnSidebar(p, cb);
            && q.selected.None?
            && ChatInterface.ConversationChanged(chat, q.selected, load).messages == []
  {
  }

  /** Deleting some other conversation leaves the selection alone. */
  lemma DeletingOtherConversationKeepsSelection(p: Page, s: ConversationSidebar.Sidebar, id: int,
                                                outcome: FetchOutcome<()>)
    requires p.selected != Some(id)
    ensures OnSidebar(p, ConversationSidebar.Delete(s, p.selected, id, true, outcome).1) == p
  {
  }

  /** Creating a conversation in the sidebar selects it. */
  lemma CreatedConversationIsSelected(p: Page, s: ConversationSidebar.Sidebar, created: ConversationSidebar.Conversation)
    ensures OnSidebar(p, ConversationSidebar.Create(s, Fetched(created)).1).selected == Some(created.id)
  {
  }

  /** The first question of a fresh chat: the panel has no conversation, so
      the answer's conversation becomes the page's selection when its id is
      truthy. */
  lemma FirstAnswerSelectsItsConversation(c: ChatInterface.Chat, token: Option<string>, answer: ChatInterface.ChatResponse)
    requires !ChatInterface.SendDisabled(c)
    requires TruthyId(answer.conversationId)
    ensures var (_, _, cb) := ChatInterface.SendMessage(c, token, Initial.selected, true, Fetched(answer));
            OnChat(Initial, cb).selected == answer.conversationId
  {
  }
}
