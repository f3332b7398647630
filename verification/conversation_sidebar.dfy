/** The chat's conversation list, src/components/rag/ConversationSidebar.tsx:
    loading, creating and deleting conversations, the callbacks it fires at
    the chat page, and the text it derives (truncated titles, the count in
    the footer, the message badge). */
module ConversationSidebar {
  import opened Common
  import opened ClientState

  /** The fields of a conversation the sidebar uses. */
  datatype Conversation = Conversation(id: int, title: string, messageCount: int)

  datatype Sidebar = Sidebar(conversations: seq<Conversation>, isLoading: bool, error: Option<string>)

  /** What the sidebar asks of the page: nothing, select an id, or start a
      new (unselected) conversation. */
  datatype Callback = NoCallback | SelectConversation(id: int) | NewConversation

  const LoadFailed := "Failed to load conversations"
  const CreateFailed := "Failed to create new conversation"
  const DeleteFailed := "Failed to delete conversation"
  const NewConversationTitle := "New Conversation"
  const MaxTitleLength := 30

  /** Mounting starts loading with an empty list and no error. */
  const Initial := Sidebar([], true, None)

  /** `loadConversations` settles. Nothing in the sidebar ever clears an
      error once set. */
  function FinishLoad(s: Sidebar, outcome: FetchOutcome<seq<Conversation>>): (r: Sidebar)
    ensures !r.isLoading
    ensures outcome.Fetched? ==> r.conversations == outcome.data && r.error == s.error
    ensures !outcome.Fetched? ==> r.conversations == s.conversations && r.error == Some(LoadFailed)
  {
    match outcome
    case Fetched(list) => s.(conversations := list, isLoading := false)
    case _ => s.(isLoading := false, error := Some(LoadFailed))
  }

  /** `createNewConversation`: on success the new conversation goes first
      and is selected; on failure the list stays and the error is set. */
  function Create(s: Sidebar, outcome: FetchOutcome<Conversation>): (r: (Sidebar, Callback))
    ensures r.0.isLoading == s.isLoading
    ensures outcome.Fetched? ==> && |r.0.conversations| == |s.conversations| + 1
                                 && r.0.conversations[0] == outcome.data
                                 && r.0.conversations[1..] == s.conversations
                                 && r.0.error == s.error
                                 && r.1 == SelectConversation(outcome.data.id)
    ensures !outcome.Fetched? ==> && r.0.conversations == s.conversations
                                  && r.0.error == Some(CreateFailed)
                                  && r.1 == NoCallback
  {
    match outcome
    case Fetched(conversation) =>
      (s.(conversations := [conversation] + s.conversations), SelectConversation(conversation.id))
    case _ => (s.(error := Some(CreateFailed)), NoCallback)
  }

  function IdIsNot(id: int): Conversation -> bool {
    (c: Conversation) => c.id != id
  }

  /** `deleteConversation`. A declined confirmation does nothing. A
      successful delete removes every conversation with that id, keeping the
      rest in order, and asks for a new conversation exactly when the
      deleted one was selected; a failed one only sets the error. */
  function Delete(s: Sidebar, selected: Option<int>, id: int, confirmed: bool, outcome: FetchOutcome<()>): (r: (Sidebar, Callback))
    ensures !confirmed ==> r == (s, NoCallback)
    ensures confirmed && outcome.Fetched? ==>
              && (forall c :: c in r.0.conversations <==> c in s.conversations && c.id != id)
              && (forall c :: multiset(r.0.conversations)[c] == if c.id != id then multiset(s.conversations)[c] else 0)
              && IsSubsequence(r.0.conversations, s.conversations)
              && r.0.error == s.error
    ensures confirmed && !outcome.Fetched? ==> r.0 == s.(error := Some(DeleteFailed))
    ensures r.1 == NewConversation <==> confirmed && outcome.Fetched? && selected == Some(id)
    ensures r.1 != NoCallback ==> r.1 == NewConversation
  {
    if !confirmed then (s, NoCallback)
    else match outcome
      case Fetched(_) =>
        FilterIsSubsequence(s.conversations, IdIsNot(id));
        FilterCounts(s.conversations, IdIsNot(id));
        var kept := Filter(s.conversations, IdIsNot(id));
        (s.(conversations := kept), if selected == Some(id) then NewConversation else NoCallback)
      case _ => (s.(error := Some(DeleteFailed)), NoCallback)
  }

  /** No conversation in `list` has this id. */
  predicate FreshId(list: seq<Conversation>, id: int) {
    forall k :: 0 <= k < |list| ==> list[k].id != id
  }

  /** Creating a conversation with a fresh id and then deleting it restores
      the list, and, since the create selected it, the delete asks for a new
      conversation. */
  lemma CreateThenDeleteRestores(s: Sidebar, created: Conversation)
    requires FreshId(s.conversations, created.id)
    ensures var (s1, cb1) := Create(s, Fetched(created));
            var (s2, cb2) := Delete(s1, Some(cb1.id), created.id, true, Fetched(()));
            s2.conversations == s.conversations && cb2 == NewConversation
  {
    var s1 := Create(s, Fetched(created)).0;
    assert s1.conversations == [created] + s.conversations;
    FilterAppend([created], s.conversations, IdIsNot(created.id));
    FilterKeepsAll(s.conversations, IdIsNot(created.id));
  }

  /** Deleting an id no conversation has leaves the list as it is. */
  lemma DeleteOfUnknownIdKeepsList(s: Sidebar, selected: Option<int>, id: int)
    requires FreshId(s.conversations, id)
    ensures Delete(s, selected, id, true, Fetched(())).0.conversations == s.conversations
  {
    FilterKeepsAll(s.conversations, IdIsNot(id));
  }

  /** `truncateTitle` with the default limit of 30. */
  function TruncateTitle(title: string): (r: string)
    ensures |title| <= MaxTitleLength ==> r == title
    ensures |title| > MaxTitleLength ==> |r| == MaxTitleLength + 3 && r[..MaxTitleLength] == title[..MaxTitleLength]
                                         && r[MaxTitleLength..] == "..."
  {
    if |title| > MaxTitleLength then title[..MaxTitleLength] + "..." else title
  }

  /** A displayed title is at most 33 characters and starts with the
      title's first (up to) 30 characters. */
  lemma TruncatedTitleShape(title: string)
    ensures |TruncateTitle(title)| <= MaxTitleLength + 3
    ensures Take(title, MaxTitleLength) <= TruncateTitle(title)
  {
  }

  /** Truncating a displayed title again changes nothing: a truncated
      title is 33 characters long and its first 30 already end where the
      cut falls. */
  lemma TruncateIdempotent(title: string)
    ensures TruncateTitle(TruncateTitle(title)) == TruncateTitle(title)
  {
    if |title| > MaxTitleLength {
      var r := TruncateTitle(title);
      assert r[..MaxTitleLength] + "..." == r;
    }
  }

  /** The footer: `n conversation` for one, `n conversations` otherwise,
      zero included. */
  function Footer(s: Sidebar): string {
    CountLabel(|s.conversations|, "conversation")
  }

  /** The badge under a conversation: shown for a positive message count and
      never pluralised by count. */
  function MessageBadge(c: Conversation): (r: Option<string>)
    ensures r.Some? <==> c.messageCount > 0
    ensures r.Some? ==>
              var digits := |NatToString(c.messageCount)|;
              && |r.value| > digits && r.value[..digits] == NatToString(c.messageCount)
              && ParseDigits(r.value[..digits]) == c.messageCount
              && r.value[digits..] == " messages"
  {
    if c.messageCount > 0 then
      var text := NatToString(c.messageCount) + " messages";
      NatToStringRoundTrip(c.messageCount);
      assert text[..|NatToString(c.messageCount)|] == NatToString(c.messageCount);
      Some(text)
    else None
  }

  /** The footer pluralises, the badge does not: a single message reads
      `1 messages`. */
  lemma SingleMessageBadge()
    ensures MessageBadge(Conversation(4, "t", 1)) == Some("1 messages")
    ensures Footer(Sidebar([Conversation(4, "t", 1)], false, None)) == "1 conversation"
  {
    assert DigitChar(1) == '1';
    assert NatToString(1) == "1";
    assert MessageBadge(Conversation(4, "t", 1)) == Some(NatToString(1) + " messages");
    assert "1" + " messages" == "1 messages";
  }
}
