/** The customer-facing chat widget: a message log that a send extends by
    the customer's message and then exactly one bot message, with delete,
    edit and participant invitation on the side. The engine's answer is
    awaited between the two halves of a send. */
module ChatbotWidget {
  import opened Base
  import opened JsText
  import opened KnowledgeStore
  import opened ModelRegistry
  import opened ResponseEngine

  /** Who a log entry is from (the message's `type`). */
  datatype Author = UserAuthor | BotAuthor | SystemAuthor

  /** One log entry. */
  datatype ChatMessage = ChatMessage(id: int, author: Author, content: string, edited: bool)

  /** Someone invited into the chat. */
  datatype Participant = Participant(id: int, name: string)

  /** The widget's state: the log, the input box, the typing indicator,
      the participants, and the message being edited with its draft. */
  datatype Widget = Widget(
    messages: seq<ChatMessage>,
    input: string,
    typing: bool,
    participants: seq<Participant>,
    editing: Option<ChatMessage>,
    editingText: string)

  /** What a send hands to the engine while the widget waits. */
  datatype Pending = Pending(question: string, history: seq<HistoryEntry>)

  /** How many of the latest log entries go with a question. */
  const HistoryWindow := 5

  const Greeting := "Hello! I'm your AI assistant. How can I help you today?"

  const Apology := "Sorry, I'm having trouble connecting. Please try again later."

  /** The log at start-up: the session's stored log if there is one, else
      the greeting alone. */
  function InitialLog(stored: Option<seq<ChatMessage>>): (r: seq<ChatMessage>)
    ensures stored.Some? ==> r == stored.value
    ensures stored.None? ==> r == [ChatMessage(1, BotAuthor, Greeting, false)]
  {
    match stored
    case Some(log) => log
    case None => [ChatMessage(1, BotAuthor, Greeting, false)]
  }

  /** The widget as it opens. */
  function Open(stored: Option<seq<ChatMessage>>): (w: Widget)
    ensures w.messages == InitialLog(stored) && !w.typing && w.input == ""
    ensures w.participants == [] && w.editing.None?
  {
    Widget(InitialLog(stored), "", false, [], None, "")
  }

  /** A log entry as the engine's history sees it: it has no `from` and no
      `text`, only `content`. */
  function AsHistory(m: ChatMessage): (e: HistoryEntry)
    ensures e.content == Some(m.content)
  {
    HistoryEntry(None, None, Some(m.content))
  }

  /** The history window sent with a question. */
  function Window(log: seq<ChatMessage>): (h: seq<HistoryEntry>)
    ensures |h| == if |log| < HistoryWindow then |log| else HistoryWindow
    ensures forall i :: 0 <= i < |h| ==> h[i] == AsHistory(log[|log| - |h| + i])
  {
    var n := if |log| < HistoryWindow then |log| else HistoryWindow;
    seq(n, i requires 0 <= i < n => AsHistory(log[|log| - n + i]))
  }

  /** The first half of a send. A blank input changes nothing and asks
      nothing. Otherwise the input, untrimmed, is appended as the
      customer's message, the box is cleared, the typing indicator comes on,
      and the question goes out with the last five entries, the new one
      included. */
  function BeginSend(w: Widget, freshId: int): (r: (Widget, Option<Pending>))
    ensures IsBlank(w.input) ==> r == (w, None)
    ensures !IsBlank(w.input) ==>
      && r.0.messages == w.messages + [ChatMessage(freshId, UserAuthor, w.input, false)]
      && r.0.input == "" && r.0.typing
      && r.0.participants == w.participants && r.0.editing == w.editing
      && r.1 == Some(Pending(w.input, Window(r.0.messages)))
  {
    if IsBlank(w.input) then (w, None)
    else
      var log := w.messages + [ChatMessage(freshId, UserAuthor, w.input, false)];
      (w.(messages := log, input := "", typing := true), Some(Pending(w.input, Window(log))))
  }

  /** The second half of a send: exactly one bot message, the reply on
      success and the apology otherwise, appended to the log as it now
      stands; the typing indicator goes off whatever the outcome. */
  function FinishSend(w: Widget, response: Response, replyId: int): (v: Widget)
    ensures v.messages == w.messages + [ChatMessage(replyId, BotAuthor,
      if response.Success? then response.reply else Apology, false)]
    ensures !v.typing
    ensures v.input == w.input && v.participants == w.participants && v.editing == w.editing
  {
    var content := match response
      case Success(reply) => reply
      case Failure(_) => Apology;
    w.(messages := w.messages + [ChatMessage(replyId, BotAuthor, content, false)], typing := false)
  }

  /** A whole send with the engine in between; `remote` is what the remote
      model would answer. */
  function SendMessage(w: Widget, freshId: int, replyId: int, docs: seq<Document>,
                       config: Option<Integration>, remote: RemoteOutcome): (v: Widget)
    ensures IsBlank(w.input) ==> v == w
    ensures !IsBlank(w.input) ==>
      && |v.messages| == |w.messages| + 2
      && v.messages[..|w.messages|] == w.messages
      && v.messages[|w.messages|] == ChatMessage(freshId, UserAuthor, w.input, false)
      && v.messages[|w.messages| + 1].author == BotAuthor
      && !v.typing && v.input == ""
  {
    var (started, pending) := BeginSend(w, freshId);
    match pending
    case None => started
    case Some(p) =>
      var response := GetAIResponse(p.question, docs, config, p.history, remote);
      var v := FinishSend(started, response, replyId);
      AppendTwo(w.messages, ChatMessage(freshId, UserAuthor, w.input, false),
                ChatMessage(replyId, BotAuthor, if response.Success? then response.reply else Apology, false));
      v
  }

  /** The bot's message after a send is what the engine answered for the
      untrimmed input and the window: the local fallback reply when no
      model is configured, the apology exactly when the remote call fails. */
  lemma SendReplyContent(w: Widget, freshId: int, replyId: int, docs: seq<Document>,
                         config: Option<Integration>, remote: RemoteOutcome)
    requires !IsBlank(w.input)
    ensures var v := SendMessage(w, freshId, replyId, docs, config, remote);
            var bot := v.messages[|w.messages| + 1];
            && bot.id == replyId
            && (!UsesRemote(config) ==> bot.content == FallbackReply(w.input, docs))
            && (UsesRemote(config) && remote.RemoteFailed? ==> bot.content == Apology)
            && (UsesRemote(config) && remote.RemoteReply? ==>
                  bot.content == (if IsBlank(remote.content) then DefaultReply else Trim(remote.content)))
  {
  }

  /** Every entry of the window reads as the assistant speaking: the widget's
      entries carry no `from`, so even the customer's own words are labelled
      `Assistant` in the prompt. */
  lemma WindowReadsAsAssistant(log: seq<ChatMessage>)
    ensures forall i :: 0 <= i < |Window(log)| ==>
      HistoryLine(Window(log)[i]) == "Assistant: " + log[|log| - |Window(log)| + i].content
  {
  }

  /** The window of a send ends with the new message and holds at most five
      entries. */
  lemma WindowEndsWithQuestion(w: Widget, freshId: int)
    requires !IsBlank(w.input)
    ensures var p := BeginSend(w, freshId).1.value;
            && 1 <= |p.history| <= HistoryWindow
            && p.history[|p.history| - 1] == HistoryEntry(None, None, Some(w.input))
  {
  }

  /** Delete drops every entry with the identifier. */
  function DeleteMessage(w: Widget, id: int): (v: Widget)
    ensures forall i :: 0 <= i < |v.messages| ==> v.messages[i].id != id
    ensures IsSubsequence(v.messages, w.messages)
    ensures forall m :: multiset(v.messages)[m] == if m.id != id then multiset(w.messages)[m] else 0
    ensures v.input == w.input && v.typing == w.typing && v.participants == w.participants
  {
    FilterIsSubsequence(w.messages, (m: ChatMessage) => m.id != id);
    FilterCounts(w.messages, (m: ChatMessage) => m.id != id);
    w.(messages := Filter(w.messages, (m: ChatMessage) => m.id != id))
  }

  /** Deleting keeps exactly the entries with other identifiers. */
  lemma DeleteKeepsOthers(w: Widget, id: int, m: ChatMessage)
    ensures m in DeleteMessage(w, id).messages <==> m in w.messages && m.id != id
  {
    FilterMembership(w.messages, (x: ChatMessage) => x.id != id, m);
  }

  /** Deleting twice is deleting once. */
  lemma DeleteIdempotent(w: Widget, id: int)
    ensures DeleteMessage(DeleteMessage(w, id), id) == DeleteMessage(w, id)
  {
    FilterIdempotent(w.messages, (m: ChatMessage) => m.id != id);
  }

  /** Opening an entry for edit: its content becomes the draft. */
  function EditMessage(w: Widget, m: ChatMessage): (v: Widget)
    ensures v.editing == Some(m) && v.editingText == m.content && v.messages == w.messages
  {
    w.(editing := Some(m), editingText := m.content)
  }

  /** Saving the draft: every entry with the edited entry's identifier gets
      the draft as content and is marked edited; the edit state clears.
      Without an entry under edit the handler fails before changing
      anything. */
  function SaveEdit(w: Widget): (v: Widget)
    ensures w.editing.None? ==> v == w
    ensures w.editing.Some? ==> v.editing.None? && v.editingText == "" && |v.messages| == |w.messages|
  {
    match w.editing
    case None => w
    case Some(e) =>
      var text := w.editingText;
      w.(messages := MapWhere(w.messages, (m: ChatMessage) => m.id == e.id,
                              (m: ChatMessage) => m.(content := text, edited := true)),
         editing := None, editingText := "")
  }

  /** The entry kinds the log offers edit and delete on. */
  predicate OffersEditing(m: ChatMessage) {
    m.author == UserAuthor || m.author == BotAuthor
  }

  /** Save-edit rewrites exactly the entries sharing the identifier, keeps
      their author and identifier, and leaves the rest alone. It does not
      look at the author: a system entry opened for edit is rewritten too,
      although the log never offers that. */
  lemma SaveEditRewritesMatching(w: Widget, m: ChatMessage, text: string)
    ensures var v := SaveEdit(EditMessage(w, m).(editingText := text));
            && |v.messages| == |w.messages|
            && (forall i :: 0 <= i < |w.messages| && w.messages[i].id == m.id ==>
                  v.messages[i] == w.messages[i].(content := text, edited := true))
            && (forall i :: 0 <= i < |w.messages| && w.messages[i].id != m.id ==>
                  v.messages[i] == w.messages[i])
  {
  }

  /** A system entry that the handler is given is edited like any other. */
  lemma SystemEntryEditable(w: Widget, id: int, text: string)
    requires |w.messages| > 0 && w.messages[0] == ChatMessage(id, SystemAuthor, "joined", false)
    ensures !OffersEditing(w.messages[0])
    ensures SaveEdit(EditMessage(w, w.messages[0]).(editingText := text)).messages[0]
         == ChatMessage(id, SystemAuthor, text, true)
  {
  }

  /** Whether a participant with that identifier is already in the chat. */
  predicate HasParticipant(ps: seq<Participant>, id: int) {
    exists i :: 0 <= i < |ps| && ps[i].id == id
  }

  /** Inviting someone: already present changes nothing; otherwise they
      join and one system entry announces it. */
  function AddParticipant(w: Widget, userName: string, invited: Participant, freshId: int): (v: Widget)
    ensures HasParticipant(w.participants, invited.id) ==> v == w
    ensures !HasParticipant(w.participants, invited.id) ==>
      && v.participants == w.participants + [invited]
      && v.messages == w.messages
           + [ChatMessage(freshId, SystemAuthor, userName + " added " + invited.name + " to the chat.", false)]
    ensures v.input == w.input && v.typing == w.typing
  {
    if HasParticipant(w.participants, invited.id) then w
    else
      w.(participants := w.participants + [invited],
         messages := w.messages
           + [ChatMessage(freshId, SystemAuthor, userName + " added " + invited.name + " to the chat.", false)])
  }

  /** No two participants share an identifier. */
  predicate DistinctParticipants(ps: seq<Participant>) {
    forall i, j :: 0 <= i < j < |ps| ==> ps[i].id != ps[j].id
  }

  /** Invitations keep the participants distinct. */
  lemma AddKeepsParticipantsDistinct(w: Widget, userName: string, invited: Participant, freshId: int)
    requires DistinctParticipants(w.participants)
    ensures DistinctParticipants(AddParticipant(w, userName, invited, freshId).participants)
  {
  }

  /** Inviting the same person again is a no-op, whatever identifier the
      second announcement would have had. */
  lemma AddParticipantIdempotent(w: Widget, userName: string, invited: Participant, id1: int, id2: int)
    ensures var once := AddParticipant(w, userName, invited, id1);
            AddParticipant(once, userName, invited, id2) == once
  {
    var once := AddParticipant(w, userName, invited, id1);
    if !HasParticipant(w.participants, invited.id) {
      assert once.participants[|w.participants|] == invited;
    }
  }
}
