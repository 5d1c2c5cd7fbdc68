/** The agent-assist console: a list of live conversations, one of them
    selected, where an agent's question is appended to the selected
    conversation and answered by the engine from that conversation's whole
    history. Every change touches only the conversation that asked. */
module AgentAssist {
  import opened Base
  import opened JsText
  import opened KnowledgeStore
  import opened ModelRegistry
  import opened ResponseEngine

  /** One line of a conversation; `from` is "user", "bot", "agent",
      "agent-assist" or "system". */
  datatype Line = Line(from: string, text: string, time: string)

  /** A live conversation. */
  datatype Conversation = Conversation(id: int, user: string, status: string, history: seq<Line>)

  /** The console: the conversations, the selected one as last copied, the
      input box and the typing indicator. */
  datatype Console = Console(
    conversations: seq<Conversation>,
    selected: Conversation,
    input: string,
    typing: bool)

  /** What a send hands to the engine, with the conversation it is for. */
  datatype AssistPending = AssistPending(conversationId: int, question: string, history: seq<HistoryEntry>)

  /** How the engine call ended: it resolved with a response, or it threw. */
  datatype Outcome = Answered(response: Response) | Threw

  const ErrorReply := "Sorry, I encountered an error."

  const FailureNotice := "Failed to get AI response."

  /** The first conversation with an identifier. */
  function FindConversation(cs: seq<Conversation>, id: int): (r: Option<Conversation>)
    ensures r.Some? ==> r.value in cs && r.value.id == id
    ensures r.None? <==> forall i :: 0 <= i < |cs| ==> cs[i].id != id
    ensures r.Some? ==> exists k :: 0 <= k < |cs| && cs[k] == r.value && forall j :: 0 <= j < k ==> cs[j].id != id
  {
    if |cs| == 0 then None
    else if cs[0].id == id then Some(cs[0])
    else
      var r := FindConversation(cs[1..], id);
      if r.Some? then
        var k :| 0 <= k < |cs[1..]| && cs[1..][k] == r.value && forall j :: 0 <= j < k ==> cs[1..][j].id != id;
        assert cs[k + 1] == r.value;
        r
      else r
  }

  /** The selection after the list changes: the current copy of the
      selected conversation, else the first conversation, else nothing. */
  function Resync(cs: seq<Conversation>, selected: Conversation): (r: Option<Conversation>)
    ensures FindConversation(cs, selected.id).Some? ==> r == FindConversation(cs, selected.id)
    ensures FindConversation(cs, selected.id).None? && |cs| > 0 ==> r == Some(cs[0])
    ensures r.None? <==> |cs| == 0
  {
    match FindConversation(cs, selected.id)
    case Some(c) => Some(c)
    case None => if |cs| > 0 then Some(cs[0]) else None
  }

  /** `line` appended to every conversation with the identifier. */
  function AppendTo(cs: seq<Conversation>, id: int, line: Line): (r: seq<Conversation>)
    ensures |r| == |cs|
    ensures forall i :: 0 <= i < |cs| && cs[i].id != id ==> r[i] == cs[i]
    ensures forall i :: 0 <= i < |cs| && cs[i].id == id ==> r[i] == cs[i].(history := cs[i].history + [line])
  {
    MapWhere(cs, (c: Conversation) => c.id == id, (c: Conversation) => c.(history := c.history + [line]))
  }

  /** A conversation line as the engine's history sees it. */
  function AsHistory(l: Line): (e: HistoryEntry)
    ensures e.from == Some(l.from) && e.text == Some(l.text)
  {
    HistoryEntry(Some(l.from), Some(l.text), None)
  }

  /** A whole conversation as history, in order. */
  function HistoryOf(lines: seq<Line>): (h: seq<HistoryEntry>)
    ensures |h| == |lines|
    ensures forall i :: 0 <= i < |h| ==> h[i] == AsHistory(lines[i])
  {
    seq(|lines|, i requires 0 <= i < |lines| => AsHistory(lines[i]))
  }

  /** The first half of a send. A blank input changes nothing. Otherwise
      the box is cleared and the question, from "agent-assist", is appended
      to the selected conversation; when that conversation is no longer in
      the list the handler stops there. Otherwise the indicator comes on and
      the engine receives the conversation's whole updated history. */
  function BeginSend(c: Console): (r: (Console, Option<AssistPending>))
    ensures IsBlank(c.input) ==> r == (c, None)
    ensures !IsBlank(c.input) ==> r.0.input == "" && r.0.selected == c.selected
    ensures !IsBlank(c.input) ==>
      r.0.conversations == AppendTo(c.conversations, c.selected.id, Line("agent-assist", c.input, "Just now"))
    ensures !IsBlank(c.input) && FindConversation(c.conversations, c.selected.id).None? ==>
      r.1.None? && r.0.typing == c.typing
    ensures !IsBlank(c.input) && FindConversation(c.conversations, c.selected.id).Some? ==>
      && r.0.typing
      && r.1 == Some(AssistPending(c.selected.id, c.input,
           HistoryOf(FindConversation(c.conversations, c.selected.id).value.history
                     + [Line("agent-assist", c.input, "Just now")])))
  {
    if IsBlank(c.input) then (c, None)
    else
      var query := Line("agent-assist", c.input, "Just now");
      var updated := AppendTo(c.conversations, c.selected.id, query);
      FindAppended(c.conversations, c.selected.id, query);
      match FindConversation(updated, c.selected.id)
      case None => (c.(input := "", conversations := updated), None)
      case Some(conv) =>
        (c.(input := "", conversations := updated, typing := true),
         Some(AssistPending(c.selected.id, c.input, HistoryOf(conv.history))))
  }

  /** Looking up an identifier after appending to it finds the first such
      conversation with the line appended. */
  lemma {:induction false} FindAppended(cs: seq<Conversation>, id: int, line: Line)
    ensures FindConversation(cs, id).None? ==> FindConversation(AppendTo(cs, id, line), id).None?
    ensures FindConversation(cs, id).Some? ==>
      FindConversation(AppendTo(cs, id, line), id)
        == Some(FindConversation(cs, id).value.(history := FindConversation(cs, id).value.history + [line]))
    decreases |cs|
  {
    if |cs| > 0 && cs[0].id != id {
      FindAppended(cs[1..], id, line);
      assert AppendTo(cs, id, line)[1..] == AppendTo(cs[1..], id, line);
    }
  }

  /** The line an outcome becomes. */
  function OutcomeLine(o: Outcome): (l: Line)
    ensures o.Answered? && o.response.Success? ==> l == Line("bot", o.response.reply, "Just now")
    ensures o.Answered? && o.response.Failure? ==> l == Line("bot", ErrorReply, "Just now")
    ensures o.Threw? ==> l == Line("system", FailureNotice, "Just now")
  {
    match o
    case Answered(Success(reply)) => Line("bot", reply, "Just now")
    case Answered(Failure(_)) => Line("bot", ErrorReply, "Just now")
    case Threw => Line("system", FailureNotice, "Just now")
  }

  /** The second half of a send: one line for the outcome, appended to the
      conversation that asked, whatever is selected now; the indicator goes
      off on every path. */
  function FinishSend(c: Console, conversationId: int, o: Outcome): (v: Console)
    ensures v.conversations == AppendTo(c.conversations, conversationId, OutcomeLine(o))
    ensures !v.typing && v.input == c.input && v.selected == c.selected
  {
    c.(conversations := AppendTo(c.conversations, conversationId, OutcomeLine(o)), typing := false)
  }

  /** The input box and the send button are enabled only with a model
      configuration that is present and marked connected. */
  predicate AssistEnabled(config: Option<Integration>) {
    config.Some? && config.value.isConnected
  }

  /** A whole send with the engine in between. While the controls are
      disabled nothing can be sent, and a blank input is ignored. */
  function SendMessage(c: Console, docs: seq<Document>, config: Option<Integration>,
                       remote: RemoteOutcome): (v: Console)
    ensures !AssistEnabled(config) || IsBlank(c.input) ==> v == c
    ensures AssistEnabled(config) && !IsBlank(c.input) ==>
      v.input == "" && |v.conversations| == |c.conversations|
    ensures forall i :: 0 <= i < |c.conversations| && c.conversations[i].id != c.selected.id ==>
      v.conversations[i] == c.conversations[i]
  {
    if !AssistEnabled(config) then c
    else
      var (started, pending) := BeginSend(c);
      match pending
      case None => started
      case Some(p) =>
        FinishSend(started, p.conversationId,
                   Answered(GetAIResponse(p.question, docs, config, p.history, remote)))
  }

  /** A send to a listed conversation appends exactly two lines to it, the
      question then the answer, and leaves the indicator off. */
  lemma SendAppendsTwoLines(c: Console, docs: seq<Document>, config: Option<Integration>,
                            remote: RemoteOutcome, k: nat)
    requires AssistEnabled(config) && !IsBlank(c.input)
    requires k < |c.conversations| && c.conversations[k].id == c.selected.id
    ensures var v := SendMessage(c, docs, config, remote);
            var before := c.conversations[k].history;
            && |v.conversations[k].history| == |before| + 2
            && v.conversations[k].history[..|before|] == before
            && v.conversations[k].history[|before|] == Line("agent-assist", c.input, "Just now")
            && v.conversations[k].history[|before| + 1].from == "bot"
            && !v.typing
  {
    var p := BeginSend(c).1.value;
    var o := Answered(GetAIResponse(p.question, docs, config, p.history, remote));
    QuestionThenOutcome(c, o, k);
    assert SendMessage(c, docs, config, remote) == FinishSend(BeginSend(c).0, c.selected.id, o);
  }

  /** Whatever the outcome, a send to a listed conversation leaves the
      question and then the outcome's line at the end of its history. */
  lemma QuestionThenOutcome(c: Console, o: Outcome, k: nat)
    requires !IsBlank(c.input)
    requires k < |c.conversations| && c.conversations[k].id == c.selected.id
    ensures BeginSend(c).1.Some? && BeginSend(c).1.value.conversationId == c.selected.id
    ensures FinishSend(BeginSend(c).0, c.selected.id, o).conversations[k].history
      == c.conversations[k].history + [Line("agent-assist", c.input, "Just now"), OutcomeLine(o)]
  {
    var query := Line("agent-assist", c.input, "Just now");
    FindAppended(c.conversations, c.selected.id, query);
    assert FindConversation(c.conversations, c.selected.id).Some?;
  }

  /** The engine sees the question as the last history line, labelled as the
      assistant, after every earlier line of the conversation. */
  lemma QuestionEndsHistory(c: Console)
    requires !IsBlank(c.input)
    requires FindConversation(c.conversations, c.selected.id).Some?
    ensures var p := BeginSend(c).1.value;
            var conv := FindConversation(c.conversations, c.selected.id).value;
            && |p.history| == |conv.history| + 1
            && HistoryLine(p.history[|conv.history|]) == "Assistant: " + c.input
  {
    var conv := FindConversation(c.conversations, c.selected.id).value;
    var p := BeginSend(c).1.value;
    assert p.history[|conv.history|] == AsHistory(Line("agent-assist", c.input, "Just now"));
    NonBlankNonEmpty(c.input);
    AssistLineLabel(c.input);
  }

  /** An "agent-assist" line with text reads as the assistant. */
  lemma AssistLineLabel(text: string)
    requires text != ""
    ensures HistoryLine(AsHistory(Line("agent-assist", text, "Just now"))) == "Assistant: " + text
  {
    assert "agent-assist"[0] != "user"[0];
  }

  /** When the operator selects another conversation while the engine is
      busy, the answer still goes to the conversation that asked. */
  lemma AnswerFollowsAsker(c: Console, other: Conversation, o: Outcome, k: nat, m: nat)
    requires !IsBlank(c.input)
    requires k < |c.conversations| && c.conversations[k].id == c.selected.id
    requires m < |c.conversations| && c.conversations[m].id == other.id && other.id != c.selected.id
    ensures var (started, pending) := BeginSend(c);
            var v := FinishSend(started.(selected := other), pending.value.conversationId, o);
            && v.conversations[k].history == c.conversations[k].history
                 + [Line("agent-assist", c.input, "Just now"), OutcomeLine(o)]
            && v.conversations[m] == c.conversations[m]
  {
    var query := Line("agent-assist", c.input, "Just now");
    FindAppended(c.conversations, c.selected.id, query);
    assert FindConversation(c.conversations, c.selected.id).Some?;
  }

  /** A thrown engine call leaves a system notice instead of a bot line. */
  lemma ThrowLeavesNotice(c: Console, id: int, k: nat)
    requires k < |c.conversations| && c.conversations[k].id == id
    ensures var v := FinishSend(c, id, Threw);
            v.conversations[k].history[|v.conversations[k].history| - 1].from == "system"
  {
  }

  // ------------------------------------------------------ connection notice

  /** What the notice slot under the input renders. */
  datatype Rendered = Nothing | ConnectPrompt

  /** The notice as written, `!llmConfig || !llmConfig.isConnected && <p>`:
      `&&` binds tighter than `||`, so with no configuration the expression
      is `true`, which renders nothing; the prompt to connect appears only
      for a configuration that is present but not connected. */
  function NoticeAsWritten(config: Option<Integration>): (r: Rendered)
    ensures r == ConnectPrompt ==> !AssistEnabled(config)
  {
    if config.None? then Nothing
    else if !config.value.isConnected then ConnectPrompt
    else Nothing
  }

  /** With no configuration at all the controls are disabled, yet the
      notice as written says nothing. */
  lemma NoticeMissingWithoutConfig()
    ensures !AssistEnabled(None) && NoticeAsWritten(None) == Nothing
  {
  }

  /** The notice as intended: the prompt to connect shows whenever the
      controls are disabled. */
  function ConnectNotice(config: Option<Integration>): (r: Rendered)
    ensures r == ConnectPrompt <==> !AssistEnabled(config)
    ensures config.Some? ==> r == NoticeAsWritten(config)
  {
    if AssistEnabled(config) then Nothing else ConnectPrompt
  }

  /** The intended notice shows exactly when an attempt to send a question
      is ignored. */
  lemma NoticeExactlyWhenSendIgnored(c: Console, docs: seq<Document>, config: Option<Integration>,
                                     remote: RemoteOutcome)
    requires !IsBlank(c.input)
    ensures ConnectNotice(config) == ConnectPrompt <==> SendMessage(c, docs, config, remote) == c
  {
    NonBlankNonEmpty(c.input);
  }
}
