/** The agent's reply record shared by the two ticket screens. */
module TicketMessages {
  /** One message of a ticket thread. */
  datatype TicketMessage = TicketMessage(sender: string, text: string, time: string, isUser: bool, seen: bool)

  /** What an agent's send adds: from "A", the agent's own, unseen, just now;
      the text exactly as typed. */
  function AgentReply(text: string): (m: TicketMessage)
    ensures m.sender == "A" && m.isUser && !m.seen && m.time == "Just now" && m.text == text
  {
    TicketMessage("A", text, "Just now", true, false)
  }
}

/** The internal-ticket screen: one thread per conversation, kept in a map
    from conversation identifier to its messages. */
module InternalTickets {
  import opened Base
  import opened JsText
  import opened TicketMessages

  /** The screen: the threads, the open conversation (absent or zero means
      none is open) and the input box. */
  datatype Board = Board(threads: map<int, seq<TicketMessage>>, active: Option<int>, input: string)

  /** The threads the screen starts from: conversation 2 has two messages. */
  const InitialThreads: map<int, seq<TicketMessage>> := map[2 := [
    TicketMessage("E", "Let's sync up on the final features for the Q4 launch. I've attached the latest spec doc.", "4h", false, true),
    TicketMessage("A", "Thanks! Taking a look now. I have a few questions about the new analytics dashboard.", "3h", true, true)]]

  /** The board as it opens, on conversation 2. */
  function InitialBoard(): (b: Board)
    ensures b.active == Some(2) && 2 in b.threads && |b.threads[2]| == 2 && b.input == ""
  {
    Board(InitialThreads, Some(2), "")
  }

  /** Whether a conversation is open: the identifier is present and not 0. */
  predicate HasActive(b: Board) {
    b.active.Some? && b.active.value != 0
  }

  /** The messages under a key, none when the key is absent. */
  function ThreadOf(threads: map<int, seq<TicketMessage>>, key: int): seq<TicketMessage> {
    if key in threads then threads[key] else []
  }

  /** Send: with a non-blank input and an open conversation, the reply goes
      at the end of that conversation's thread (started when absent) and
      the box clears; otherwise nothing changes. */
  function SendMessage(b: Board): (v: Board)
    ensures IsBlank(b.input) || !HasActive(b) ==> v == b
    ensures !IsBlank(b.input) && HasActive(b) ==>
      && v.input == "" && v.active == b.active
      && v.threads.Keys == b.threads.Keys + {b.active.value}
      && v.threads[b.active.value] == ThreadOf(b.threads, b.active.value) + [AgentReply(b.input)]
      && forall k :: k in b.threads && k != b.active.value ==> k in v.threads && v.threads[k] == b.threads[k]
  {
    if !IsBlank(b.input) && HasActive(b) then
      var key := b.active.value;
      b.(threads := b.threads[key := ThreadOf(b.threads, key) + [AgentReply(b.input)]], input := "")
    else b
  }

  /** Two sends to the same conversation land in order at the end of its
      thread. */
  lemma TwoSendsInOrder(b: Board, first: string, second: string)
    requires !IsBlank(first) && !IsBlank(second) && HasActive(b)
    ensures var once := SendMessage(b.(input := first));
            var twice := SendMessage(once.(input := second));
            twice.threads[b.active.value]
              == ThreadOf(b.threads, b.active.value) + [AgentReply(first), AgentReply(second)]
  {
  }

  /** Conversation 0 is never written to: it counts as none open. */
  lemma ZeroIsNoConversation(b: Board)
    requires b.active == Some(0)
    ensures SendMessage(b) == b
  {
  }
}

/** The all-tickets screen: a single thread shown whichever conversation is
    selected, with an AI summary card under conversation 1 while the thread
    still holds only the customer's first message. */
module AllTickets {
  import opened JsText
  import opened TicketMessages

  /** The screen: the selected conversation, the thread and the input box. */
  datatype Screen = Screen(selected: int, log: seq<TicketMessage>, input: string)

  /** The thread the screen starts from: the customer's one message. */
  const InitialLog: seq<TicketMessage> := [
    TicketMessage("S", "I still can't log in, can someone please help me? This is urgent.", "2h", false, false)]

  /** The screen as it opens, on conversation 1. */
  function InitialScreen(): (s: Screen)
    ensures s.selected == 1 && |s.log| == 1 && s.input == ""
  {
    Screen(1, InitialLog, "")
  }

  /** Send: with a non-blank input, the reply goes at the end of the thread
      and the box clears; otherwise nothing changes. */
  function SendMessage(s: Screen): (v: Screen)
    ensures IsBlank(s.input) ==> v == s
    ensures !IsBlank(s.input) ==>
      && v.log == s.log + [AgentReply(s.input)] && v.input == "" && v.selected == s.selected
  {
    if IsBlank(s.input) then s else s.(log := s.log + [AgentReply(s.input)], input := "")
  }

  /** Selecting a conversation changes only the selection: the thread is the
      same for all of them. */
  function Select(s: Screen, id: int): (v: Screen)
    ensures v.selected == id && v.log == s.log && v.input == s.input
  {
    s.(selected := id)
  }

  /** Whether the AI summary card shows. */
  predicate ShowsAiSummary(s: Screen) {
    s.selected == 1 && |s.log| == 1
  }

  /** The card shows on the opening screen. */
  lemma SummaryShownAtStart()
    ensures ShowsAiSummary(InitialScreen())
  {
  }

  /** The thread never shrinks, so once a reply has been sent from a
      one-message thread the card never returns, whatever is selected
      or sent afterwards. */
  lemma SummaryGoneAfterReply(s: Screen, later: seq<(bool, int)>)
    requires |s.log| >= 1 && !IsBlank(s.input)
    ensures !ShowsAiSummary(Replay(SendMessage(s), later))
  {
    ReplayKeepsLength(SendMessage(s), later);
  }

  /** A run of later events: `(true, _)` sends the box's current text,
      `(false, id)` selects `id`. */
  function Replay(s: Screen, events: seq<(bool, int)>): (v: Screen)
    decreases |events|
  {
    if |events| == 0 then s
    else Replay(if events[0].0 then SendMessage(s) else Select(s, events[0].1), events[1..])
  }

  /** Replaying never shortens the thread. */
  lemma {:induction false} ReplayKeepsLength(s: Screen, events: seq<(bool, int)>)
    ensures |Replay(s, events).log| >= |s.log|
    decreases |events|
  {
    if |events| > 0 {
      ReplayKeepsLength(if events[0].0 then SendMessage(s) else Select(s, events[0].1), events[1..]);
    }
  }
}
