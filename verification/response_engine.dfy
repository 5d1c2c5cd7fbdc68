/** The response engine: given the user's message, the knowledge documents,
    the active model configuration and recent history, produce a reply.
    With a usable configuration it asks the remote model (whose answer is an
    oracle parameter here); otherwise it scores the documents against the
    query and answers with the first two sentences of the best one. */
module ResponseEngine {
  import opened Base
  import opened JsText
  import KnowledgeStore
  import ModelRegistry

  type Document = KnowledgeStore.Document
  type Integration = ModelRegistry.Integration

  /** The reply used when nothing in the knowledge base matches. */
  const DefaultReply := "I'm not sure how to answer that. Would you like me to search the web for an answer?"

  /** The error carried by a failed remote call. */
  const RemoteFailureMessage := "Failed to get response from LLM."

  /** `{ success: true, data: { reply } }` or `{ success: false, error }`. */
  datatype Response = Success(reply: string) | Failure(error: string)

  /** What the remote chat-completion call gave back: the first choice's
      message text, or any transport, status or shape failure. */
  datatype RemoteOutcome = RemoteReply(content: string) | RemoteFailed

  /** The request the remote branch sends. */
  datatype RemoteRequest = RemoteRequest(model: string, apiKey: string, prompt: string)

  /** A history record as the engine reads it: the conversation pages use
      `from`/`text`, the widget uses `content`; absent fields are `None`. */
  datatype HistoryEntry = HistoryEntry(from: Option<string>, text: Option<string>, content: Option<string>)

  /** JavaScript truthiness of an optional string. */
  predicate Truthy(s: Option<string>) {
    s.Some? && s.value != ""
  }

  /** The remote branch is taken when there is a configuration with a truthy
      key and a truthy model name; the connection flag is not read. */
  predicate UsesRemote(config: Option<Integration>) {
    config.Some? && Truthy(config.value.apiKey) && config.value.model != ""
  }

  // ---------------------------------------------------------------- fallback

  /** Characters deleted from the query. */
  const Punctuation: set<char> := {'?', '.', ',', '!'}

  /** Lower-case, trim, then delete `?`, `.`, `,` and `!`. */
  function Normalize(message: string): (r: string)
    ensures forall i :: 0 <= i < |r| ==> r[i] !in Punctuation
  {
    RemoveChars(Trim(Lower(message)), Punctuation)
  }

  /** The search terms: the normalised query split on single spaces, so a
      doubled inner space, or a space left in front of deleted trailing
      punctuation, gives an empty term. */
  function Terms(message: string): (r: seq<string>)
    ensures |r| >= 1
  {
    Split(Normalize(message), " ")
  }

  /** What one term adds to a document's score. */
  function TermScore(doc: Document, term: string): nat {
    (if Includes(Lower(doc.title), term) then 2 else 0)
    + (if Includes(Lower(doc.content), term) then 1 else 0)
  }

  /** A document's score: the terms' contributions summed, repeats counted. */
  function Score(doc: Document, terms: seq<string>): nat
    decreases |terms|
  {
    if |terms| == 0 then 0 else TermScore(doc, terms[0]) + Score(doc, terms[1..])
  }

  /** Each document's score, in list order. */
  function Scores(docs: seq<Document>, terms: seq<string>): (r: seq<nat>)
    ensures |r| == |docs|
  {
    seq(|docs|, i requires 0 <= i < |docs| => Score(docs[i], terms))
  }

  /** The terms a text includes. */
  function Hits(text: string, terms: seq<string>): seq<string> {
    Filter(terms, (t: string) => Includes(text, t))
  }

  /** The score counts two per term found in the title and one per term
      found in the content. */
  lemma {:induction false} ScoreCountsHits(doc: Document, terms: seq<string>)
    ensures Score(doc, terms) == 2 * |Hits(Lower(doc.title), terms)| + |Hits(Lower(doc.content), terms)|
    decreases |terms|
  {
    if |terms| > 0 {
      ScoreCountsHits(doc, terms[1..]);
    }
  }

  /** The empty term is included in every string, so it adds three to every
      document. */
  lemma EmptyTermScoresThree(doc: Document)
    ensures TermScore(doc, "") == 3
  {
  }

  /** `k` is the first index with the strictly greatest positive score. */
  predicate IsFirstStrictMax(scores: seq<nat>, k: int) {
    && 0 <= k < |scores|
    && scores[k] > 0
    && (forall j :: 0 <= j < k ==> scores[j] < scores[k])
    && (forall j :: k < j < |scores| ==> scores[j] <= scores[k])
  }

  /** At most one index is the first strict maximum. */
  lemma FirstStrictMaxUnique(scores: seq<nat>, k: int, m: int)
    requires IsFirstStrictMax(scores, k) && IsFirstStrictMax(scores, m)
    ensures k == m
  {
  }

  /** The running best of the scan: a document replaces the current best
      only with a strictly higher score, starting from score 0 and no
      document. */
  function BestIndex(scores: seq<nat>): (r: Option<nat>)
    ensures r.None? <==> forall j :: 0 <= j < |scores| ==> scores[j] == 0
    ensures r.Some? ==> IsFirstStrictMax(scores, r.value)
    decreases |scores|
  {
    if |scores| == 0 then None
    else
      var n := |scores| - 1;
      var prev := BestIndex(scores[..n]);
      var high := if prev.Some? then scores[prev.value] else 0;
      if scores[n] > high then Some(n) else prev
  }

  /** The separator of the sentences kept in a fallback reply. */
  const SentenceBreak := ". "

  /** How many `". "`-separated pieces a fallback reply keeps. */
  function KeptPieces(parts: seq<string>): nat {
    if |parts| < 2 then |parts| else 2
  }

  /** The first two `". "`-separated pieces of the text, re-joined. */
  function Abridge(content: string): (r: string)
    ensures r <= content
    ensures r == content <==> |Split(content, SentenceBreak)| <= 2
    ensures !Includes(content, SentenceBreak) ==> r == content
    ensures |Split(content, SentenceBreak)| > 2 ==>
      r == Split(content, SentenceBreak)[0] + SentenceBreak + Split(content, SentenceBreak)[1]
  {
    var parts := Split(content, SentenceBreak);
    AbridgeIsPrefix(content);
    Join(parts[..KeptPieces(parts)], SentenceBreak)
  }

  /** The proof obligations of `Abridge`. */
  lemma AbridgeIsPrefix(content: string)
    ensures var parts := Split(content, SentenceBreak);
            var r := Join(parts[..KeptPieces(parts)], SentenceBreak);
            && r <= content
            && (r == content <==> |parts| <= 2)
            && (!Includes(content, SentenceBreak) ==> r == content)
            && (|parts| > 2 ==> r == parts[0] + SentenceBreak + parts[1])
  {
    var parts := Split(content, SentenceBreak);
    var k := KeptPieces(parts);
    JoinSplit(content, SentenceBreak);
    JoinPrefix(parts, SentenceBreak, k);
    if |parts| <= 2 {
      assert parts[..k] == parts;
    } else {
      assert parts[..k] == [parts[0], parts[1]];
      assert Join(parts[..k], SentenceBreak) == parts[0] + SentenceBreak + parts[1];
      assert Join(parts[1..], SentenceBreak) == parts[1] + SentenceBreak + Join(parts[2..], SentenceBreak);
    }
    if !Includes(content, SentenceBreak) && |parts| > 1 {
      IncludesInfix(parts[0], SentenceBreak, Join(parts[1..], SentenceBreak));
    }
  }

  /** The reply chosen from the documents' scores: the abridged content of
      the first document with the strictly greatest score when that score
      exceeds one, else the default reply. */
  function ReplyFromScores(docs: seq<Document>, scores: seq<nat>): (r: string)
    requires |scores| == |docs|
    ensures (forall k :: 0 <= k < |docs| ==> scores[k] <= 1) ==> r == DefaultReply
    ensures (exists k :: 0 <= k < |docs| && scores[k] > 1) ==>
      exists k :: IsFirstStrictMax(scores, k) && scores[k] > 1 && r == Abridge(docs[k].content)
  {
    if |docs| > 0 then
      match BestIndex(scores)
      case Some(b) =>
        if scores[b] > 1 then Abridge(docs[b].content)
        else
          assert forall k :: 0 <= k < |docs| ==> scores[k] <= scores[b];
          DefaultReply
      case None => DefaultReply
    else DefaultReply
  }

  /** The local fallback: the default reply for an empty knowledge base or
      when no score exceeds one; otherwise the abridged content of the first
      document with the strictly greatest score. */
  function FallbackReply(message: string, docs: seq<Document>): (r: string)
    ensures (forall k :: 0 <= k < |docs| ==> Score(docs[k], Terms(message)) <= 1) ==> r == DefaultReply
    ensures (exists k :: 0 <= k < |docs| && Score(docs[k], Terms(message)) > 1) ==>
      exists k :: IsFirstStrictMax(Scores(docs, Terms(message)), k)
                  && Scores(docs, Terms(message))[k] > 1
                  && r == Abridge(docs[k].content)
  {
    var scores := Scores(docs, Terms(message));
    assert forall k :: 0 <= k < |docs| ==> scores[k] == Score(docs[k], Terms(message));
    ReplyFromScores(docs, scores)
  }

  /** A query that normalises to nothing (say `"?"`) yields the single empty
      term, which every document matches three times over, so the first
      document answers. */
  lemma EmptyQueryPicksFirstDocument(message: string, docs: seq<Document>)
    requires Normalize(message) == ""
    requires |docs| > 0
    ensures FallbackReply(message, docs) == Abridge(docs[0].content)
  {
    var terms := Terms(message);
    assert terms == [""];
    var scores := Scores(docs, terms);
    forall k | 0 <= k < |docs| ensures scores[k] == 3 {
      assert scores[k] == Score(docs[k], [""]);
      EmptyTermScoresThree(docs[k]);
    }
    assert IsFirstStrictMax(scores, 0);
    assert scores[0] > 1;
    var k :| IsFirstStrictMax(scores, k) && scores[k] > 1 && ReplyFromScores(docs, scores) == Abridge(docs[k].content);
    FirstStrictMaxUnique(scores, k, 0);
  }

  /** Trailing spaces are trimmed away before the punctuation goes, so they
      leave no empty term. */
  lemma TrailingSpaceLeavesNoEmptyTerm()
    ensures Terms("a ") == ["a"]
  {
    assert Lower("a ") == "a ";
    assert TrimStart("a ") == "a ";
    assert "a "[..1] == "a";
    assert TrimEnd("a ") == "a";
    assert Filter("a", (c: char) => c !in Punctuation) == "a";
    assert Normalize("a ") == "a";
    assert IndexOf("a", " ") == None;
  }

  /** A space in front of trailing punctuation survives the trim and leaves
      an empty last term. */
  lemma SpaceBeforePunctuationLeavesEmptyTerm()
    ensures Terms("a ?") == ["a", ""]
  {
    SpaceBeforePunctuationNormalizes();
    TrailingSpaceSplits();
  }

  /** Splitting `"a "` on a space gives `a` and then the empty piece. */
  lemma TrailingSpaceSplits()
    ensures Split("a ", " ") == ["a", ""]
  {
    var s := "a ";
    assert s[1..] == " ";
    assert !(" " <= s) by { assert s[0] != ' '; }
    assert IndexOf(" ", " ") == Some(0);
    assert IndexOf(s, " ") == Some(1);
    SplitAtFirst(s, " ", 1);
    assert s[..1] == "a" && s[2..] == "";
    assert Split("", " ") == [""];
  }

  /** `"a ?"` normalises to `"a "`: nothing is trimmed, then `?` goes. */
  lemma SpaceBeforePunctuationNormalizes()
    ensures Normalize("a ?") == "a "
  {
    assert Lower("a ?") == "a ?";
    assert Trim("a ?") == "a ?" by {
      assert TrimStart("a ?") == "a ?";
      assert TrimEnd("a ?") == "a ?";
    }
    QuestionMarkDropped();
  }

  /** Deleting punctuation from `"a ?"` keeps `"a "`. */
  lemma QuestionMarkDropped()
    ensures RemoveChars("a ?", Punctuation) == "a "
  {
    var keep := (c: char) => c !in Punctuation;
    assert "a ?"[1..] == " ?" && " ?"[1..] == "?" && "?"[1..] == "";
    assert Filter("?", keep) == "";
    assert Filter(" ?", keep) == " ";
  }

  /** An empty term (from a doubled inner space, say) lifts every document
      above the threshold, so a non-empty knowledge base always answers
      from one of its documents. */
  lemma EmptyTermAlwaysMatches(message: string, docs: seq<Document>)
    requires "" in Terms(message)
    requires |docs| > 0
    ensures exists k :: 0 <= k < |docs| && FallbackReply(message, docs) == Abridge(docs[k].content)
  {
    var terms := Terms(message);
    var e :| 0 <= e < |terms| && terms[e] == "";
    ScoreAtLeastTerm(docs[0], terms, e);
    EmptyTermScoresThree(docs[0]);
    assert Scores(docs, terms)[0] > 1;
  }

  /** A score is at least the contribution of any one of its terms. */
  lemma {:induction false} ScoreAtLeastTerm(doc: Document, terms: seq<string>, e: nat)
    requires e < |terms|
    ensures Score(doc, terms) >= TermScore(doc, terms[e])
    decreases |terms|
  {
    if e > 0 {
      ScoreAtLeastTerm(doc, terms[1..], e - 1);
    }
  }

  // ------------------------------------------------------- prompt assembly

  /** Opening of the knowledge block when documents exist. */
  const KnowledgeHeader := "Here is the knowledge base you must use as evidence to answer the user's question.\n        ---\n        "
  /** Closing of the knowledge and history blocks. */
  const BlockFooter := "\n        ---"
  /** The knowledge block when there are no documents. */
  const NoKnowledgeNotice := "No knowledge base is available. You must rely on your general knowledge."
  /** Separator between two documents in the knowledge block. */
  const DocumentSeparator := "\n\n---\n\n"
  /** Opening of the history block. */
  const HistoryHeader := "Here is the recent conversation history for context:\n        ---\n        "

  /** One document as the prompt shows it. */
  function DocumentBlock(doc: Document): string {
    "Document Title: " + doc.title + "\nContent: " + doc.content
  }

  /** Every document's block, in the documents' order. */
  function DocumentBlocks(docs: seq<Document>): (blocks: seq<string>)
    ensures |blocks| == |docs|
    ensures forall i :: 0 <= i < |docs| ==> blocks[i] == DocumentBlock(docs[i])
  {
    seq(|docs|, i requires 0 <= i < |docs| => DocumentBlock(docs[i]))
  }

  /** The knowledge block: with no documents the fixed notice; otherwise
      the header, the documents' blocks in order separated by a rule, and
      the footer. */
  function KnowledgeContext(docs: seq<Document>): (r: string)
    ensures |docs| == 0 ==> r == NoKnowledgeNotice
    ensures |docs| > 0 ==> r == KnowledgeHeader + Join(DocumentBlocks(docs), DocumentSeparator) + BlockFooter
    ensures forall i :: 0 <= i < |docs| ==> Includes(r, DocumentBlock(docs[i]))
  {
    if |docs| == 0 then NoKnowledgeNotice
    else
      var blocks := DocumentBlocks(docs);
      var body := Join(blocks, DocumentSeparator);
      assert forall i :: 0 <= i < |docs| ==> Includes(KnowledgeHeader + body + BlockFooter, DocumentBlock(docs[i])) by {
        forall i | 0 <= i < |docs|
          ensures Includes(KnowledgeHeader + body + BlockFooter, DocumentBlock(docs[i]))
        {
          JoinIncludesPiece(blocks, DocumentSeparator, i);
          IncludesWithin(KnowledgeHeader, body, BlockFooter, blocks[i]);
        }
      }
      KnowledgeHeader + body + BlockFooter
  }

  /** The documents can be read back from the knowledge block in their
      order, provided no block runs into the rule that separates them. */
  lemma KnowledgeBlocksRecoverable(docs: seq<Document>)
    requires |docs| > 0
    requires forall i :: 0 <= i < |docs| ==> SeparatorOnlyAfter(DocumentBlock(docs[i]), DocumentSeparator)
    ensures var r := KnowledgeContext(docs);
            && |KnowledgeHeader| + |BlockFooter| <= |r|
            && Split(r[|KnowledgeHeader|..|r| - |BlockFooter|], DocumentSeparator) == DocumentBlocks(docs)
  {
    var body := Join(DocumentBlocks(docs), DocumentSeparator);
    BodyBetween(KnowledgeHeader, body, BlockFooter);
    SplitJoin(DocumentBlocks(docs), DocumentSeparator);
  }

  /** The middle of a three-part concatenation is recovered by cutting off
      the outer parts. */
  lemma BodyBetween(head: string, body: string, foot: string)
    ensures var r := head + body + foot;
            |head| + |foot| <= |r| && r[|head|..|r| - |foot|] == body
  {
  }

  /** `msg.text || msg.content`, with an absent value rendered as the
      template literal renders `undefined`. */
  function EntryText(e: HistoryEntry): string {
    if Truthy(e.text) then e.text.value
    else if e.content.Some? then e.content.value
    else "undefined"
  }

  /** One history line: `User` exactly when `from` is `"user"`, otherwise
      `Assistant`. */
  function HistoryLine(e: HistoryEntry): string {
    (if e.from == Some("user") then "User" else "Assistant") + ": " + EntryText(e)
  }

  /** Every entry's line, in the history's order. */
  function HistoryLines(history: seq<HistoryEntry>): (lines: seq<string>)
    ensures |lines| == |history|
    ensures forall i :: 0 <= i < |history| ==> lines[i] == HistoryLine(history[i])
  {
    seq(|history|, i requires 0 <= i < |history| => HistoryLine(history[i]))
  }

  /** The history block: empty for an empty history; otherwise the header,
      one line per entry in order separated by newlines, and the footer. */
  function HistoryContext(history: seq<HistoryEntry>): (r: string)
    ensures r == "" <==> |history| == 0
    ensures |history| > 0 ==> r == HistoryHeader + Join(HistoryLines(history), "\n") + BlockFooter
    ensures forall i :: 0 <= i < |history| ==> Includes(r, HistoryLine(history[i]))
  {
    if |history| == 0 then ""
    else
      var lines := HistoryLines(history);
      var body := Join(lines, "\n");
      assert forall i :: 0 <= i < |history| ==> Includes(HistoryHeader + body + BlockFooter, HistoryLine(history[i])) by {
        forall i | 0 <= i < |history|
          ensures Includes(HistoryHeader + body + BlockFooter, HistoryLine(history[i]))
        {
          JoinIncludesPiece(lines, "\n", i);
          IncludesWithin(HistoryHeader, body, BlockFooter, lines[i]);
        }
      }
      assert |HistoryHeader + body + BlockFooter| > 0;
      HistoryHeader + body + BlockFooter
  }

  /** The history can be read back from its block line by line, in order,
      provided no entry's text spans several lines. */
  lemma HistoryLinesRecoverable(history: seq<HistoryEntry>)
    requires |history| > 0
    requires forall i :: 0 <= i < |history| ==> !Includes(HistoryLine(history[i]), "\n")
    ensures var r := HistoryContext(history);
            && |HistoryHeader| + |BlockFooter| <= |r|
            && Split(r[|HistoryHeader|..|r| - |BlockFooter|], "\n") == HistoryLines(history)
  {
    var lines := HistoryLines(history);
    forall k | 0 <= k < |lines|
      ensures SeparatorOnlyAfter(lines[k], "\n")
    {
      SingleCharSeparatorClean(lines[k], "\n");
    }
    BodyBetween(HistoryHeader, Join(lines, "\n"), BlockFooter);
    SplitJoin(lines, "\n");
  }

  /** The fixed instructions that open every prompt. */
  const PromptIntro := "You are a Question Answering AI. Your task is to provide a direct and concise answer to the user's question based *only* on the provided evidence.\n\n**Process:**\n1.  **Identify the User's Question:** Read the user's question carefully.\n2.  **Find the Evidence:** Locate the specific sentence(s) in the \"Knowledge Base Context\" that contain the answer.\n3.  **Formulate the Answer:** Create a new, short answer in your own words.\n\n**CRITICAL RULES:**\n-   **DO NOT** copy and paste from the knowledge base.\n-   Your answer **MUST** be a maximum of two lines.\n-   Your answer **MUST** directly answer the question.\n-   If the knowledge base does not contain the answer, state: \"I'm sorry, I couldn't find a specific answer to that question.\"\n\n**Knowledge Base Context (Evidence):**\n"

  /** The label between the knowledge block and the history block. */
  const HistoryLabel := "\n\n**Conversation History:**\n"
  /** The gap between the history block and the question. */
  const QuestionGap := "\n\n"
  /** The closing instruction of every prompt. */
  const PromptEnding := "\n\n**Final Answer (Synthesized, 2 lines max):**"

  /** The question as the prompt quotes it. */
  function QuotedQuestion(message: string): string {
    "**User's Question:** \"" + message + "\""
  }

  /** The single user turn sent to the remote model: the instructions, then
      the knowledge block, then the history block, then the quoted question,
      each at its place and none overlapping the next. */
  function Prompt(message: string, docs: seq<Document>, history: seq<HistoryEntry>): (r: string)
    ensures PromptIntro <= r
    ensures OccursAt(r, KnowledgeContext(docs), |PromptIntro|)
    ensures OccursAt(r, HistoryContext(history), |PromptIntro| + |KnowledgeContext(docs)| + |HistoryLabel|)
    ensures OccursAt(r, QuotedQuestion(message),
              |PromptIntro| + |KnowledgeContext(docs)| + |HistoryLabel| + |HistoryContext(history)| + |QuestionGap|)
    ensures Includes(r, KnowledgeContext(docs)) && Includes(r, HistoryContext(history))
    ensures Includes(r, QuotedQuestion(message))
  {
    PromptShape(PromptIntro, KnowledgeContext(docs), HistoryLabel, HistoryContext(history),
                QuestionGap, QuotedQuestion(message), PromptEnding);
    PromptIntro + KnowledgeContext(docs) + HistoryLabel + HistoryContext(history)
      + QuestionGap + QuotedQuestion(message) + PromptEnding
  }

  /** Seven pieces run together: the first is a prefix, and the second,
      fourth and sixth sit at their offsets and are included. */
  lemma PromptShape(a: string, b: string, c: string, d: string, e: string, f: string, g: string)
    ensures var r := a + b + c + d + e + f + g;
            && a <= r
            && OccursAt(r, b, |a|)
            && OccursAt(r, d, |a| + |b| + |c|)
            && OccursAt(r, f, |a| + |b| + |c| + |d| + |e|)
            && Includes(r, b) && Includes(r, d) && Includes(r, f)
  {
    var r := a + b + c + d + e + f + g;
    assert r[..|a|] == a;
    assert r[|a|..|a| + |b|] == b;
    assert r[|a| + |b| + |c|..|a| + |b| + |c| + |d|] == d;
    assert r[|a| + |b| + |c| + |d| + |e|..|a| + |b| + |c| + |d| + |e| + |f|] == f;
    OccursAtIncludes(r, b, |a|);
    OccursAtIncludes(r, d, |a| + |b| + |c|);
    OccursAtIncludes(r, f, |a| + |b| + |c| + |d| + |e|);
  }

  /** The request of the remote branch, present exactly when that branch is
      taken; it carries the configured model and key. */
  function Request(message: string, docs: seq<Document>, config: Option<Integration>,
                   history: seq<HistoryEntry>): (r: Option<RemoteRequest>)
    ensures r.Some? <==> UsesRemote(config)
    ensures r.Some? ==> r.value.model == config.value.model && Some(r.value.apiKey) == config.value.apiKey
    ensures r.Some? ==> forall i :: 0 <= i < |docs| ==> Includes(r.value.prompt, DocumentBlock(docs[i]))
  {
    if UsesRemote(config) then
      var p := Prompt(message, docs, history);
      assert forall i :: 0 <= i < |docs| ==> Includes(p, DocumentBlock(docs[i])) by {
        forall i | 0 <= i < |docs| ensures Includes(p, DocumentBlock(docs[i])) {
          IncludesTransitive(p, KnowledgeContext(docs), DocumentBlock(docs[i]));
        }
      }
      Some(RemoteRequest(config.value.model, config.value.apiKey.value, p))
    else None
  }

  /** Inclusion is transitive. */
  lemma IncludesTransitive(a: string, b: string, c: string)
    requires Includes(a, b) && Includes(b, c)
    ensures Includes(a, c)
  {
    IncludesIffOccurs(a, b);
    var i :| 0 <= i <= |a| && b <= a[i..];
    var pre := a[..i];
    var post := a[i + |b|..];
    assert a == pre + b + post by {
      assert a[i..] == b + post;
    }
    IncludesWithin(pre, b, post, c);
  }

  // -------------------------------------------------------------- the engine

  /** The engine. `remote` is what the remote call would return; it is
      consulted only on the remote branch. */
  function GetAIResponse(message: string, docs: seq<Document>, config: Option<Integration>,
                         history: seq<HistoryEntry>, remote: RemoteOutcome): (r: Response)
    ensures !UsesRemote(config) ==> r == Success(FallbackReply(message, docs))
    ensures r.Failure? <==> UsesRemote(config) && remote.RemoteFailed?
    ensures r.Failure? ==> r.error == RemoteFailureMessage
    ensures UsesRemote(config) && remote.RemoteReply? ==>
      r.Success? && r.reply != "" && (r.reply == Trim(remote.content) || (r.reply == DefaultReply && IsBlank(remote.content)))
  {
    if UsesRemote(config) then
      match remote
      case RemoteReply(content) =>
        var reply := Trim(content);
        Success(if reply == "" then DefaultReply else reply)
      case RemoteFailed => Failure(RemoteFailureMessage)
    else Success(FallbackReply(message, docs))
  }

  /** The engine does not read the connection flag: a configuration with a
      key and a model takes the remote branch whether or not it is marked
      connected. */
  lemma ConnectionFlagIgnored(message: string, docs: seq<Document>, config: Integration, flag: bool,
                              history: seq<HistoryEntry>, remote: RemoteOutcome)
    ensures GetAIResponse(message, docs, Some(config.(isConnected := flag)), history, remote)
         == GetAIResponse(message, docs, Some(config), history, remote)
  {
  }

  /** Concrete case: with no documents and no model, any query gets the
      default reply. */
  lemma EmptyKnowledgeDefault(message: string, history: seq<HistoryEntry>, remote: RemoteOutcome)
    ensures GetAIResponse(message, [], None, history, remote) == Success(DefaultReply)
  {
  }
}
