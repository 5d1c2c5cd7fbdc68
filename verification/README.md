# Help-desk core, modelled in Dafny

This project models the state logic of a help-desk web application and
proves properties about it. The application is a React front end with a
chat widget for customers and an agent console. The model covers the
parts under the presentation layer: pure operations over immutable
sequences, maps and records.

- **Response engine** (`ResponseEngine`). It answers a question either
  remotely or locally. The remote branch is taken when the active model
  configuration has a key and a model name. The remote answer is a
  parameter: a reply text or a failure. The local fallback lower-cases and
  trims the query, deletes `? . , !` and splits on single spaces. It scores
  each knowledge document 2 per term found in its title and 1 per term
  found in its content. It picks the first document with the strictly
  greatest score, answers with that document's first two `". "`-separated
  sentences when the score exceeds 1, and otherwise gives a fixed default
  reply. The engine also assembles the remote prompt: a knowledge block, a
  history block and the question.
- **JavaScript string primitives** (`JsText`). The code relies on `trim`,
  `toLowerCase`, `includes`, `split` and `join`. These are written out over
  `seq<char>`. The round trip `join(split(s, sep), sep) == s` is proved, and
  so is its converse for pieces that do not run into the separator.
- **Knowledge store** (`KnowledgeStore`). It holds four seeded documents.
  Add puts the new document in front, update replaces by identifier, and
  delete filters by identifier.
- **Knowledge-base screen** (`KnowledgeBasePage`). It has the
  case-insensitive search filter and the view state machine: list, add-type
  chooser, add form, edit form.
- **Add form** (`KnowledgeAddForm`). It derives the title from a file name
  without its extension, sets a fixed title for URLs, maps the add type to a
  source label and refuses to save without a title.
- **Model registry** (`ModelRegistry`). Connect, disconnect, add and the
  choice of the active model. The invariant proved is that a key is present
  exactly when the integration is connected, identifiers are unique, and the
  active identifier is absent or names a connected integration. Add, connect
  and disconnect preserve it; the raw setter does not.
- **Integrations screen** (`IntegrationsPage`). The key and field guards in
  front of the registry, and which controls each card offers.
- **Chat widget** (`ChatbotWidget`). A send appends the customer's message,
  then exactly one bot message, with a five-message history window. It also
  covers delete, edit and inviting participants.
- **Agent-assist console** (`AgentAssist`). A question is appended to the
  selected conversation and answered from that conversation's whole
  history. Other conversations are never touched.
- **Ticket screens** (`TicketMessages`, `InternalTickets`, `AllTickets`).
  Per-conversation threads in a map, a single shared thread, and when the
  AI summary card shows.
- **Agent roster** (`AgentRoster`). Preview gates, an invitation that adds
  the agent only when the mail service accepts, and replace-by-id update.
- **Listener registry** (`ListenerRegistry`). The service wrapper's
  `on`/`off`/`emit`/`close`, one-time initialisation, and the guards that
  throw without a client.

Async handlers are split into a `Begin…` half and a `Finish…` half. The
`Begin…` half produces the request and the state visible while waiting.
The `Finish…` half takes the awaited outcome as a parameter. A composed
function runs both halves with the engine in between. Clocks, random
identifiers and storage are parameters too: a fresh identifier, today's
date, and an optional stored value.

Some behaviours of the code are modelled as they are written, and the
model proves them:

- The chat widget's messages carry `type`/`content` rather than
  `from`/`text`. In the prompt, every line of the widget's history is
  therefore labelled `Assistant`, including the customer's own words.
- A query with a doubled inner space, or a space left in front of trailing
  `?`, `.`, `,` or `!`, yields an empty term. Trailing spaces alone do not,
  because the query is trimmed before the punctuation is deleted. The empty
  term matches every title and every content, so it adds 3 to every
  document's score.
- The remote branch never reads the integration's connection flag.
- Save-edit in the widget does not check the message's author.

## Model

| member | source | states |
|---|---|---|
| JsText.BlankIffAllWhitespace | horizons-export-8b612b00-c029-430b-a531-9d514ca3b700/src/components/ChatbotWidget.jsx:54 | The `!s.trim()` guard rejects exactly the inputs made entirely of ECMAScript whitespace and line terminators, including the empty input. |
| JsText.IncludesIffOccurs | horizons-export-8b612b00-c029-430b-a531-9d514ca3b700/src/api/mock-ai.js:78-79 | The recursive `includes` agrees with the positional reading: the term starts at some index of the text. |
| JsText.IndexOf | horizons-export-8b612b00-c029-430b-a531-9d514ca3b700/src/api/mock-ai.js:89 | The index found is an occurrence of the separator with no earlier occurrence. When nothing is found, the separator starts at no index. |
| JsText.JoinSplit | horizons-export-8b612b00-c029-430b-a531-9d514ca3b700/src/api/mock-ai.js:89-90 | Splitting on a non-empty separator and joining with it gives back the original text. |
| JsText.SplitJoin | horizons-export-8b612b00-c029-430b-a531-9d514ca3b700/src/api/mock-ai.js:10 | Joining pieces with a separator and splitting on it gives back the pieces. This holds when no piece, even followed by the separator, has the separator starting inside it. |
| JsText.SplitPiecesAvoidSeparator | horizons-export-8b612b00-c029-430b-a531-9d514ca3b700/src/api/mock-ai.js:76 | No piece produced by `split` contains the separator. |
| JsText.JoinIncludesPiece | horizons-export-8b612b00-c029-430b-a531-9d514ca3b700/src/api/mock-ai.js:10 | Every piece joined into a string occurs inside it. |
| ResponseEngine.ConnectionFlagIgnored | horizons-export-8b612b00-c029-430b-a531-9d514ca3b700/src/api/mock-ai.js:6 | Flipping the configuration's connection flag never changes the engine's answer: the branch depends only on a truthy key and model. |
| ResponseEngine.Normalize | horizons-export-8b612b00-c029-430b-a531-9d514ca3b700/src/api/mock-ai.js:65 | The normalised query contains none of `?`, `.`, `,`, `!`. |
| ResponseEngine.Terms | horizons-export-8b612b00-c029-430b-a531-9d514ca3b700/src/api/mock-ai.js:76 | Splitting the normalised query always yields at least one term, possibly the empty one. |
| ResponseEngine.ScoreCountsHits | horizons-export-8b612b00-c029-430b-a531-9d514ca3b700/src/api/mock-ai.js:72-80 | A document's score is twice the number of terms, repeats counted, found in its lower-cased title plus the number found in its lower-cased content. |
| ResponseEngine.EmptyTermScoresThree | horizons-export-8b612b00-c029-430b-a531-9d514ca3b700/src/api/mock-ai.js:77-79 | The empty term adds 3 to every document. |
| ResponseEngine.TrailingSpaceLeavesNoEmptyTerm | horizons-export-8b612b00-c029-430b-a531-9d514ca3b700/src/api/mock-ai.js:65-76 | The query is trimmed before punctuation is deleted, so `"a "` gives the single term `a`. |
| ResponseEngine.SpaceBeforePunctuationLeavesEmptyTerm | horizons-export-8b612b00-c029-430b-a531-9d514ca3b700/src/api/mock-ai.js:65-76 | A space in front of trailing punctuation survives: `"a ?"` gives the terms `a` and the empty term. |
| ResponseEngine.ScoreAtLeastTerm | horizons-export-8b612b00-c029-430b-a531-9d514ca3b700/src/api/mock-ai.js:77-80 | A document's score is at least any single term's contribution. |
| ResponseEngine.FirstStrictMaxUnique | horizons-export-8b612b00-c029-430b-a531-9d514ca3b700/src/api/mock-ai.js:81-84 | The scan's selection rule picks at most one document: the first strict maximum is unique. |
| ResponseEngine.BestIndex | horizons-export-8b612b00-c029-430b-a531-9d514ca3b700/src/api/mock-ai.js:69-85 | The scan finds no document exactly when every score is 0. Otherwise it finds the first index whose score is strictly above all earlier ones and at least all later ones, so ties go to the earlier document. |
| ResponseEngine.Abridge | horizons-export-8b612b00-c029-430b-a531-9d514ca3b700/src/api/mock-ai.js:89-90 | The abridged reply is a prefix of the content. It equals the content exactly when the content has at most two `". "`-pieces, and content without `". "` comes back whole. With three or more pieces it is exactly the first piece, `". "`, and the second piece. |
| ResponseEngine.ReplyFromScores | horizons-export-8b612b00-c029-430b-a531-9d514ca3b700/src/api/mock-ai.js:87-95 | If no score exceeds 1 the reply is the default. Otherwise it is the abridged content of the first strict-maximum document, whose score exceeds 1. |
| ResponseEngine.FallbackReply | horizons-export-8b612b00-c029-430b-a531-9d514ca3b700/src/api/mock-ai.js:64-95 | The same threshold rule stated over the documents' scores for the query's terms. An empty knowledge base gives the default reply. |
| ResponseEngine.EmptyQueryPicksFirstDocument | horizons-export-8b612b00-c029-430b-a531-9d514ca3b700/src/api/mock-ai.js:65-91 | A query that normalises to nothing (such as `?`) always answers from the first document. |
| ResponseEngine.EmptyTermAlwaysMatches | horizons-export-8b612b00-c029-430b-a531-9d514ca3b700/src/api/mock-ai.js:76-91 | When the terms include the empty one, a non-empty knowledge base always answers from one of its documents, never with the default reply. |
| ResponseEngine.KnowledgeContext | horizons-export-8b612b00-c029-430b-a531-9d514ca3b700/src/api/mock-ai.js:7-12 | With no documents the block is the fixed notice. Otherwise it is the header, then every document's `Document Title: … Content: …` block in order with the `---` rule between blocks, then the footer. Each block occurs in it. |
| ResponseEngine.KnowledgeBlocksRecoverable | horizons-export-8b612b00-c029-430b-a531-9d514ca3b700/src/api/mock-ai.js:8-11 | Cutting off the header and footer and splitting on the rule gives back every document's block in order. This holds when no block runs into the rule. |
| ResponseEngine.HistoryContext | horizons-export-8b612b00-c029-430b-a531-9d514ca3b700/src/api/mock-ai.js:14-19 | The history block is empty exactly when the history is. Otherwise it is the header, then one labelled line per entry in order separated by newlines, then the footer. Each line occurs in it. |
| ResponseEngine.HistoryLinesRecoverable | horizons-export-8b612b00-c029-430b-a531-9d514ca3b700/src/api/mock-ai.js:15-18 | Cutting off the header and footer and splitting on newlines gives back every entry's line in order. This holds when no entry's text spans several lines. |
| ResponseEngine.Prompt | horizons-export-8b612b00-c029-430b-a531-9d514ca3b700/src/api/mock-ai.js:21-42 | The prompt opens with the fixed instructions. The knowledge block follows them directly. After the history label comes the history block, and after a blank line the quoted question, each at its exact offset. Every block is included, so knowledge precedes history, which precedes the question. |
| ResponseEngine.Request | horizons-export-8b612b00-c029-430b-a531-9d514ca3b700/src/api/mock-ai.js:44-53 | A request is made exactly when the remote branch is taken. It carries the configured model and key, and its prompt contains every document. |
| ResponseEngine.GetAIResponse | horizons-export-8b612b00-c029-430b-a531-9d514ca3b700/src/api/mock-ai.js:5-96 | Without a usable configuration the engine succeeds with the fallback reply. It fails exactly when the remote call fails, and then with the fixed message. A remote reply gives a non-empty answer: the trimmed text, or the default reply when the text is blank. |
| ResponseEngine.EmptyKnowledgeDefault | horizons-export-8b612b00-c029-430b-a531-9d514ca3b700/src/api/mock-ai.js:68-95 | With no documents and no model, every query succeeds with the default reply. |
| KnowledgeStore.Hydrate | horizons-export-8b612b00-c029-430b-a531-9d514ca3b700/src/contexts/KnowledgeBaseContext.jsx:41-51 | A stored list is used as is. Without one, the store holds the four seeded documents with identifiers 1 to 4. |
| KnowledgeStore.AddDocument | horizons-export-8b612b00-c029-430b-a531-9d514ca3b700/src/contexts/KnowledgeBaseContext.jsx:61-67 | The list grows by one and the old documents follow unchanged and in order. The new document has the candidate's fields, the fresh identifier and today's date. |
| KnowledgeStore.UpdateReplacesMatching | horizons-export-8b612b00-c029-430b-a531-9d514ca3b700/src/contexts/KnowledgeBaseContext.jsx:74-79 | Update replaces every document with the identifier by the supplied record, whole, with the date refreshed. It leaves the others alone and keeps the set of identifiers. |
| KnowledgeStore.UpdateAbsentIsNoop | horizons-export-8b612b00-c029-430b-a531-9d514ca3b700/src/contexts/KnowledgeBaseContext.jsx:75-78 | Updating an identifier not in the list changes nothing. |
| KnowledgeStore.DeleteDocument | horizons-export-8b612b00-c029-430b-a531-9d514ca3b700/src/contexts/KnowledgeBaseContext.jsx:86-87 | After delete the identifier is gone, and the result is an order-preserving subsequence of the list. Every document with another identifier keeps its exact number of copies. |
| KnowledgeStore.DeleteKeepsOthers | horizons-export-8b612b00-c029-430b-a531-9d514ca3b700/src/contexts/KnowledgeBaseContext.jsx:87 | A document survives delete exactly when it was stored and has another identifier. |
| KnowledgeStore.DeleteIdempotent | horizons-export-8b612b00-c029-430b-a531-9d514ca3b700/src/contexts/KnowledgeBaseContext.jsx:86 | Deleting twice is deleting once. |
| KnowledgeStore.DeleteAbsentIsNoop | horizons-export-8b612b00-c029-430b-a531-9d514ca3b700/src/contexts/KnowledgeBaseContext.jsx:88 | Deleting an absent identifier changes nothing. |
| KnowledgeStore.AddThenUpdate | horizons-export-8b612b00-c029-430b-a531-9d514ca3b700/src/contexts/KnowledgeBaseContext.jsx:61-79 | Editing a just-added document keeps its identifier, takes the edit's date, and, when identifiers are fresh, touches no older document. |
| KnowledgeStore.DeleteThenListHasNoId | horizons-export-8b612b00-c029-430b-a531-9d514ca3b700/src/contexts/KnowledgeBaseContext.jsx:85-87 | No document left after delete carries the identifier, even when several did. |
| KnowledgeBasePage.ScreenOf | horizons-export-8b612b00-c029-430b-a531-9d514ca3b700/src/pages/KnowledgeBase.jsx:52-91 | Each known view name renders its screen. Any other name renders the list. |
| KnowledgeBasePage.FilteredItems | horizons-export-8b612b00-c029-430b-a531-9d514ca3b700/src/pages/KnowledgeBase.jsx:47-50 | The listed documents are an order-preserving subsequence of the store, each matching the term case-insensitively in title or content. Every matching document is listed as many times as it is stored; no other is listed. |
| KnowledgeBasePage.FilteredItemsMembership | horizons-export-8b612b00-c029-430b-a531-9d514ca3b700/src/pages/KnowledgeBase.jsx:48-49 | A document is listed exactly when it is stored and matches. |
| KnowledgeBasePage.EmptySearchListsAll | horizons-export-8b612b00-c029-430b-a531-9d514ca3b700/src/pages/KnowledgeBase.jsx:14 | The empty search term lists every document, in order. |
| KnowledgeBasePage.InitialPage | horizons-export-8b612b00-c029-430b-a531-9d514ca3b700/src/pages/KnowledgeBase.jsx:13-17 | The page opens on the list with an empty search, no add type and no document under edit. |
| KnowledgeBasePage.Step | horizons-export-8b612b00-c029-430b-a531-9d514ca3b700/src/pages/KnowledgeBase.jsx:19-45 | Edit opens a copy. Save and delete apply the store operation, return to the list and clear the edit. Choosing a type opens the add form with it. Saving a new document adds it, returns to the list and clears the type. Only these three saves change the documents. |
| KnowledgeBasePage.StepKeepsWellFormed | horizons-export-8b612b00-c029-430b-a531-9d514ca3b700/src/pages/KnowledgeBase.jsx:15-17 | Every action keeps the view among the four the page sets, keeps a document whenever the edit form shows, and keeps a type whenever the add form shows. |
| KnowledgeBasePage.ReachableWellFormed | horizons-export-8b612b00-c029-430b-a531-9d514ca3b700/src/pages/KnowledgeBase.jsx:53-91 | The same shape holds after any sequence of actions, so the edit and add forms never render without their input. |
| KnowledgeBasePage.AddPath | horizons-export-8b612b00-c029-430b-a531-9d514ca3b700/src/pages/KnowledgeBase.jsx:36-45 | List → chooser → add form → chooser keeps the chosen type. Choosing again replaces it. A save lands on the list with the new document in front and the type cleared. |
| KnowledgeBasePage.EditPath | horizons-export-8b612b00-c029-430b-a531-9d514ca3b700/src/pages/KnowledgeBase.jsx:19-34 | Revising the edit copy leaves the store alone. Saving writes the revised copy back by identifier and returns to the list. |
| KnowledgeAddForm.NewForm | horizons-export-8b612b00-c029-430b-a531-9d514ca3b700/src/components/knowledge-base/KnowledgeBaseAddForm.jsx:7-11 | The form starts with empty title, content, URL and file name for the given type. |
| KnowledgeAddForm.FormTitle | horizons-export-8b612b00-c029-430b-a531-9d514ca3b700/src/components/knowledge-base/KnowledgeBaseAddForm.jsx:20-27 | A total map from the add type to the heading; any other or absent type gives `Add Document`. |
| KnowledgeAddForm.SourceLabel | horizons-export-8b612b00-c029-430b-a531-9d514ca3b700/src/components/knowledge-base/KnowledgeBaseAddForm.jsx:56 | `pdf` is labelled `Uploaded PDF`, `url` is labelled `Web Page`, and everything else `Internal Document`. |
| KnowledgeAddForm.StripExtension | horizons-export-8b612b00-c029-430b-a531-9d514ca3b700/src/components/knowledge-base/KnowledgeBaseAddForm.jsx:33 | Where the pattern `\.[^/.]+$` matches, the name is cut there. A name with no such suffix is unchanged. |
| KnowledgeAddForm.StripAddedExtension | horizons-export-8b612b00-c029-430b-a531-9d514ca3b700/src/components/knowledge-base/KnowledgeBaseAddForm.jsx:33 | base + `.` + a non-empty extension free of `/` and `.` strips back to base. |
| KnowledgeAddForm.StripDoubleExtension | horizons-export-8b612b00-c029-430b-a531-9d514ca3b700/src/components/knowledge-base/KnowledgeBaseAddForm.jsx:33 | Only the last extension goes: `a.tar.gz` becomes `a.tar`. |
| KnowledgeAddForm.StripKeepsTrailingDot | horizons-export-8b612b00-c029-430b-a531-9d514ca3b700/src/components/knowledge-base/KnowledgeBaseAddForm.jsx:33 | A name ending in `.` is kept whole. |
| KnowledgeAddForm.FileChosen | horizons-export-8b612b00-c029-430b-a531-9d514ca3b700/src/components/knowledge-base/KnowledgeBaseAddForm.jsx:29-36 | A chosen file sets the file name, the stripped title and the extraction placeholder. No file leaves the form unchanged. |
| KnowledgeAddForm.UrlChanged | horizons-export-8b612b00-c029-430b-a531-9d514ca3b700/src/components/knowledge-base/KnowledgeBaseAddForm.jsx:38-42 | A typed URL sets the URL, the fixed title `Content from URL` and a placeholder naming the URL. |
| KnowledgeAddForm.Save | horizons-export-8b612b00-c029-430b-a531-9d514ca3b700/src/components/knowledge-base/KnowledgeBaseAddForm.jsx:44-58 | Nothing is handed over exactly when the title is empty. Otherwise the candidate carries exactly title, content and the type's label. |
| KnowledgeAddForm.UrlFormSaves | horizons-export-8b612b00-c029-430b-a531-9d514ca3b700/src/components/knowledge-base/KnowledgeBaseAddForm.jsx:38-57 | A URL form always saves, as a web page when its type is `url`. |
| KnowledgeAddForm.PdfFileSaves | horizons-export-8b612b00-c029-430b-a531-9d514ca3b700/src/components/knowledge-base/KnowledgeBaseAddForm.jsx:29-57 | Choosing `report.pdf` on the PDF form saves `report` as an uploaded PDF. |
| KnowledgeAddForm.DotFileCannotSave | horizons-export-8b612b00-c029-430b-a531-9d514ca3b700/src/components/knowledge-base/KnowledgeBaseAddForm.jsx:33-52 | A file named `.env` strips to an empty title, so that form refuses to save. |
| ModelRegistry.Hydrate | horizons-export-8b612b00-c029-430b-a531-9d514ca3b700/src/contexts/LLMContext.jsx:17-34 | Stored slots are used as is. Without a stored list there are four integrations, all disconnected and keyless. |
| ModelRegistry.DefaultsValid | horizons-export-8b612b00-c029-430b-a531-9d514ca3b700/src/contexts/LLMContext.jsx:9-14 | The default integrations with nothing active satisfy the registry invariant. |
| ModelRegistry.FindById | horizons-export-8b612b00-c029-430b-a531-9d514ca3b700/src/contexts/LLMContext.jsx:87 | What is found is listed and has the identifier. Finding nothing means no entry has it. |
| ModelRegistry.ActiveConfig | horizons-export-8b612b00-c029-430b-a531-9d514ca3b700/src/contexts/LLMContext.jsx:87 | The configuration is a listed integration named by the active identifier. It is present whenever the active identifier is listed. |
| ModelRegistry.ValidActiveConfigConnected | horizons-export-8b612b00-c029-430b-a531-9d514ca3b700/src/contexts/LLMContext.jsx:87 | Under the invariant, the configuration handed to the engine is connected and has a key. |
| ModelRegistry.FirstOtherConnected | horizons-export-8b612b00-c029-430b-a531-9d514ca3b700/src/contexts/LLMContext.jsx:78 | The result is the first connected integration in list order with another identifier, or none when there is no such integration. |
| ModelRegistry.AddIntegration | horizons-export-8b612b00-c029-430b-a531-9d514ca3b700/src/contexts/LLMContext.jsx:52-53 | The record goes at the end under the fresh identifier. Existing entries and the active identifier are unchanged. |
| ModelRegistry.ConnectEffect | horizons-export-8b612b00-c029-430b-a531-9d514ca3b700/src/contexts/LLMContext.jsx:60-66 | Connect sets the flag and the key on the matching entries only. It activates the identifier exactly when nothing (null or empty) was active. |
| ModelRegistry.DisconnectEffect | horizons-export-8b612b00-c029-430b-a531-9d514ca3b700/src/contexts/LLMContext.jsx:73-80 | Disconnect clears flag and key on the matching entries only. Only when it hits the active identifier is the first other connected integration elected, or none. |
| ModelRegistry.SetActive | horizons-export-8b612b00-c029-430b-a531-9d514ca3b700/src/contexts/LLMContext.jsx:95 | The exposed setter takes any active identifier and leaves the list alone. |
| ModelRegistry.AddPreservesValid | horizons-export-8b612b00-c029-430b-a531-9d514ca3b700/src/contexts/LLMContext.jsx:53 | Adding a keyless, disconnected record under a fresh identifier keeps the invariant. |
| ModelRegistry.ConnectPreservesValid | horizons-export-8b612b00-c029-430b-a531-9d514ca3b700/src/contexts/LLMContext.jsx:61-66 | Connecting a listed identifier keeps the invariant. |
| ModelRegistry.DisconnectPreservesValid | horizons-export-8b612b00-c029-430b-a531-9d514ca3b700/src/contexts/LLMContext.jsx:74-79 | Disconnecting keeps the invariant: the re-elected identifier is connected. |
| ModelRegistry.SetActiveCanBreakValid | horizons-export-8b612b00-c029-430b-a531-9d514ca3b700/src/contexts/LLMContext.jsx:26-34 | The raw setter can make a never-connected default active, which breaks the invariant. |
| ModelRegistry.DisconnectIdempotent | horizons-export-8b612b00-c029-430b-a531-9d514ca3b700/src/contexts/LLMContext.jsx:74-76 | Disconnecting an already-disconnected integration changes nothing. |
| ModelRegistry.ConnectDisconnectRoundTrip | horizons-export-8b612b00-c029-430b-a531-9d514ca3b700/src/contexts/LLMContext.jsx:60-80 | While another integration is active, connecting and then disconnecting a disconnected integration restores the registry. |
| ModelRegistry.HandOverScenario | horizons-export-8b612b00-c029-430b-a531-9d514ca3b700/src/contexts/LLMContext.jsx:64-79 | Connect A then B: A becomes and stays active. Disconnecting A then elects B. |
| IntegrationsPage.CardControls | horizons-export-8b612b00-c029-430b-a531-9d514ca3b700/src/pages/APIIntegrations.jsx:66-108 | A card offers the key field with Connect exactly when disconnected, and only Disconnect when connected. |
| IntegrationsPage.HandleConnect | horizons-export-8b612b00-c029-430b-a531-9d514ca3b700/src/pages/APIIntegrations.jsx:24-34 | Connect is forwarded, with the key untrimmed, exactly when the trimmed key is non-empty; otherwise nothing changes. |
| IntegrationsPage.WhitespaceKeyRejected | horizons-export-8b612b00-c029-430b-a531-9d514ca3b700/src/pages/APIIntegrations.jsx:25 | A whitespace-only key never reaches the registry. |
| IntegrationsPage.DialogRecord | horizons-export-8b612b00-c029-430b-a531-9d514ca3b700/src/pages/APIIntegrations.jsx:122-128 | The submitted record is disconnected and keyless, so it satisfies the key-iff-connected rule. It carries the dialog's three fields. |
| IntegrationsPage.HandleAdd | horizons-export-8b612b00-c029-430b-a531-9d514ca3b700/src/pages/APIIntegrations.jsx:120-140 | Add is forwarded only when name, description and model are all non-empty. It then clears the fields and closes the dialog. Otherwise nothing changes. |
| IntegrationsPage.PageKeepsRegistryValid | horizons-export-8b612b00-c029-430b-a531-9d514ca3b700/src/pages/APIIntegrations.jsx:20-34 | Whatever the page forwards (connect, disconnect, add under a fresh identifier) keeps the registry invariant. |
| IntegrationsPage.CardFollowsConnection | horizons-export-8b612b00-c029-430b-a531-9d514ca3b700/src/pages/APIIntegrations.jsx:89-108 | After an accepted connect a card shows only Disconnect. After disconnect it shows the key field and Connect again. |
| ChatbotWidget.InitialLog | horizons-export-8b612b00-c029-430b-a531-9d514ca3b700/src/components/ChatbotWidget.jsx:14-30 | The stored session log wins. Otherwise the log is the single greeting from the bot with identifier 1. |
| ChatbotWidget.Open | horizons-export-8b612b00-c029-430b-a531-9d514ca3b700/src/components/ChatbotWidget.jsx:27-36 | The widget opens idle, with an empty box, no participants and nothing under edit. |
| ChatbotWidget.Window | horizons-export-8b612b00-c029-430b-a531-9d514ca3b700/src/components/ChatbotWidget.jsx:70 | The history is the last five entries in order (all when fewer), each carrying only its content. |
| ChatbotWidget.BeginSend | horizons-export-8b612b00-c029-430b-a531-9d514ca3b700/src/components/ChatbotWidget.jsx:53-67 | Blank input changes nothing and asks nothing. Otherwise the untrimmed input is appended as the customer's message, the box clears, typing comes on, and the question goes out with the window including the new message. |
| ChatbotWidget.FinishSend | horizons-export-8b612b00-c029-430b-a531-9d514ca3b700/src/components/ChatbotWidget.jsx:71-97 | Exactly one bot message is appended to the current log: the reply on success, the fixed apology on failure. Typing is off after either. |
| ChatbotWidget.SendMessage | horizons-export-8b612b00-c029-430b-a531-9d514ca3b700/src/components/ChatbotWidget.jsx:53-98 | A non-blank send grows the log by exactly two: the customer's message, then a bot message. Earlier entries are untouched and typing ends off. |
| ChatbotWidget.SendReplyContent | horizons-export-8b612b00-c029-430b-a531-9d514ca3b700/src/components/ChatbotWidget.jsx:69-89 | The bot's message is the local fallback reply without a model, the apology when the remote call fails, and otherwise the trimmed remote text or the default reply. |
| ChatbotWidget.WindowReadsAsAssistant | horizons-export-8b612b00-c029-430b-a531-9d514ca3b700/src/api/mock-ai.js:17 | Every widget entry renders in the prompt as `Assistant: ` + its content, the customer's included. |
| ChatbotWidget.WindowEndsWithQuestion | horizons-export-8b612b00-c029-430b-a531-9d514ca3b700/src/components/ChatbotWidget.jsx:63-70 | The window holds one to five entries and ends with the new question. |
| ChatbotWidget.DeleteMessage | horizons-export-8b612b00-c029-430b-a531-9d514ca3b700/src/components/ChatbotWidget.jsx:100-101 | No entry with the identifier remains, and the log is an order-preserving subsequence of the old one. Every entry with another identifier keeps its exact number of copies. |
| ChatbotWidget.DeleteKeepsOthers | horizons-export-8b612b00-c029-430b-a531-9d514ca3b700/src/components/ChatbotWidget.jsx:101 | An entry survives exactly when it was in the log and has another identifier. |
| ChatbotWidget.DeleteIdempotent | horizons-export-8b612b00-c029-430b-a531-9d514ca3b700/src/components/ChatbotWidget.jsx:100 | Deleting twice is deleting once. |
| ChatbotWidget.EditMessage | horizons-export-8b612b00-c029-430b-a531-9d514ca3b700/src/components/ChatbotWidget.jsx:105-108 | Opening an entry for edit makes its content the draft and leaves the log alone. |
| ChatbotWidget.SaveEdit | horizons-export-8b612b00-c029-430b-a531-9d514ca3b700/src/components/ChatbotWidget.jsx:110-117 | Saving clears the edit state and keeps the log's length. Without an entry under edit nothing changes. |
| ChatbotWidget.SaveEditRewritesMatching | horizons-export-8b612b00-c029-430b-a531-9d514ca3b700/src/components/ChatbotWidget.jsx:111-113 | Exactly the entries sharing the identifier get the draft and the edited mark; every other entry is unchanged. |
| ChatbotWidget.SystemEntryEditable | horizons-export-8b612b00-c029-430b-a531-9d514ca3b700/src/components/ChatbotWidget.jsx:110-115 | The handler rewrites a system entry too, although the log offers edit only on customer and bot entries. |
| ChatbotWidget.AddParticipant | horizons-export-8b612b00-c029-430b-a531-9d514ca3b700/src/components/ChatbotWidget.jsx:119-141 | Inviting someone already present changes nothing. Otherwise they join, and one system entry `<user> added <invited> to the chat.` is appended. |
| ChatbotWidget.AddKeepsParticipantsDistinct | horizons-export-8b612b00-c029-430b-a531-9d514ca3b700/src/components/ChatbotWidget.jsx:120-129 | Invitations never make two participants share an identifier. |
| ChatbotWidget.AddParticipantIdempotent | horizons-export-8b612b00-c029-430b-a531-9d514ca3b700/src/components/ChatbotWidget.jsx:120-127 | Inviting the same person a second time is a no-op. |
| AgentAssist.FindConversation | horizons-export-8b612b00-c029-430b-a531-9d514ca3b700/src/pages/AgentAssist.jsx:128 | The result is the first listed conversation with the identifier. There is none exactly when no conversation has it. |
| AgentAssist.AssistEnabled | horizons-export-8b612b00-c029-430b-a531-9d514ca3b700/src/pages/AgentAssist.jsx:376-378 | The input box and the send button are enabled exactly when a model configuration is present and marked connected. |
| AgentAssist.Resync | horizons-export-8b612b00-c029-430b-a531-9d514ca3b700/src/pages/AgentAssist.jsx:99-101 | The selection becomes the current copy of the selected conversation, else the first conversation. It is absent only for an empty list. |
| AgentAssist.AppendTo | horizons-export-8b612b00-c029-430b-a531-9d514ca3b700/src/pages/AgentAssist.jsx:122-126 | The line is appended to the conversations with the identifier. Every other conversation is unchanged and the length is kept. |
| AgentAssist.FindAppended | horizons-export-8b612b00-c029-430b-a531-9d514ca3b700/src/pages/AgentAssist.jsx:122-128 | Looking up after appending finds the same conversation with the line at its end. |
| AgentAssist.BeginSend | horizons-export-8b612b00-c029-430b-a531-9d514ca3b700/src/pages/AgentAssist.jsx:109-133 | Blank input changes nothing. Otherwise the box clears and the `agent-assist` question is appended to the selected conversation. When that conversation is listed, typing comes on and the engine gets its whole updated history; when it is not, the handler stops there. |
| AgentAssist.OutcomeLine | horizons-export-8b612b00-c029-430b-a531-9d514ca3b700/src/pages/AgentAssist.jsx:135-158 | A success becomes a bot line with the reply. A failure becomes a bot line with the fixed error text. A throw becomes a system line `Failed to get AI response.`. |
| AgentAssist.FinishSend | horizons-export-8b612b00-c029-430b-a531-9d514ca3b700/src/pages/AgentAssist.jsx:141-168 | The outcome's line goes to the conversation that asked, whatever is selected now. Typing is off on every path. |
| AgentAssist.SendMessage | horizons-export-8b612b00-c029-430b-a531-9d514ca3b700/src/pages/AgentAssist.jsx:109-169 | While no connected model is configured the input and send button are disabled, so nothing changes. A blank input changes nothing either. A send clears the box, keeps the number of conversations and leaves every other conversation unchanged. |
| AgentAssist.SendAppendsTwoLines | horizons-export-8b612b00-c029-430b-a531-9d514ca3b700/src/pages/AgentAssist.jsx:112-147 | With the controls enabled, a send to a listed conversation appends exactly the question and then one bot line, and ends with typing off. |
| AgentAssist.QuestionThenOutcome | horizons-export-8b612b00-c029-430b-a531-9d514ca3b700/src/pages/AgentAssist.jsx:122-147 | Whatever the engine's outcome, a send to a listed conversation ends its history with the question and then that outcome's line. |
| AgentAssist.QuestionEndsHistory | horizons-export-8b612b00-c029-430b-a531-9d514ca3b700/src/pages/AgentAssist.jsx:128-133 | The engine's history is the conversation's whole history plus the question, which it renders as `Assistant: <question>`. |
| AgentAssist.AssistLineLabel | horizons-export-8b612b00-c029-430b-a531-9d514ca3b700/src/api/mock-ai.js:17 | A non-empty `agent-assist` line is labelled `Assistant` in the prompt. |
| AgentAssist.AnswerFollowsAsker | horizons-export-8b612b00-c029-430b-a531-9d514ca3b700/src/pages/AgentAssist.jsx:141-147 | If the operator selects another conversation mid-request, the answer still lands in the conversation that asked, and the other conversation is untouched. |
| AgentAssist.ThrowLeavesNotice | horizons-export-8b612b00-c029-430b-a531-9d514ca3b700/src/pages/AgentAssist.jsx:148-165 | A thrown engine call leaves a system line last in the asking conversation. |
| AgentAssist.NoticeAsWritten | horizons-export-8b612b00-c029-430b-a531-9d514ca3b700/src/pages/AgentAssist.jsx:382-386 | As written, the prompt to connect renders only for a configuration that is present and not connected; it never renders while the controls are enabled. |
| AgentAssist.NoticeMissingWithoutConfig | horizons-export-8b612b00-c029-430b-a531-9d514ca3b700/src/pages/AgentAssist.jsx:376-386 | With no configuration the controls are disabled, yet the notice as written renders nothing. |
| AgentAssist.ConnectNotice | horizons-export-8b612b00-c029-430b-a531-9d514ca3b700/src/pages/AgentAssist.jsx:376-386 | The intended notice renders exactly when the controls are disabled. It agrees with the code whenever a configuration is present. |
| AgentAssist.NoticeExactlyWhenSendIgnored | horizons-export-8b612b00-c029-430b-a531-9d514ca3b700/src/pages/AgentAssist.jsx:368-386 | For a non-blank question, the intended notice shows exactly when sending it is ignored. |
| TicketMessages.AgentReply | horizons-export-8b612b00-c029-430b-a531-9d514ca3b700/src/pages/InternalTickets.jsx:118-124 | An agent reply is from `A`, the agent's own, unseen and `Just now`, with the text as typed. |
| InternalTickets.InitialBoard | horizons-export-8b612b00-c029-430b-a531-9d514ca3b700/src/pages/InternalTickets.jsx:103-105 | The board opens on conversation 2, whose thread holds two messages. |
| InternalTickets.SendMessage | horizons-export-8b612b00-c029-430b-a531-9d514ca3b700/src/pages/InternalTickets.jsx:116-135 | Blank input or no open conversation changes nothing. Otherwise the reply goes at the end of the open conversation's thread, started if absent, and every other key is unchanged. |
| InternalTickets.TwoSendsInOrder | horizons-export-8b612b00-c029-430b-a531-9d514ca3b700/src/pages/InternalTickets.jsx:125-128 | Two sends land in order at the end of the same thread. |
| InternalTickets.ZeroIsNoConversation | horizons-export-8b612b00-c029-430b-a531-9d514ca3b700/src/pages/InternalTickets.jsx:117 | Conversation identifier 0 is falsy, so it is never written to. |
| AllTickets.InitialScreen | horizons-export-8b612b00-c029-430b-a531-9d514ca3b700/src/pages/AllTickets.jsx:152-154 | The screen opens on conversation 1 with the customer's one message. |
| AllTickets.SendMessage | horizons-export-8b612b00-c029-430b-a531-9d514ca3b700/src/pages/AllTickets.jsx:165-181 | Blank input changes nothing. Otherwise exactly one reply is appended at the end of the thread and earlier messages are unchanged. |
| AllTickets.Select | horizons-export-8b612b00-c029-430b-a531-9d514ca3b700/src/pages/AllTickets.jsx:212 | Selecting changes only the selection: every conversation shows the same thread. |
| AllTickets.SummaryShownAtStart | horizons-export-8b612b00-c029-430b-a531-9d514ca3b700/src/pages/AllTickets.jsx:240 | The AI summary card shows on the opening screen. |
| AllTickets.SummaryGoneAfterReply | horizons-export-8b612b00-c029-430b-a531-9d514ca3b700/src/pages/AllTickets.jsx:240 | Once a reply has been sent, the card never shows again, whatever is selected or sent later. |
| AllTickets.ReplayKeepsLength | horizons-export-8b612b00-c029-430b-a531-9d514ca3b700/src/pages/AllTickets.jsx:174 | No sequence of sends and selections shortens the thread. |
| AgentRoster.InitialPage | horizons-export-8b612b00-c029-430b-a531-9d514ca3b700/src/pages/AgentManagement.jsx:83-90 | The page opens with three agents, an empty form, no dialog open and nothing in flight. |
| AgentRoster.PreviewEmail | horizons-export-8b612b00-c029-430b-a531-9d514ca3b700/src/pages/AgentManagement.jsx:92-113 | An incomplete form is refused first, then unconfigured mail. Otherwise the form dialog closes and the preview opens. |
| AgentRoster.DefaultConfigBlocksPreview | horizons-export-8b612b00-c029-430b-a531-9d514ca3b700/src/pages/AgentManagement.jsx:102-109 | With mail settings left at their empty defaults, a preview never gets through. |
| AgentRoster.BeginCreate | horizons-export-8b612b00-c029-430b-a531-9d514ca3b700/src/pages/AgentManagement.jsx:115-125 | The sending flag comes on and nothing else on the page changes. The invitation carries the form's address, name and role with the mail settings. |
| AgentRoster.ConfirmSend | horizons-export-8b612b00-c029-430b-a531-9d514ca3b700/src/pages/AgentManagement.jsx:316 | The confirm button refuses exactly while an invitation is in flight. Otherwise it starts a create: sending comes on and the invitation goes to the form's address. |
| AgentRoster.OneInvitationInFlight | horizons-export-8b612b00-c029-430b-a531-9d514ca3b700/src/pages/AgentManagement.jsx:115-146 | After a create starts, the button refuses a second one until the service answers. Whatever the answer, the button works again. |
| AgentRoster.FinishCreate | horizons-export-8b612b00-c029-430b-a531-9d514ca3b700/src/pages/AgentManagement.jsx:127-146 | Acceptance appends the form's agent under a fresh identifier, closes the preview and clears the form. Rejection changes nothing else and reports the service's message, or `An unknown error occurred.` when it is empty. Sending is off either way. |
| AgentRoster.CreateAgent | horizons-export-8b612b00-c029-430b-a531-9d514ca3b700/src/pages/AgentManagement.jsx:115-147 | A rejected invitation leaves roster and form alone. An accepted one grows the roster by exactly the new agent at the end. |
| AgentRoster.AcceptedCreateUsesStartingRoster | horizons-export-8b612b00-c029-430b-a531-9d514ca3b700/src/pages/AgentManagement.jsx:128 | An accepted invitation writes the roster as it was when the send began, discarding a change made while waiting. |
| AgentRoster.EditClick | horizons-export-8b612b00-c029-430b-a531-9d514ca3b700/src/pages/AgentManagement.jsx:149-152 | Editing opens the dialog on a copy and leaves the roster alone. |
| AgentRoster.UpdateAgent | horizons-export-8b612b00-c029-430b-a531-9d514ca3b700/src/pages/AgentManagement.jsx:154-170 | Update succeeds exactly when an agent is under edit with every field filled in. The dialog then closes. The roster's length never changes. |
| AgentRoster.UpdateReplacesOnlyMatching | horizons-export-8b612b00-c029-430b-a531-9d514ca3b700/src/pages/AgentManagement.jsx:163 | An accepted update replaces exactly the agents with the edited identifier, keeps the rest, and keeps the set of identifiers. |
| AgentRoster.UpdateAbsentChangesNoAgent | horizons-export-8b612b00-c029-430b-a531-9d514ca3b700/src/pages/AgentManagement.jsx:155-163 | Updating an identifier not on the roster changes no agent. |
| ListenerRegistry.NewService | horizons-export-8b612b00-c029-430b-a531-9d514ca3b700/src/services/TiledeskService.js:4-7 | The service starts without a client and without listeners. |
| ListenerRegistry.Initialize | horizons-export-8b612b00-c029-430b-a531-9d514ca3b700/src/services/TiledeskService.js:9-21 | An existing client is handed back and nothing changes. Otherwise a client is created and kept. |
| ListenerRegistry.InitializeOnce | horizons-export-8b612b00-c029-430b-a531-9d514ca3b700/src/services/TiledeskService.js:11-14 | A second initialisation hands back the first client, whatever configuration it is given. |
| ListenerRegistry.On | horizons-export-8b612b00-c029-430b-a531-9d514ca3b700/src/services/TiledeskService.js:58-63 | The callback is appended to the event's list, which is started if absent. Duplicates are allowed and other events are unchanged. |
| ListenerRegistry.Off | horizons-export-8b612b00-c029-430b-a531-9d514ca3b700/src/services/TiledeskService.js:65-69 | Every registration of the callback under the event goes, and the rest keep their order and their number of copies. Other events are unchanged, an unknown event is a no-op, and the key stays. |
| ListenerRegistry.Emit | horizons-export-8b612b00-c029-430b-a531-9d514ca3b700/src/services/TiledeskService.js:71-75 | The event's callbacks are invoked in registration order, once per registration; an unknown event invokes none. |
| ListenerRegistry.Invoke | horizons-export-8b612b00-c029-430b-a531-9d514ca3b700/src/services/TiledeskService.js:77-96 | Each client call throws `Tiledesk client not initialized.` exactly when there is no client. Otherwise it is forwarded to that client. |
| ListenerRegistry.Close | horizons-export-8b612b00-c029-430b-a531-9d514ca3b700/src/services/TiledeskService.js:98-104 | Closing with a client drops it and every listener. Without a client nothing changes. |
| ListenerRegistry.EmitAfterOn | horizons-export-8b612b00-c029-430b-a531-9d514ca3b700/src/services/TiledeskService.js:58-75 | After `on`, emitting invokes the earlier registrations and then the new one. Other events are unaffected. |
| ListenerRegistry.EmitAfterOff | horizons-export-8b612b00-c029-430b-a531-9d514ca3b700/src/services/TiledeskService.js:65-75 | After `off`, emitting invokes the other registrations of the event in their order, each as many times as before, and never the removed callback. |
| ListenerRegistry.OffIdempotent | horizons-export-8b612b00-c029-430b-a531-9d514ca3b700/src/services/TiledeskService.js:67 | Removing twice is removing once. |
| ListenerRegistry.OnThenOff | horizons-export-8b612b00-c029-430b-a531-9d514ca3b700/src/services/TiledeskService.js:58-69 | Registering a new callback and removing it restores what the event invokes. |
| ListenerRegistry.ClosedServiceIsInert | horizons-export-8b612b00-c029-430b-a531-9d514ca3b700/src/services/TiledeskService.js:98-104 | After closing a live service, no event invokes anything and every client call throws. |
| ListenerRegistry.CloseWithoutClientKeepsListeners | horizons-export-8b612b00-c029-430b-a531-9d514ca3b700/src/services/TiledeskService.js:99 | Closing without a client keeps every registration. |

## Findings

| source | as written | input that shows it | evidently intended | confidence | as-written member | corrected member |
|---|---|---|---|---|---|---|
| horizons-export-8b612b00-c029-430b-a531-9d514ca3b700/src/pages/AgentAssist.jsx:382 | `!llmConfig \|\| !llmConfig.isConnected && <p>…</p>`: `&&` binds tighter, so with no configuration the expression is `true`, which renders nothing | no model configured (`llmConfig` undefined, as on a first start): input and button are disabled and no notice explains why | `(!llmConfig \|\| !llmConfig.isConnected) && <p>…</p>`: the notice shows whenever the controls are disabled | high, not executed | AgentAssist.NoticeAsWritten, AgentAssist.NoticeMissingWithoutConfig | AgentAssist.ConnectNotice, AgentAssist.NoticeExactlyWhenSendIgnored |

## Left out

- The remote chat-completion call, the mail service's invitation call, and the help-desk client's authentication and WebSocket events are network I/O. Each call's result is a parameter: a reply or failure, an accepted or rejected invitation.
- The half-second delay before the local fallback answers only adds latency.
- Storage reads and writes (`localStorage`, `sessionStorage`) are left out. Hydration takes an optional stored value. For the knowledge store and the model registry, `None` stands for an absent slot or a parse failure, since both catch parse errors. A stored slot holding the text `null` parses to `null` and then breaks the page. That case is not modelled.
- `Date.now()` identifiers and `new Date()` dates are parameters. The code does not guarantee that identifiers are fresh, so the lemmas that need freshness require it.
- Toasts, animation, scrolling, focus, routing and the purely presentational components are not modelled.
- Taking over a conversation or releasing it to the AI only shows a toast in the code. No status change is modelled because none exists.
- The timer-driven canned chats (the agent-assist demo chat, the help-desk chat page and its widget script) and the seeded agent-assist conversations are static demo data. They are not modelled.
- The email-settings form is a two-field non-empty check plus a storage write. Only its empty defaults appear, as `AgentRoster.DefaultEmailConfig`.
- JsText.Lower: lower-cases ASCII letters only. JavaScript's `toLowerCase` also maps non-ASCII letters, so searches and scores on non-ASCII text are not modelled.
- ModelRegistry.Connect: its own contract states only the length. The full effect is in `ModelRegistry.ConnectEffect`. In the code, a connect with an unlisted identifier throws while building its toast, after the state updates are queued. The model keeps the state effect and drops the throw.
- ModelRegistry.Disconnect: its own contract states only the length. The full effect is in `ModelRegistry.DisconnectEffect`. The same toast throw on an unlisted identifier is dropped.
- KnowledgeStore.UpdateDocument: its own contract states only the length. The replacement is stated in `KnowledgeStore.UpdateReplacesMatching`.
- AgentAssist.Resync: for an empty conversation list the code selects `undefined` and the page would fail. The model reports no selection. The list is never empty in the application.
- ChatbotWidget.InitialLog: `None` stands only for an absent session slot. The code parses a stored log without catching errors, so a malformed log throws instead of falling back to the greeting. That throw is not modelled.
- ChatbotWidget.SaveEdit: saving with nothing under edit throws a `TypeError` in the code. The model leaves the widget unchanged. The save control exists only while an entry is being edited.
- KnowledgeBasePage.Step: revising the edit copy with no document under edit is modelled as a no-op. The code would build a partial record, but the edit form only renders with a document, as `KnowledgeBasePage.ReachableWellFormed` shows.
- The listener registry is a plain object in the code, so an event named like an `Object.prototype` member (`toString`, say) is seen as already present. The model's map has no such names.
- Callbacks that call `on` or `off` while an `emit` is running are not modelled. Callbacks are opaque tokens.
- The user-facing behaviour some descriptions of this system promise differs from the code. The model follows the code in each case:
  - the remote branch does not require the integration to be connected;
  - there are no typed not-found or validation errors; rejected inputs simply change nothing;
  - editing a message is not restricted to its author in the handler;
  - the query is split on single spaces, not on runs of whitespace.
