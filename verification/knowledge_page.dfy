/** The knowledge-base screen: a search filter over the store, and the small
    state machine that moves between the list, the add-type chooser, the
    add form and the edit form, forwarding saves and deletes to the store. */
module KnowledgeBasePage {
  import opened Base
  import opened JsText
  import opened KnowledgeStore

  /** What the screen renders. */
  datatype Screen = ListScreen | ChooserScreen | AddFormScreen | EditScreen

  /** The view names the screen sets. */
  const ListView := "list"
  const AddView := "add"
  const AddFormView := "add-form"
  const EditView := "edit"

  /** The page's state: the store's documents, the search box, the view
      name, the chosen add type and the document under edit. */
  datatype Page = Page(
    docs: seq<Document>,
    searchTerm: string,
    view: string,
    addType: Option<string>,
    editing: Option<Document>)

  /** What the operator can do on the page. */
  datatype Action =
    | Search(term: string)
    | OpenChooser
    | ChooseType(kind: string)
    | BackToChooser
    | BackToList
    | EditClick(doc: Document)
    | ReviseEditing(title: string, content: string, source: string)
    | SaveEdit(doc: Document, today: string)
    | Delete(id: int)
    | SaveNew(cand: Candidate, freshId: int, today: string)

  /** The screen a view name renders; a name the switch does not know
      falls through to the list. */
  function ScreenOf(view: string): (s: Screen)
    ensures s == ChooserScreen <==> view == AddView
    ensures s == AddFormScreen <==> view == AddFormView
    ensures s == EditScreen <==> view == EditView
    ensures view !in {AddView, AddFormView, EditView} ==> s == ListScreen
  {
    if view == AddView then ChooserScreen
    else if view == AddFormView then AddFormScreen
    else if view == EditView then EditScreen
    else ListScreen
  }

  /** The search predicate: the lower-cased term occurs in the lower-cased
      title or the lower-cased content. */
  predicate Matches(d: Document, term: string) {
    Includes(Lower(d.title), Lower(term)) || Includes(Lower(d.content), Lower(term))
  }

  /** The documents the list shows for a search term. */
  function FilteredItems(docs: seq<Document>, term: string): (r: seq<Document>)
    ensures IsSubsequence(r, docs)
    ensures forall i :: 0 <= i < |r| ==> Matches(r[i], term)
    ensures forall d :: multiset(r)[d] == if Matches(d, term) then multiset(docs)[d] else 0
  {
    FilterIsSubsequence(docs, (d: Document) => Matches(d, term));
    FilterCounts(docs, (d: Document) => Matches(d, term));
    Filter(docs, (d: Document) => Matches(d, term))
  }

  /** A document is listed exactly when it is stored and matches. */
  lemma FilteredItemsMembership(docs: seq<Document>, term: string, d: Document)
    ensures d in FilteredItems(docs, term) <==> d in docs && Matches(d, term)
  {
    FilterMembership(docs, (x: Document) => Matches(x, term), d);
  }

  /** An empty search box lists every document, in order. */
  lemma EmptySearchListsAll(docs: seq<Document>)
    ensures FilteredItems(docs, "") == docs
  {
    forall i | 0 <= i < |docs| ensures Matches(docs[i], "") {
      assert Lower("") == "";
      assert Lower("") <= Lower(docs[i].title);
    }
    FilterKeepsAll(docs, (d: Document) => Matches(d, ""));
  }

  /** The page the screen opens on. */
  function InitialPage(docs: seq<Document>): (p: Page)
    ensures p.docs == docs && ScreenOf(p.view) == ListScreen
    ensures p.searchTerm == "" && p.addType.None? && p.editing.None?
  {
    Page(docs, "", ListView, None, None)
  }

  /** One operator action, as the page's handlers apply it. */
  function Step(p: Page, a: Action): (q: Page)
    ensures a.Search? ==> q == p.(searchTerm := a.term)
    ensures a.EditClick? ==> q == p.(view := EditView, editing := Some(a.doc))
    ensures a.ChooseType? ==> q == p.(view := AddFormView, addType := Some(a.kind))
    ensures a.SaveEdit? ==>
      q == p.(docs := UpdateDocument(p.docs, a.doc, a.today), view := ListView, editing := None)
    ensures a.Delete? ==>
      q == p.(docs := DeleteDocument(p.docs, a.id), view := ListView, editing := None)
    ensures a.SaveNew? ==>
      q == p.(docs := AddDocument(p.docs, a.cand, a.freshId, a.today), view := ListView, addType := None)
    ensures !a.SaveEdit? && !a.Delete? && !a.SaveNew? ==> q.docs == p.docs
  {
    match a
    case Search(term) => p.(searchTerm := term)
    case OpenChooser => p.(view := AddView)
    case ChooseType(kind) => p.(view := AddFormView, addType := Some(kind))
    case BackToChooser => p.(view := AddView)
    case BackToList => p.(view := ListView)
    case EditClick(doc) => p.(view := EditView, editing := Some(doc))
    case ReviseEditing(title, content, source) =>
      (match p.editing
       case Some(d) => p.(editing := Some(d.(title := title, content := content, source := source)))
       case None => p)
    case SaveEdit(doc, today) =>
      p.(docs := UpdateDocument(p.docs, doc, today), view := ListView, editing := None)
    case Delete(id) => p.(docs := DeleteDocument(p.docs, id), view := ListView, editing := None)
    case SaveNew(cand, freshId, today) =>
      p.(docs := AddDocument(p.docs, cand, freshId, today), view := ListView, addType := None)
  }

  /** Applying a sequence of actions in order. */
  function Run(p: Page, actions: seq<Action>): (q: Page)
    decreases |actions|
  {
    if |actions| == 0 then p else Run(Step(p, actions[0]), actions[1..])
  }

  /** The shape every reachable page has: the view is one of the four the
      screen sets, the edit form always has a document, and the add form
      always has a type. */
  predicate WellFormed(p: Page) {
    && p.view in {ListView, AddView, AddFormView, EditView}
    && (p.view == EditView ==> p.editing.Some?)
    && (p.view == AddFormView ==> p.addType.Some?)
  }

  /** Every action keeps the page well formed. */
  lemma StepKeepsWellFormed(p: Page, a: Action)
    requires WellFormed(p)
    ensures WellFormed(Step(p, a))
  {
  }

  /** Every page reachable from the opening page is well formed. */
  lemma {:induction false} ReachableWellFormed(p: Page, actions: seq<Action>)
    requires WellFormed(p)
    ensures WellFormed(Run(p, actions))
    decreases |actions|
  {
    if |actions| > 0 {
      StepKeepsWellFormed(p, actions[0]);
      ReachableWellFormed(Step(p, actions[0]), actions[1..]);
    }
  }

  /** Running one action then the rest. */
  lemma RunCons(p: Page, a: Action, rest: seq<Action>)
    ensures Run(p, [a] + rest) == Run(Step(p, a), rest)
  {
    assert ([a] + rest)[1..] == rest;
  }

  /** The add path: the chooser, a type, back to the chooser (the type is
      kept), a type again, then a save lands on the list with the new
      document in front and the type cleared. */
  lemma AddPath(p: Page, k1: string, k2: string, cand: Candidate, freshId: int, today: string)
    ensures var q := Run(p, [OpenChooser, ChooseType(k1), BackToChooser]);
            ScreenOf(q.view) == ChooserScreen && q.addType == Some(k1)
    ensures var q := Run(p, [OpenChooser, ChooseType(k1), BackToChooser, ChooseType(k2)]);
            ScreenOf(q.view) == AddFormScreen && q.addType == Some(k2)
    ensures var q := Run(p, [OpenChooser, ChooseType(k1), SaveNew(cand, freshId, today)]);
            && ScreenOf(q.view) == ListScreen && q.addType.None?
            && q.docs == AddDocument(p.docs, cand, freshId, today)
  {
    var p1 := Step(p, OpenChooser);
    var p2 := Step(p1, ChooseType(k1));
    var p3 := Step(p2, BackToChooser);
    RunCons(p, OpenChooser, [ChooseType(k1), BackToChooser]);
    RunCons(p1, ChooseType(k1), [BackToChooser]);
    RunCons(p2, BackToChooser, []);
    RunCons(p, OpenChooser, [ChooseType(k1), BackToChooser, ChooseType(k2)]);
    RunCons(p1, ChooseType(k1), [BackToChooser, ChooseType(k2)]);
    RunCons(p2, BackToChooser, [ChooseType(k2)]);
    RunCons(p3, ChooseType(k2), []);
    RunCons(p, OpenChooser, [ChooseType(k1), SaveNew(cand, freshId, today)]);
    RunCons(p1, ChooseType(k1), [SaveNew(cand, freshId, today)]);
    RunCons(p2, SaveNew(cand, freshId, today), []);
  }

  /** The edit path: the form works on a copy, so revising it leaves the
      store alone until save, which writes the revised copy back under the
      document's identifier and returns to the list. */
  lemma EditPath(p: Page, d: Document, title: string, content: string, source: string, today: string)
    ensures var q := Run(p, [EditClick(d), ReviseEditing(title, content, source)]);
            && q.docs == p.docs
            && q.editing == Some(d.(title := title, content := content, source := source))
    ensures var revised := d.(title := title, content := content, source := source);
            var q := Run(p, [EditClick(d), ReviseEditing(title, content, source), SaveEdit(revised, today)]);
            && q.docs == UpdateDocument(p.docs, revised, today)
            && ScreenOf(q.view) == ListScreen && q.editing.None?
  {
    var revised := d.(title := title, content := content, source := source);
    var p1 := Step(p, EditClick(d));
    var p2 := Step(p1, ReviseEditing(title, content, source));
    RunCons(p, EditClick(d), [ReviseEditing(title, content, source)]);
    RunCons(p1, ReviseEditing(title, content, source), []);
    RunCons(p, EditClick(d), [ReviseEditing(title, content, source), SaveEdit(revised, today)]);
    RunCons(p1, ReviseEditing(title, content, source), [SaveEdit(revised, today)]);
    RunCons(p2, SaveEdit(revised, today), []);
  }
}
