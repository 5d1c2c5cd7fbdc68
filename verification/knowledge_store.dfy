/** The knowledge store: the list of documents the response engine
    retrieves from, newest first, with add, update and delete as pure
    functions of the list. Identifiers and dates come from the clock in the
    source and are parameters here. */
module KnowledgeStore {
  import opened Base

  /** One knowledge document. `source` is the label shown to operators
      ("Internal Document", "Uploaded PDF", "Web Page"). */
  datatype Document = Document(
    id: int,
    title: string,
    content: string,
    source: string,
    lastUpdated: string)

  /** What the add form hands to the store: the document before it has an
      identifier or a date. */
  datatype Candidate = Candidate(title: string, content: string, source: string)

  /** The four documents the store starts from when nothing is stored. */
  const SeedDocuments: seq<Document> := [
    Document(1, "Onboarding New Customers",
      "Welcome to our service! Here are the first steps to get you started. First, configure your account settings. Second, invite your team members. Finally, explore our main features through the guided tour.",
      "Internal Document", "2025-07-15"),
    Document(2, "Refund Policy Q3 2025",
      "Our Q3 2025 refund policy states that customers can request a full refund within 14 days of purchase. After 14 days, a partial refund may be issued on a case-by-case basis. All refund requests should be submitted through our support portal.",
      "Uploaded PDF", "2025-07-12"),
    Document(3, "API Rate Limits",
      "The rate limit for our public API is 100 requests per minute per API key. For enterprise plans, this limit can be increased. Please contact sales for more information on custom rate limits.",
      "Web Page", "2025-07-10"),
    Document(4, "Troubleshooting Login Issues",
      "If a user is unable to log in, first ask them to reset their password. If the issue persists, check if their account is locked or if there are any ongoing service outages. Escalate to a senior technician if the problem is not resolved within 15 minutes.",
      "Internal Document", "2025-07-05")
  ]

  /** Identifiers occurring in a list of documents. */
  function Ids(docs: seq<Document>): set<int> {
    set i | 0 <= i < |docs| :: docs[i].id
  }

  /** The list at start-up. `stored` is the persisted list when the storage
      slot holds one that parses; `None` stands for an absent slot or a
      parse failure. */
  function Hydrate(stored: Option<seq<Document>>): (docs: seq<Document>)
    ensures stored.Some? ==> docs == stored.value
    ensures stored.None? ==> |docs| == 4 && Ids(docs) == {1, 2, 3, 4}
  {
    match stored
    case Some(d) => d
    case None =>
      assert Ids(SeedDocuments) == {1, 2, 3, 4} by {
        var ds := SeedDocuments;
        assert ds[0].id == 1 && ds[1].id == 2 && ds[2].id == 3 && ds[3].id == 4;
        forall x | x in Ids(ds) ensures x in {1, 2, 3, 4} {
          var i :| 0 <= i < |ds| && ds[i].id == x;
        }
      }
      SeedDocuments
  }

  /** Add: the candidate, stamped with a fresh identifier and today's date,
      goes in front of the existing documents. */
  function AddDocument(docs: seq<Document>, cand: Candidate, freshId: int, today: string): (r: seq<Document>)
    ensures |r| == |docs| + 1
    ensures r[1..] == docs
    ensures r[0].id == freshId && r[0].lastUpdated == today
    ensures r[0].title == cand.title && r[0].content == cand.content && r[0].source == cand.source
  {
    [Document(freshId, cand.title, cand.content, cand.source, today)] + docs
  }

  /** Update: every document carrying the updated document's identifier is
      replaced by it as a whole, with the date refreshed. */
  function UpdateDocument(docs: seq<Document>, updated: Document, today: string): (r: seq<Document>)
    ensures |r| == |docs|
  {
    MapWhere(docs, (d: Document) => d.id == updated.id, (d: Document) => updated.(lastUpdated := today))
  }

  /** Delete: keep the documents whose identifier differs. */
  function DeleteDocument(docs: seq<Document>, id: int): (r: seq<Document>)
    ensures id !in Ids(r)
    ensures IsSubsequence(r, docs)
    ensures forall d :: multiset(r)[d] == if d.id != id then multiset(docs)[d] else 0
  {
    FilterIsSubsequence(docs, (d: Document) => d.id != id);
    FilterCounts(docs, (d: Document) => d.id != id);
    Filter(docs, (d: Document) => d.id != id)
  }

  /** Update changes only the documents with the matching identifier, and
      those become exactly the supplied record with the new date (a whole
      replacement: no field of the old record survives). */
  lemma UpdateReplacesMatching(docs: seq<Document>, updated: Document, today: string)
    ensures forall i :: 0 <= i < |docs| && docs[i].id != updated.id ==>
      UpdateDocument(docs, updated, today)[i] == docs[i]
    ensures forall i :: 0 <= i < |docs| && docs[i].id == updated.id ==>
      UpdateDocument(docs, updated, today)[i] == updated.(lastUpdated := today)
    ensures Ids(UpdateDocument(docs, updated, today)) == Ids(docs)
  {
    var r := UpdateDocument(docs, updated, today);
    forall x | x in Ids(docs) ensures x in Ids(r) {
      var i :| 0 <= i < |docs| && docs[i].id == x;
      assert r[i].id == x;
    }
    forall x | x in Ids(r) ensures x in Ids(docs) {
      var i :| 0 <= i < |r| && r[i].id == x;
      assert docs[i].id == x;
    }
  }

  /** Updating an identifier that is not in the list changes nothing. */
  lemma UpdateAbsentIsNoop(docs: seq<Document>, updated: Document, today: string)
    requires updated.id !in Ids(docs)
    ensures UpdateDocument(docs, updated, today) == docs
  {
    var r := UpdateDocument(docs, updated, today);
    forall i | 0 <= i < |docs| ensures r[i] == docs[i] {
      assert docs[i].id in Ids(docs);
    }
  }

  /** Delete removes exactly the documents with that identifier: every
      other document survives, in the original order. */
  lemma DeleteKeepsOthers(docs: seq<Document>, id: int, d: Document)
    ensures d in DeleteDocument(docs, id) <==> d in docs && d.id != id
  {
    FilterMembership(docs, (x: Document) => x.id != id, d);
  }

  /** Deleting twice is deleting once. */
  lemma DeleteIdempotent(docs: seq<Document>, id: int)
    ensures DeleteDocument(DeleteDocument(docs, id), id) == DeleteDocument(docs, id)
  {
    FilterIdempotent(docs, (d: Document) => d.id != id);
  }

  /** Deleting an identifier that is not in the list changes nothing. */
  lemma DeleteAbsentIsNoop(docs: seq<Document>, id: int)
    requires id !in Ids(docs)
    ensures DeleteDocument(docs, id) == docs
  {
    forall i | 0 <= i < |docs| ensures docs[i].id != id {
      assert docs[i].id in Ids(docs);
    }
    FilterKeepsAll(docs, (d: Document) => d.id != id);
  }

  /** Adding then editing the new document: it keeps its assigned identifier
      and carries the edit's date; when identifiers are fresh, no older
      document is touched. */
  lemma AddThenUpdate(docs: seq<Document>, cand: Candidate, freshId: int, day1: string,
                      title: string, content: string, source: string, day2: string)
    requires freshId !in Ids(docs)
    ensures var added := AddDocument(docs, cand, freshId, day1);
            var edited := added[0].(title := title, content := content, source := source);
            var r := UpdateDocument(added, edited, day2);
            && r[0] == Document(freshId, title, content, source, day2)
            && r[1..] == docs
  {
    var added := AddDocument(docs, cand, freshId, day1);
    var edited := added[0].(title := title, content := content, source := source);
    var r := UpdateDocument(added, edited, day2);
    forall i | 1 <= i < |added| ensures r[i] == added[i] {
      assert added[i] == docs[i - 1];
      assert docs[i - 1].id in Ids(docs);
    }
  }

  /** After a delete, looking the identifier up finds nothing, even when the
      store held several documents with it. */
  lemma DeleteThenListHasNoId(docs: seq<Document>, id: int)
    ensures forall i :: 0 <= i < |DeleteDocument(docs, id)| ==> DeleteDocument(docs, id)[i].id != id
  {
    var r := DeleteDocument(docs, id);
    forall i | 0 <= i < |r| ensures r[i].id != id {
      assert r[i].id in Ids(r);
    }
  }
}
