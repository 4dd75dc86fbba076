/** The in-memory indexer: an authoritative map from link ID to the full
    document, beside a full-text engine that keeps only a projection of each
    document (title, content, score). Every operation is one atomic
    transition from a state to a new state and a result. Whether the
    engine's write or search succeeds, and the current time, are inputs.
 */
module MemoryIndexer {
  import opened IndexModel

  /** The page size the search request asks the engine for. */
  const BatchSize: int := 10

  /** The sort order of the search request: score first, then relevance,
      both descending. */
  const SearchOrder: seq<string> := ["-PageRank", "-_score"]

  /** The partial view of a document kept by the full-text engine. */
  datatype BleveDoc = BleveDoc(title: string, content: string, pageRank: Score)

  /** The two stores, both keyed by link ID. */
  datatype Indexer = Indexer(docs: map<Uuid, Document>, projection: map<Uuid, BleveDoc>)

  const Empty: Indexer := Indexer(map[], map[])

  /** A field-by-field copy of a document. */
  function CopyDoc(d: Document): (c: Document)
    ensures c == d
  {
    Document(d.linkID, d.url, d.title, d.content, d.indexedAt, d.pageRank)
  }

  function MakeBleveDoc(d: Document): (b: BleveDoc)
  {
    BleveDoc(d.title, d.content, d.pageRank)
  }

  /** The projection keeps exactly the title, the content and the score:
      two documents project alike if and only if they agree on those three. */
  lemma MakeBleveDocKeepsTextAndScore(a: Document, b: Document)
    ensures MakeBleveDoc(a) == MakeBleveDoc(b)
        <==> a.title == b.title && a.content == b.content && a.pageRank == b.pageRank
  {
  }

  /** What `Index` leaves behind: the new stores, the caller's document as
      the call left it (it is stamped in place), and the error, if any. */
  datatype IndexResult = IndexResult(indexer: Indexer, caller: Document, outcome: Outcome)

  /** Insert a document or update the entry for an existing one. */
  function Index(s: Indexer, doc: Document, now: Time, engineOk: bool): (r: IndexResult)
    // a nil link ID is refused and nothing at all changes; the error shows
    // `ErrMissingLinkID` but does not wrap it
    ensures doc.linkID == Nil ==> r == IndexResult(s, doc, Fail(ErrText(ErrMissingLinkID)))
    // otherwise the caller's document is stamped, whether or not the engine write succeeds
    ensures doc.linkID != Nil ==> r.caller == doc.(indexedAt := now)
    ensures r.outcome == Pass <==> doc.linkID != Nil && engineOk
    ensures r.outcome == Fail(ErrEngine) <==> doc.linkID != Nil && !engineOk
    // a failed engine write leaves both stores as they were
    ensures r.outcome != Pass ==> r.indexer == s
    // exactly one key is added or overwritten in each store
    ensures r.outcome == Pass ==>
              && r.indexer.docs.Keys == s.docs.Keys + {doc.linkID}
              && r.indexer.projection.Keys == s.projection.Keys + {doc.linkID}
    // a fresh key stores the caller's document with the new time
    ensures r.outcome == Pass && doc.linkID !in s.docs ==>
              r.indexer.docs[doc.linkID] == doc.(indexedAt := now)
    // a known key keeps its stored score; the caller's score is ignored
    ensures r.outcome == Pass && doc.linkID in s.docs ==>
              r.indexer.docs[doc.linkID] == doc.(indexedAt := now, pageRank := s.docs[doc.linkID].pageRank)
    // the projection is built from the caller's document, score included
    ensures r.outcome == Pass ==>
              r.indexer.projection[doc.linkID] == BleveDoc(doc.title, doc.content, doc.pageRank)
    ensures forall k :: k in s.docs && k != doc.linkID ==> r.indexer.docs[k] == s.docs[k]
    ensures forall k :: k in s.projection && k != doc.linkID ==> r.indexer.projection[k] == s.projection[k]
    // Index never creates an entry under the nil key
    ensures Nil in r.indexer.docs ==> Nil in s.docs
  {
    if doc.linkID == Nil then
      IndexResult(s, doc, Fail(ErrText(ErrMissingLinkID)))
    else
      var stamped := doc.(indexedAt := now);
      var dcopy := CopyDoc(stamped);
      var kept := if doc.linkID in s.docs then dcopy.(pageRank := s.docs[doc.linkID].pageRank) else dcopy;
      if !engineOk then
        IndexResult(s, stamped, Fail(ErrEngine))
      else
        IndexResult(Indexer(s.docs[doc.linkID := kept], s.projection[doc.linkID := MakeBleveDoc(stamped)]), stamped, Pass)
  }

  /** A caller cannot recognise the nil-key refusal of `Index` by its
      sentinel: the returned error is not `ErrMissingLinkID` under `Is`. */
  lemma MissingLinkIDNotMatchable(s: Indexer, doc: Document, now: Time, engineOk: bool)
    requires doc.linkID == Nil
    ensures Index(s, doc, now, engineOk).outcome.Fail?
    ensures !Is(Index(s, doc, now, engineOk).outcome.error, ErrMissingLinkID)
  {
  }

  /** `Index` with the nil-key error wrapping `ErrMissingLinkID`, as the
      other errors of the indexer wrap theirs. It changes the stores and
      the caller's document exactly as `Index` does. */
  function IndexWrapped(s: Indexer, doc: Document, now: Time, engineOk: bool): (r: IndexResult)
    ensures r.outcome.Fail? && Is(r.outcome.error, ErrMissingLinkID) <==> doc.linkID == Nil
    ensures r.outcome == Pass <==> doc.linkID != Nil && engineOk
    ensures r.outcome == Fail(ErrEngine) <==> doc.linkID != Nil && !engineOk
    ensures r.indexer == Index(s, doc, now, engineOk).indexer
    ensures r.caller == Index(s, doc, now, engineOk).caller
  {
    var written := Index(s, doc, now, engineOk);
    if doc.linkID == Nil then written.(outcome := Fail(ErrMissingLinkID)) else written
  }

  /** Look a document up by link ID. The caller receives a value, so no
      later change on either side can reach the other. */
  function FindByID(s: Indexer, id: Uuid): (r: Result<Document>)
    ensures r.Ok? <==> id in s.docs
    ensures r.Ok? ==> r.value == s.docs[id]
    ensures r.Err? ==> r.error == ErrNotFound
  {
    if id in s.docs then Ok(CopyDoc(s.docs[id])) else Err(ErrNotFound)
  }

  /** What `UpdateScore` leaves behind. */
  datatype UpdateResult = UpdateResult(indexer: Indexer, outcome: Outcome)

  /** Set the score of a document, creating a placeholder when the link ID
      is unknown. The map entry is written before the engine is, so a
      failed engine write still leaves the new score in the map. The link
      ID is not checked against nil. */
  function UpdateScore(s: Indexer, id: Uuid, score: Score, engineOk: bool): (r: UpdateResult)
    ensures r.outcome == (if engineOk then Pass else Fail(ErrEngine))
    ensures r.indexer.docs.Keys == s.docs.Keys + {id}
    // an unknown key gets a document whose only non-zero fields are its link ID and score
    ensures id !in s.docs ==> r.indexer.docs[id] == Document(id, "", "", "", ZeroTime, score)
    // a known key changes in its score only
    ensures id in s.docs ==> r.indexer.docs[id] == s.docs[id].(pageRank := score)
    ensures forall k :: k in s.docs && k != id ==> r.indexer.docs[k] == s.docs[k]
    // the projection is rewritten from the updated entry only when the engine accepts it
    ensures engineOk ==>
              r.indexer.projection == s.projection[id := BleveDoc(r.indexer.docs[id].title, r.indexer.docs[id].content, score)]
    ensures !engineOk ==> r.indexer.projection == s.projection
  {
    var doc := if id in s.docs then s.docs[id] else Placeholder(id);
    var updated := doc.(pageRank := score);
    var docs := s.docs[id := updated];
    if engineOk then
      UpdateResult(Indexer(docs, s.projection[id := MakeBleveDoc(updated)]), Pass)
    else
      UpdateResult(Indexer(docs, s.projection), Fail(ErrEngine))
  }

  /** Go's `int(x)` for a `uint64` on a 64-bit platform: the same 64 bits
      read as a signed number. */
  function ToGoInt(x: UInt64): (r: Int64)
    ensures r as int == x as int || r as int == x as int - 0x1_0000_0000_0000_0000
    ensures 0 <= r <==> x < 0x8000_0000_0000_0000
  {
    if x < 0x8000_0000_0000_0000 then x as int as Int64
    else (x as int - 0x1_0000_0000_0000_0000) as Int64
  }

  /** Go's `uint64(x)` for an `int`. */
  function ToUInt64(x: Int64): (r: UInt64)
    ensures r as int % 0x1_0000_0000_0000_0000 == x as int % 0x1_0000_0000_0000_0000
  {
    if 0 <= x then x as int as UInt64 else (x as int + 0x1_0000_0000_0000_0000) as UInt64
  }

  /** The conversion loses no information: converting back restores the offset. */
  lemma ToGoIntRoundTrip(x: UInt64)
    ensures ToUInt64(ToGoInt(x)) == x
  {
  }

  /** The engine's query: all terms in any order, or one exact phrase. */
  datatype BleveQuery = MatchQuery(terms: string) | MatchPhraseQuery(phrase: string)

  datatype SearchRequest = SearchRequest(query: BleveQuery, sortBy: seq<string>, size: int, from: Int64)

  /** The state a result iterator starts from (its first page of engine
      hits is not modelled). */
  datatype Cursor = Cursor(request: SearchRequest, cumIdx: UInt64)

  /** Build the first search request for a query. */
  function Search(q: Query, engineOk: bool): (r: Result<Cursor>)
    ensures r.Err? <==> !engineOk
    ensures r.Err? ==> r.error == ErrEngine
    // a phrase query for the phrase type, a match query for every other type value
    ensures r.Ok? ==> r.value.request.query == (if q.queryType == QueryTypePhrase then MatchPhraseQuery(q.expression) else MatchQuery(q.expression))
    ensures r.Ok? ==> r.value.request.size == BatchSize && r.value.request.sortBy == SearchOrder
    // the request starts at the offset (read as a Go int), the iterator's count at the offset itself
    ensures r.Ok? ==> ToUInt64(r.value.request.from) == q.offset && r.value.cumIdx == q.offset
    ensures r.Ok? ==> (r.value.request.from as int == q.offset as int <==> q.offset < 0x8000_0000_0000_0000)
  {
    var bq := if q.queryType == QueryTypePhrase then MatchPhraseQuery(q.expression) else MatchQuery(q.expression);
    var req := SearchRequest(bq, SearchOrder, BatchSize, ToGoInt(q.offset));
    if !engineOk then Err(ErrEngine) else Ok(Cursor(req, q.offset))
  }
}
