/** Properties of the in-memory indexer over any sequence of writes: the
    stores stay consistent with each other, keys are never lost, and each
    field group of a stored document holds the value of the last call that
    wrote it.
 */
module IndexerTraces {
  import opened IndexModel
  import opened MemoryIndexer

  /** A mutating call, with the inputs the model takes from outside. */
  datatype Op =
    | IndexOp(doc: Document, now: Time, engineOk: bool)
    | UpdateScoreOp(id: Uuid, score: Score, engineOk: bool)

  /** One call. `Index` and `IndexWrapped` change the stores alike. */
  function Step(s: Indexer, op: Op): (r: Indexer)
  {
    match op
    case IndexOp(d, t, ok) => IndexWrapped(s, d, t, ok).indexer
    case UpdateScoreOp(id, x, ok) => UpdateScore(s, id, x, ok).indexer
  }

  /** The stores after applying `ops` in order, starting from `s`. No store
      ever loses a key. */
  function Run(s: Indexer, ops: seq<Op>): (r: Indexer)
    ensures s.docs.Keys <= r.docs.Keys
    ensures s.projection.Keys <= r.projection.Keys
    decreases |ops|
  {
    if ops == [] then s else Step(Run(s, ops[..|ops| - 1]), ops[|ops| - 1])
  }

  /** The two stores agree: every entry sits under its own link ID, the
      engine only knows keys the map knows, and the engine's title and
      content are the stored ones. Scores may differ. That it survives a
      failed engine write rests on the model's assumption that such a write
      leaves the engine as it was. */
  ghost predicate Consistent(s: Indexer)
  {
    && (forall k :: k in s.docs ==> s.docs[k].linkID == k)
    && s.projection.Keys <= s.docs.Keys
    && (forall k :: k in s.projection ==>
          s.projection[k].title == s.docs[k].title && s.projection[k].content == s.docs[k].content)
  }

  lemma EmptyIsConsistent()
    ensures Consistent(Empty)
  {
  }

  lemma IndexPreservesConsistent(s: Indexer, doc: Document, now: Time, engineOk: bool)
    requires Consistent(s)
    ensures Consistent(Index(s, doc, now, engineOk).indexer)
  {
  }

  lemma UpdateScorePreservesConsistent(s: Indexer, id: Uuid, score: Score, engineOk: bool)
    requires Consistent(s)
    ensures Consistent(UpdateScore(s, id, score, engineOk).indexer)
  {
  }

  lemma {:induction false} RunPreservesConsistent(s: Indexer, ops: seq<Op>)
    requires Consistent(s)
    ensures Consistent(Run(s, ops))
    decreases |ops|
  {
    if ops != [] {
      var prefix := ops[..|ops| - 1];
      RunPreservesConsistent(s, prefix);
      match ops[|ops| - 1]
      case IndexOp(d, t, ok) => IndexPreservesConsistent(Run(s, prefix), d, t, ok);
      case UpdateScoreOp(id, x, ok) => UpdateScorePreservesConsistent(Run(s, prefix), id, x, ok);
    }
  }

  /** Whether a call adds `k` to the map when it is absent: a successful
      `Index` of a non-nil link ID, or any `UpdateScore`. */
  predicate Creates(op: Op, k: Uuid)
  {
    match op
    case IndexOp(d, _, ok) => ok && d.linkID == k && k != Nil
    case UpdateScoreOp(id, _, _) => id == k
  }

  /** The map holds exactly the keys it started with and the keys some call created. */
  lemma {:induction false} RunKeys(s: Indexer, ops: seq<Op>, k: Uuid)
    ensures k in Run(s, ops).docs <==> k in s.docs || exists i :: 0 <= i < |ops| && Creates(ops[i], k)
    decreases |ops|
  {
    if ops != [] {
      var n := |ops| - 1;
      var prefix := ops[..n];
      RunKeys(s, prefix, k);
      if exists i :: 0 <= i < |prefix| && Creates(prefix[i], k) {
        var i :| 0 <= i < |prefix| && Creates(prefix[i], k);
        assert Creates(ops[i], k);
      }
      if exists i :: 0 <= i < |ops| && Creates(ops[i], k) {
        var i :| 0 <= i < |ops| && Creates(ops[i], k);
        if i < n {
          assert Creates(prefix[i], k);
        }
      }
    }
  }

  /** `Index` of a known key leaves its score alone, so a score set by
      `UpdateScore` survives any later re-indexing. */
  lemma {:induction false} LastScoreUpdateWins(s: Indexer, ops: seq<Op>, i: nat, k: Uuid, x: Score)
    requires i < |ops| && ops[i].UpdateScoreOp? && ops[i].id == k && ops[i].score == x
    requires forall j :: i < j < |ops| ==> !(ops[j].UpdateScoreOp? && ops[j].id == k)
    ensures k in Run(s, ops).docs && Run(s, ops).docs[k].pageRank == x
    decreases |ops|
  {
    var n := |ops| - 1;
    if i < n {
      var prefix := ops[..n];
      LastScoreUpdateWins(s, prefix, i, k, x);
    }
  }

  /** With no `UpdateScore` on a known key, its score never changes,
      however often it is re-indexed. */
  lemma {:induction false} ScoreSurvivesReindex(s: Indexer, ops: seq<Op>, k: Uuid)
    requires k in s.docs
    requires forall j :: 0 <= j < |ops| ==> !(ops[j].UpdateScoreOp? && ops[j].id == k)
    ensures k in Run(s, ops).docs && Run(s, ops).docs[k].pageRank == s.docs[k].pageRank
    decreases |ops|
  {
    if ops != [] {
      ScoreSurvivesReindex(s, ops[..|ops| - 1], k);
    }
  }

  /** Whether a call rewrites the text fields stored under `k`. */
  predicate WritesText(op: Op, k: Uuid)
  {
    op.IndexOp? && op.engineOk && op.doc.linkID == k && k != Nil
  }

  /** The URL, title, content and time stored under a key are those of the
      last successful `Index` of it; `UpdateScore` and failed writes leave
      them alone. */
  lemma {:induction false} LastIndexWins(s: Indexer, ops: seq<Op>, i: nat, k: Uuid)
    requires i < |ops| && WritesText(ops[i], k)
    requires forall j :: i < j < |ops| ==> !WritesText(ops[j], k)
    ensures k in Run(s, ops).docs
    ensures Run(s, ops).docs[k] == ops[i].doc.(indexedAt := ops[i].now, pageRank := Run(s, ops).docs[k].pageRank)
    decreases |ops|
  {
    var n := |ops| - 1;
    if i < n {
      var prefix := ops[..n];
      LastIndexWins(s, prefix, i, k);
    }
  }

  /** Index a page, score it, re-index it with new text: the lookup shows
      the new text with the score from the update. */
  lemma ReindexAfterScoreUpdate(s: Indexer, a: Document, t1: Time, x: Score, b: Document, t2: Time)
    requires a.linkID != Nil && b.linkID == a.linkID
    ensures
      var s1 := Index(s, a, t1, true).indexer;
      var s2 := UpdateScore(s1, a.linkID, x, true).indexer;
      var s3 := Index(s2, b, t2, true).indexer;
      FindByID(s3, a.linkID) == Ok(b.(indexedAt := t2, pageRank := x))
  {
  }

  /** What `Index` stores is what `FindByID` then returns: the caller's
      document, stamped, with the score the key already had if it had one. */
  lemma IndexThenFind(s: Indexer, doc: Document, now: Time)
    requires doc.linkID != Nil
    ensures FindByID(Index(s, doc, now, true).indexer, doc.linkID)
         == Ok(doc.(indexedAt := now, pageRank := if doc.linkID in s.docs then s.docs[doc.linkID].pageRank else doc.pageRank))
  {
  }

  /** `Index` refuses a nil link ID before it takes the lock, so the
      refusal is invisible to every later `FindByID`. */
  lemma RefusedIndexThenFind(s: Indexer, doc: Document, now: Time, engineOk: bool, id: Uuid)
    requires doc.linkID == Nil
    ensures FindByID(Index(s, doc, now, engineOk).indexer, id) == FindByID(s, id)
  {
  }

  /** A failed engine write in `Index` leaves both stores as they were. */
  lemma FailedIndexKeepsStores(s: Indexer, doc: Document, now: Time)
    requires doc.linkID != Nil
    ensures Index(s, doc, now, false).outcome == Fail(ErrEngine)
    ensures Index(s, doc, now, false).indexer == s
  {
  }

  /** Scoring an unknown key makes it findable as a placeholder. */
  lemma UpdateScoreThenFind(s: Indexer, id: Uuid, score: Score, engineOk: bool)
    requires id !in s.docs
    ensures FindByID(UpdateScore(s, id, score, engineOk).indexer, id) == Ok(Placeholder(id).(pageRank := score))
  {
  }

  /** After re-indexing a known key the engine ranks by the caller's score
      while the map keeps the old one. */
  lemma ReindexProjectionScoreIsCallers(s: Indexer, doc: Document, now: Time)
    requires doc.linkID != Nil && doc.linkID in s.docs
    ensures
      var r := Index(s, doc, now, true).indexer;
      && r.projection[doc.linkID].pageRank == doc.pageRank
      && r.docs[doc.linkID].pageRank == s.docs[doc.linkID].pageRank
  {
  }

  /** A failed engine write in `UpdateScore` still changes the stored score;
      the engine, assumed untouched by a failed write, keeps its old entry. */
  lemma FailedUpdateScoreStillWrites(s: Indexer, id: Uuid, score: Score)
    ensures
      var r := UpdateScore(s, id, score, false);
      && r.outcome == Fail(ErrEngine)
      && r.indexer.docs[id].pageRank == score
      && r.indexer.projection == s.projection
  {
  }
}
