# In-memory text indexer, modelled in Dafny

This project models the in-memory indexer of the Links 'R' Us text indexer
(`textindexer/store/memory/bleve.go`). The indexer keeps two stores, both keyed
by a document's link ID:

- the authoritative map `docs`, holding a full copy of every `Document`;
- the bleve full-text index, holding only a projection of each document
  (`Title`, `Content`, `PageRank`) that is used for matching and ranking.

`Index`, `FindByID` and `UpdateScore` are modelled as pure transitions on an
immutable `Indexer` value that holds both stores as Dafny maps. Each
transition returns the new state together with the error, if any. Three
things come from outside and are passed in as inputs: the current time
(`time.Now()`), whether the engine accepted a write, and whether a search
request succeeded. `Search` is modelled up to the request it builds: the
query kind, the sort order, the page size, the start offset and the
iterator's starting position.

Modules:

- `IndexModel` (`index.dfy`): the `Document` record, `Query` and its
  `QueryType`, the error kinds, and the Go integer types they use. A UUID is
  sixteen bytes, and `Nil` is sixteen zero bytes. Go's zero `time.Time` is 0.
- `MemoryIndexer` (`memory.dfy`): the two stores and the operations `Index`,
  `FindByID`, `UpdateScore`, `Search`, `CopyDoc` and `MakeBleveDoc`. It also
  holds the `uint64`-to-`int` conversion that `Search` applies to the offset.
- `IndexerTraces` (`traces.dfy`): any sequence of `Index` and `UpdateScore`
  calls. It states a consistency invariant between the two stores, and
  "last writer wins" for the text fields and for the score.

Three behaviours of the code are modelled as written:

- `Index` builds the projection from the caller's document (bleve.go:73), not
  from the copy that carries the preserved score. The comment at bleve.go:69
  says the existing score is preserved on update, and it is, but only in the
  map. After re-indexing a known key, the engine holds the caller's
  `PageRank` while the map keeps the old one
  (`ReindexProjectionScoreIsCallers`). So the invariant `Consistent` relates
  only title and content, never scores.
- `UpdateScore` writes the map entry before it writes to the engine
  (bleve.go:124-130). A failed engine write still leaves the new score, or a
  new placeholder, in the map (`FailedUpdateScoreStillWrites`).
- `Index` formats its nil-key error with `%v` (bleve.go:62), so the error
  shows `ErrMissingLinkID` but does not wrap it. The other errors of the
  indexer use `%w`. `Index` returns `ErrText(ErrMissingLinkID)`, which `Is`
  does not match to the sentinel. `IndexWrapped` is the variant with `%w`;
  see "## Findings". The two change the stores alike, and the call
  sequences in `IndexerTraces` are built from `IndexWrapped`.

`UpdateScore` does not reject the nil link ID, unlike `Index`, and the model
keeps that difference.

## Model

| member | source | states |
|---|---|---|
| `MemoryIndexer.Index` | textindexer/store/memory/bleve.go:60-79 | A nil link ID fails with an error that shows `ErrMissingLinkID` without wrapping it, and changes nothing, not even the caller's document. Otherwise the caller's document is stamped with the given time. A failed engine write fails with the engine error and leaves both stores unchanged. On success, a fresh key stores the stamped document. A known key stores it with the previously stored score. The projection gets the caller's title, content and score. Exactly that one key is added or overwritten in each store, and `Index` never creates the nil key. |
| `MemoryIndexer.MissingLinkIDNotMatchable` | textindexer/store/memory/bleve.go:61-63 | For a nil link ID, `Index` fails, and `errors.Is` does not match its error to `ErrMissingLinkID`. |
| `MemoryIndexer.IndexWrapped` | textindexer/store/memory/bleve.go:60-79 | With the nil-key error wrapped by `%w`, a caller's `errors.Is` check for `ErrMissingLinkID` succeeds exactly when the link ID is nil. Success and the engine error occur as in `Index`, and the stores and the caller's document change exactly as in `Index`. |
| `MemoryIndexer.FindByID` | textindexer/store/memory/bleve.go:81-94 | It succeeds exactly when the key is stored, and then returns a value equal to the stored entry. Otherwise it fails with `ErrNotFound`. It returns no new state. |
| `MemoryIndexer.UpdateScore` | textindexer/store/memory/bleve.go:116-134 | The map gains exactly the given key. An unknown key gets a placeholder whose only non-zero fields are the link ID and the score. A known key changes in its score only, and other keys are untouched. The projection is rewritten from the updated entry only if the engine accepts the write; otherwise the engine error is returned. |
| `MemoryIndexer.CopyDoc` | textindexer/store/memory/bleve.go:136-140 | The copy equals the original in every field. Values are immutable, so the copy shares nothing with the original. |
| `MemoryIndexer.MakeBleveDocKeepsTextAndScore` | textindexer/store/memory/bleve.go:142-148 | Two documents have equal projections if and only if they agree on title, content and score. The projection forgets the link ID, URL and time. |
| `MemoryIndexer.Search` | textindexer/store/memory/bleve.go:96-114 | `QueryTypePhrase` gives a phrase query, and every other type value gives a match query on the same expression. The page size is 10 and the sort order is score, then relevance. The request starts at the offset converted to a Go `int`, and the iterator's cumulative index starts at the offset itself. A failed engine search is an error. |
| `MemoryIndexer.ToGoInt` | textindexer/store/memory/bleve.go:108 | `int(q.Offset)` equals the offset or the offset minus 2^64. It is non-negative exactly when the offset is below 2^63. |
| `MemoryIndexer.ToGoIntRoundTrip` | textindexer/store/memory/bleve.go:108 | Converting the offset to `int` and back gives the offset, so the request's start position determines the offset. |
| `IndexerTraces.Run` | textindexer/store/memory/bleve.go:58-134 | Over any sequence of `Index` and `UpdateScore` calls, neither the map nor the engine loses a key. |
| `IndexerTraces.EmptyIsConsistent` | textindexer/store/memory/bleve.go:47-50 | A new indexer, with both stores empty, is consistent. |
| `IndexerTraces.IndexPreservesConsistent` | textindexer/store/memory/bleve.go:60-78 | `Index` keeps the stores consistent: every entry sits under its own link ID, the engine knows only keys the map knows, and the engine's title and content equal the stored ones. In the failed-write case this assumes that a failed bleve write leaves the engine untouched. |
| `IndexerTraces.UpdateScorePreservesConsistent` | textindexer/store/memory/bleve.go:119-134 | `UpdateScore` keeps the stores consistent, whether or not the engine write succeeds. |
| `IndexerTraces.RunPreservesConsistent` | textindexer/store/memory/bleve.go:58-134 | Every sequence of `Index` and `UpdateScore` calls keeps the stores consistent. |
| `IndexerTraces.RunKeys` | textindexer/store/memory/bleve.go:58-134 | A key is in the map after a sequence of calls if and only if it was there before, or some call created it. A call creates a key when it is a successful `Index` of a non-nil link ID or any `UpdateScore` of that key. |
| `IndexerTraces.LastScoreUpdateWins` | textindexer/store/memory/bleve.go:69-72 | After the last `UpdateScore` of a key, no matter how often the key is re-indexed, the stored score is the score from that update, whether or not its engine write succeeded. |
| `IndexerTraces.ScoreSurvivesReindex` | textindexer/store/memory/bleve.go:69-72 | A stored key that receives no `UpdateScore` keeps its score through any sequence of calls. |
| `IndexerTraces.LastIndexWins` | textindexer/store/memory/bleve.go:64-76 | The link ID, URL, title, content and time stored under a key are those of the last successful `Index` of it, stamped with that call's time. |
| `IndexerTraces.ReindexAfterScoreUpdate` | textindexer/store/memory/bleve.go:60-134 | Index a page, score it, then re-index it with new text. `FindByID` then returns the new text with the updated score. |
| `IndexerTraces.IndexThenFind` | textindexer/store/memory/bleve.go:60-94 | After a successful `Index`, `FindByID` returns the caller's document, stamped, with the key's previous score if the key was known. |
| `IndexerTraces.RefusedIndexThenFind` | textindexer/store/memory/bleve.go:60-94 | `Index` refuses a nil link ID before it takes the lock. After that refusal, every `FindByID` answers as it did before. |
| `IndexerTraces.FailedIndexKeepsStores` | textindexer/store/memory/bleve.go:73-75 | A failed engine write in `Index` returns the engine error, and both stores are unchanged. This assumes that a failed bleve write leaves the engine untouched. In the program the lock also stays held (see "## Left out"). |
| `IndexerTraces.UpdateScoreThenFind` | textindexer/store/memory/bleve.go:119-129 | After `UpdateScore` of an unknown key, `FindByID` returns the placeholder with the given score, even if the engine write failed. |
| `IndexerTraces.ReindexProjectionScoreIsCallers` | textindexer/store/memory/bleve.go:70-76 | After re-indexing a known key, the engine holds the caller's score while the map keeps the old score. |
| `IndexerTraces.FailedUpdateScoreStillWrites` | textindexer/store/memory/bleve.go:124-132 | A failed engine write in `UpdateScore` returns the engine error, and the map still holds the new score. The engine keeps its old entry, on the assumption that a failed bleve write leaves it untouched. |

## Left out

- Bleve itself: tokenisation, match and phrase semantics, scoring, and the sort are a foreign library. The engine is an abstract map of projections, plus an input saying whether a write or a search succeeded.
- Search results and the result iterator: the iterator type used at bleve.go:113 is not part of this model, so the first page of hits, paging, `TotalCount` and the latched document are not modelled.
- `MemoryIndexer.Search`: it takes no indexer state, because the only part of the state it reads is the engine's result set, which is not modelled.
- Locking with `sync.RWMutex`: each operation is one atomic transition. The error return at bleve.go:74 leaves the write lock held. After a failed engine write in `Index`, every later call that takes the lock (`Index` of a non-nil link ID, `UpdateScore`, `FindByID`) blocks forever, even from the same goroutine. The model does not represent that. The lemmas in `IndexerTraces` describe call sequences as if the lock were released, so a sequence that continues after a failed `Index` is one the program never completes.
- A failed engine write is assumed to leave the engine's contents as they were. What bleve does on a failed write is not part of this model. `IndexPreservesConsistent`, `FailedIndexKeepsStores` and the engine half of `FailedUpdateScoreStillWrites` rest on this assumption.
- `MemoryIndexer.Index`: it takes the document by value, so the nil `*index.Document` that makes bleve.go:61 panic cannot be passed.
- `time.Now()` is an input. `PageRank` is a `real`, because the indexer only copies scores and never computes with them.
- Error text: the `xerrors` message prefixes are not modelled. Only which sentinel an error wraps is modelled, and whether it wraps one at all. An engine error is the single kind `ErrEngine`.
- `uuid.UUID.String()`: the google/uuid package is not part of this model. A UUID is used directly as the map key, which assumes that its string form is injective.
- `MemoryIndexer.ToGoInt`: it assumes Go's `int` is 64 bits wide. On a 32-bit platform `int(q.Offset)` would truncate further.
- `NewInMemoryBleveIndexer` and `Close`: constructor and resource release. The empty starting state is `MemoryIndexer.Empty`.
- The Elasticsearch backend (`textindexer/store/es`) is unimplemented in the source, and `linkgraph/graph/graph.go` declares interfaces only.

## Findings

| source | as written | input that shows it | evidently intended | confidence | as-written member | corrected member |
|---|---|---|---|---|---|---|
| textindexer/store/memory/bleve.go:62 | The nil-key error formats `index.ErrMissingLinkID` with `%v`, so the returned error has no `Unwrap` | `Index` of any document whose `LinkID` is `uuid.Nil`: `errors.Is(err, index.ErrMissingLinkID)` is false | Wrap with `%w`, as bleve.go:74, :93 and :131 do, so that callers can match the sentinel declared for this case (error.go:10) | not executed; high, from the documented `xerrors.Errorf` wrapping rule | `MemoryIndexer.MissingLinkIDNotMatchable` | `MemoryIndexer.IndexWrapped` |
