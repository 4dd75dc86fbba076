/** The indexer's shared vocabulary: the indexed document, the search query,
    the error kinds, and the fixed-width Go integers they are built from.
 */
module IndexModel {

  /** Go's `uint8`. */
  newtype UInt8 = x: int | 0 <= x < 0x100

  /** Go's `uint64`. */
  newtype UInt64 = x: int | 0 <= x < 0x1_0000_0000_0000_0000

  /** Go's `int` on a 64-bit platform. */
  newtype Int64 = x: int | -0x8000_0000_0000_0000 <= x < 0x8000_0000_0000_0000

  /** A UUID is sixteen bytes. */
  type Uuid = s: seq<UInt8> | |s| == 16 witness [0, 0, 0, 0, 0, 0, 0, 0, 0, 0, 0, 0, 0, 0, 0, 0]

  /** `uuid.Nil`, the all-zero UUID. */
  const Nil: Uuid := [0, 0, 0, 0, 0, 0, 0, 0, 0, 0, 0, 0, 0, 0, 0, 0]

  /** A point in time; the zero `time.Time` is `ZeroTime`. */
  type Time = int

  const ZeroTime: Time := 0

  /** A PageRank score. The indexer only copies scores, so any ordered
      number type serves; `float64` rounding plays no part. */
  type Score = real

  /** One crawled page, as indexed and as returned to callers. */
  datatype Document = Document(
    linkID: Uuid,
    url: string,
    title: string,
    content: string,
    indexedAt: Time,
    pageRank: Score)

  /** The zero `Document` value with only its link ID set. */
  function Placeholder(id: Uuid): (d: Document)
  {
    Document(id, "", "", "", ZeroTime, 0.0)
  }

  /** `QueryType` is a `uint8`; two of its values are named. */
  type QueryType = UInt8

  const QueryTypeMatch: QueryType := 0

  const QueryTypePhrase: QueryType := 1

  datatype Query = Query(queryType: QueryType, expression: string, offset: UInt64)

  /** The errors the indexer reports. A sentinel wrapped with `%w` is
      modelled as the sentinel itself, since `errors.Is` still finds it.
      `ErrText(e)` is an error formatted from `e` with `%v`: its message
      shows `e`, but it does not wrap `e`. `ErrEngine` stands for any error
      passed up from the full-text engine. */
  datatype Error = ErrNotFound | ErrMissingLinkID | ErrEngine | ErrText(shown: Error)

  /** Go's `errors.Is(e, target)`: whether `target` is `e` itself or is
      reached by unwrapping it. No error here wraps another, so only `e`
      itself matches. */
  predicate Is(e: Error, target: Error)
  {
    e == target
  }

  datatype Result<T> = Ok(value: T) | Err(error: Error)

  /** The result of an operation that returns only an `error`. */
  datatype Outcome = Pass | Fail(error: Error)
}
