/**
 * The remote table as the lookup code sees it: a query names a table and
 * one filter, and the answer is rows or an error. The client library behind
 * it is not modelled: a `Table` answers each query with a fixed function
 * and records, in order, every query it was sent.
 */
module Backend {
  import opened Wrappers
  import opened Converters

  /** `.eq(column, value)` or `.ilike(column, pattern)`. */
  datatype Filter = Eq(column: string, value: string) | ILike(column: string, pattern: string)

  /** `from(table).select('*')` followed by one filter. */
  datatype Query = Query(table: string, filter: Filter)

  datatype RemoteError = RemoteError(message: string)

  /** `{ data, error }`: `data` may be `null`. */
  datatype Response = Response(data: Option<seq<Row>>, error: Option<RemoteError>)

  /** A remote table: `answer` is what the backend returns for a query, `log` the queries sent so far. */
  class Table<R> {
    var log: seq<Query>
    const answer: Query -> R

    constructor (answer: Query -> R)
      ensures log == [] && this.answer == answer
    {
      log := [];
      this.answer := answer;
    }

    /** Sends one query and waits for its answer. */
    method Select(q: Query) returns (r: R)
      modifies this
      ensures log == old(log) + [q] && r == answer(q)
    {
      log := log + [q];
      r := answer(q);
    }
  }

  /** `data && data.length > 0` */
  predicate HasRows(data: Option<seq<Row>>) {
    data.Some? && |data.value| > 0
  }

}
