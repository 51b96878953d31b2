/**
 * `findProductById` of `useProductLookup`: an exact match on the `cell`
 * table's `id`, then a case-insensitive partial match, then conversion of
 * the first row and an entry in the search history.
 */
module Lookup {
  import opened Wrappers
  import opened Catalogue
  import opened Converters
  import opened Backend
  import opened History

  const CellTable := "cell"

  /** `.eq('id', id)` */
  function ExactQuery(id: string): Query {
    Query(CellTable, Eq("id", id))
  }

  /** `.ilike('id', `%${id}%`)` */
  function PartialQuery(id: string): Query {
    Query(CellTable, ILike("id", "%" + id + "%"))
  }

  /** The answer the cascade settles on: the exact match if it has rows, else the partial match. */
  function Settled(id: string, answer: Query -> Response): Response {
    if HasRows(answer(ExactQuery(id)).data) then answer(ExactQuery(id)) else answer(PartialQuery(id))
  }

  /** The queries the cascade sends: the partial match only after an exact match without rows. */
  function Sent(id: string, answer: Query -> Response): seq<Query> {
    if HasRows(answer(ExactQuery(id)).data) then [ExactQuery(id)] else [ExactQuery(id), PartialQuery(id)]
  }

  /**
   * The two-step search: `data` and `error` are reassigned as the queries
   * come back, and every query goes through the table, which logs it.
   */
  method Search(id: string, table: Table<Response>)
    returns (data: Option<seq<Row>>, error: Option<RemoteError>)
    modifies table
    ensures table.log == old(table.log) + Sent(id, table.answer)
    ensures HasRows(table.answer(ExactQuery(id)).data) ==>
      data == table.answer(ExactQuery(id)).data && error == table.answer(ExactQuery(id)).error
    ensures !HasRows(table.answer(ExactQuery(id)).data) ==>
      data == table.answer(PartialQuery(id)).data && error == table.answer(PartialQuery(id)).error
  {
    data, error := None, None;
    var exactMatch := table.Select(ExactQuery(id));
    if HasRows(exactMatch.data) {
      data, error := exactMatch.data, exactMatch.error;
    } else {
      if !HasRows(data) {
        var partialMatch := table.Select(PartialQuery(id));
        data, error := partialMatch.data, partialMatch.error;
      }
    }
  }

  /** At most two queries, the exact one first; the partial one exactly when the exact one found nothing. */
  lemma SentShortCircuits(id: string, answer: Query -> Response)
    ensures 1 <= |Sent(id, answer)| <= 2 && Sent(id, answer)[0] == ExactQuery(id)
    ensures |Sent(id, answer)| == 1 <==> HasRows(answer(ExactQuery(id)).data)
    ensures |Sent(id, answer)| == 2 ==> Sent(id, answer)[1] == PartialQuery(id)
  {
  }

  /**
   * `findProductById`: a remote error or no rows gives `undefined` (the
   * toast is not modelled) and leaves the history alone; otherwise the first
   * row is converted and added to the history. `now` is the clock reading
   * the conversion takes.
   */
  method FindProductById(id: string, table: Table<Response>, now: string,
                         numberText: real -> string, history: ProductHistory)
    returns (r: Option<Product>)
    modifies table, history
    ensures table.log == old(table.log) + Sent(id, table.answer)
    ensures Settled(id, table.answer).error.Some? ==> r.None?
    ensures Settled(id, table.answer).error.None? && HasRows(Settled(id, table.answer).data) ==>
      r == Some(CellProduct(Settled(id, table.answer).data.value[0], now, numberText))
    ensures !HasRows(Settled(id, table.answer).data) ==> r.None?
    ensures r.Some? ==> history.searchHistory == Inserted(old(history.searchHistory), r.value)
    ensures r.None? ==> history.searchHistory == old(history.searchHistory)
    ensures history.storage.items == old(history.storage.items)
  {
    var data, error := Search(id, table);
    if error.Some? {
      return None;
    }
    if HasRows(data) {
      var product := ConvertCell(data.value[0], now, numberText);
      history.AddToHistory(product);
      return Some(product);
    }
    return None;
  }

}
