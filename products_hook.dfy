/**
 * The `products`-table variant of the lookup hook: a typed row converted
 * field by field, a single-row exact match, and the same history handling.
 */
module ProductsHook {
  import opened Wrappers
  import opened Strings
  import opened Catalogue
  import opened Backend
  import opened History

  const ProductsTable := "products"

  /** A row of the `products` table. */
  datatype ProductRow = ProductRow(
    id: string,
    name: string,
    category: string,
    location: string,
    status: Status,
    quantity: real,
    last_updated: string,
    specifications: map<string, Value>)

  /** `{ data, error }` of a query ending in `.single()`: one row or none. */
  datatype SingleResponse = SingleResponse(data: Option<ProductRow>, error: Option<RemoteError>)

  /** `convertSupabaseProduct` */
  function ConvertProduct(row: ProductRow): (p: Product)
    ensures p.id == row.id && p.name == row.name && p.category == row.category
    ensures p.location == row.location && p.status == row.status && p.quantity == row.quantity
    ensures p.specifications == row.specifications
    ensures p.lastUpdated <= row.last_updated && 'T' !in p.lastUpdated
    ensures |p.lastUpdated| < |row.last_updated| ==> row.last_updated[|p.lastUpdated|] == 'T'
  {
    Product(row.id, row.name, row.category, row.location, row.status, row.quantity,
      FirstSegment(row.last_updated, 'T'), row.specifications)
  }

  /** A timestamp without a `T` is kept whole as the date. */
  lemma ConvertProductPlainDate(row: ProductRow)
    requires 'T' !in row.last_updated
    ensures ConvertProduct(row).lastUpdated == row.last_updated
  {
    FirstSegmentWithoutSeparator(row.last_updated, 'T');
  }

  /** `.eq('id', id)` on the `products` table */
  function ProductQuery(id: string): Query {
    Query(ProductsTable, Eq("id", id))
  }

  /**
   * `findProductById`: an error gives `undefined` and no history change;
   * a row is converted and put at the front of the history, in the same way
   * as `addToHistory`; no row gives `undefined`.
   */
  method FindProductById(id: string, table: Table<SingleResponse>, history: ProductHistory)
    returns (r: Option<Product>)
    modifies table, history
    ensures table.log == old(table.log) + [ProductQuery(id)]
    ensures table.answer(ProductQuery(id)).error.Some? ==> r.None?
    ensures table.answer(ProductQuery(id)).error.None? && table.answer(ProductQuery(id)).data.Some? ==>
      r == Some(ConvertProduct(table.answer(ProductQuery(id)).data.value))
    ensures table.answer(ProductQuery(id)).data.None? ==> r.None?
    ensures r.Some? ==> history.searchHistory == Inserted(old(history.searchHistory), r.value)
    ensures r.None? ==> history.searchHistory == old(history.searchHistory)
    ensures history.storage.items == old(history.storage.items)
  {
    var answer := table.Select(ProductQuery(id));
    if answer.error.Some? {
      return None;
    }
    if answer.data.Some? {
      var product := ConvertProduct(answer.data.value);
      history.AddToHistory(product);
      return Some(product);
    }
    return None;
  }

}
