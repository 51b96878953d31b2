# Product lookup with a recent-search history

A model of the lookup core of a small single-page app that finds a product
(or a `cell` defect record) by identifier. It covers:

- the `Product` record, the ten-entry sample catalogue and its
  case-insensitive `findProductById` (`src/data/products.ts`);
- `convertSupabaseCell`, which normalises a loosely typed `cell` row into a
  `Product`: fixed fallbacks for the named columns, and every other non-null
  column copied into `specifications` (`src/utils/productConverters.ts`);
- the lookup cascade of `useProductLookup`: an exact match on `id`, and only
  when that has no rows, a case-insensitive partial match with the pattern
  `%id%`; then the error check, the first row, the conversion and the history
  entry (`src/hooks/useProductLookup.tsx`);
- the recent-search history of `useProductHistory`: remove the entry with the
  same `id`, prepend, keep ten; clear; save to and load from `localStorage`
  under the key `productSearchHistory` (`src/hooks/useProductHistory.tsx`);
- the `products`-table variant in `src/hooks/useProducts.tsx`:
  `convertSupabaseProduct` (fields copied, the date cut at the first `T`) and
  its single-row `findProductById`. Its `clearHistory`,
  `saveHistoryToLocalStorage` and `loadHistoryFromLocalStorage`
  (useProducts.tsx lines 63-85) and its inline history update (lines 43-46)
  are the same code as in `useProductHistory`, so the same `ProductHistory`
  members model both.

Files, one module each: `wrappers.dfy` (Option), `strings.dfy` (ASCII
lowercasing, `split(sep)[0]`), `catalogue.dfy`, `converters.dfy`,
`backend.dfy` (queries and responses of the remote table),
`history.dfy`, `lookup.dfy`, `products_hook.dfy`.

How the environment is represented:

- The remote table is a `Table` object: a fixed function from a `Query`
  (table plus one `eq` or `ilike` filter) to a `Response` (`data`, which may
  be null, and `error`), and a log to which `Select` appends every query it
  is sent. The order of the cascade and its short-circuit are stated on that
  log.
- `localStorage` is a `LocalStorage` object holding a `map<string, string>`,
  shared by reference the way the browser's store is shared by the hooks.
- `JSON.stringify`/`JSON.parse` are a `Codec` pair of functions; `parse`
  answers `None` where `JSON.parse` throws. `RoundTripsOn(codec, h)` says
  that the text saved for the list `h` is not empty and parses back to `h`;
  the save-then-load lemma assumes it only for the list being saved.
- The clock reading of `convertSupabaseCell` is the parameter `now` (the
  ISO timestamp), and JavaScript's number-to-string conversion, used when a
  number lands in a string field, is the parameter `numberText`.
- Row values are `Null`, `Text` or `Number` (a `real`); a missing column is
  absent from the row map. `Truthy` is JavaScript's truthiness for these.

The model follows the code: the history capacity is the constant 10 (there
is no resizing), a loaded list is adopted as it is (not cut to the
capacity), and the lookup cascade has exactly two steps on one column.

## Model

| member | source | states |
|---|---|---|
| Strings.Lower | src/data/products.ts:179 | `toLowerCase` on ASCII: same length, each letter `A`-`Z` mapped to its lower-case form, every other character unchanged |
| Strings.FirstSegment | src/hooks/useProducts.tsx:17 | `split('T')[0]`: a prefix of the string that contains no `T`, and is followed by a `T` whenever it is shorter than the string |
| Strings.FirstSegmentWithoutSeparator | src/hooks/useProducts.tsx:17 | a string without the separator is kept whole |
| Catalogue.Find | src/data/products.ts:179 | `find`: a returned product matches the query under lowercasing and no product before it does; `undefined` exactly when no product matches |
| Catalogue.FindIgnoresCase | src/data/products.ts:179 | queries equal under lowercasing give the same result |
| Catalogue.FindProductById | src/data/products.ts:178-180 | the result is a catalogue product whose id matches the query ignoring case; `undefined` exactly when none matches |
| Catalogue.SampleSerials | src/data/products.ts:14-175 | sample product `i` has id `P10` followed by the two decimal digits of `i + 1`, so the ids are `P1001` to `P1010` in order, and `Serial` reads back `i + 1` from each |
| Catalogue.SampleIdsDistinct | src/data/products.ts:14-175 | no two sample ids are equal, even ignoring case |
| Catalogue.AtMostOneSampleMatch | src/data/products.ts:14-180 | no query matches two sample products |
| Catalogue.SampleStockConsistent | src/data/products.ts:14-175 | every sample quantity is at least 0, and every out-of-stock sample has quantity 0 |
| Converters.TextOr | src/utils/productConverters.ts:17-20 | `row[c] or fallback`: the column's text when it is truthy text, the `numberText` rendering when it is a non-zero number, the fallback when it is missing, null, empty or 0 |
| Converters.CellProduct | src/utils/productConverters.ts:16-25 | id is the truthy `id` or `unknown-id`; name the truthy `defect type` or `Unknown Defect`; a truthy number in `id`, `defect type` or `date` is rendered with `numberText`; category `Row #: ` plus the truthy `#`, else empty; location the truthy `date` or empty; status in-stock; quantity the truthy numeric `value` or 0; the date part of the clock reading; `specifications` holds exactly the non-null columns other than `id`, `defect type`, `#`, `value`, `date`, each with its value verbatim |
| Converters.CellIdNeverEmpty | src/utils/productConverters.ts:17 | the normalised id is never empty |
| Converters.ConvertCell | src/utils/productConverters.ts:5-26 | the `forEach` over the row's entries builds exactly the specifications of `CellProduct`, and the record returned is `CellProduct` of the row |
| History.WithoutId | src/hooks/useProductHistory.tsx:11 | the filter keeps every entry whose id differs, as often as it occurs, drops every entry with the id, and keeps the survivors in their order: the result is a subsequence of the old list, holds no entry with the id, and is shorter by exactly the number of entries with the id |
| History.Inserted | src/hooks/useProductHistory.tsx:9-14 | the new list has 1 to 10 entries, the product first, no other entry with its id, and behind it the start of the filtered old list, as much of it as fits in 10 |
| History.InsertedKeepsOrder | src/hooks/useProductHistory.tsx:11-12 | the entries behind the new one are old entries in their old relative order |
| History.InsertedKeepsUnique | src/hooks/useProductHistory.tsx:10-13 | an old list with unique ids gives a new list with unique ids |
| History.InsertedFresh | src/hooks/useProductHistory.tsx:11-12 | a product with a new id is simply prepended and the list cut to 10 |
| History.InsertedIdempotent | src/hooks/useProductHistory.tsx:9-14 | adding the same product twice in a row gives the list that adding it once gives |
| History.InsertedAllFresh | src/hooks/useProductHistory.tsx:9-14 | adding products with pairwise distinct new ids leaves them most recent first ahead of the old list, cut to 10 |
| History.LoadMissingKey | src/hooks/useProductHistory.tsx:29-30 | with no stored key, loading changes nothing |
| History.LoadUnparseable | src/hooks/useProducts.tsx:75-84 | an unparseable stored value leaves the list unchanged and removes the key |
| History.SaveRestartLoad | src/hooks/useProductHistory.tsx:23-37 | when the encoding of the saved list parses back to it, saving, starting again with an empty list and loading restores the saved list |
| History.ClearRestartLoad | src/hooks/useProducts.tsx:63-85 | after clearing, starting again and loading finds no key and keeps the empty list |
| History.ProductHistory.constructor | src/hooks/useProductHistory.tsx:6 | the history starts empty |
| History.ProductHistory.AddToHistory | src/hooks/useProductHistory.tsx:9-14 | the list becomes `Inserted` of the old list; storage is untouched |
| History.ProductHistory.ClearHistory | src/hooks/useProductHistory.tsx:17-20 | the list becomes empty and the key `productSearchHistory` is removed, every other stored item kept |
| History.ProductHistory.SaveHistoryToLocalStorage | src/hooks/useProductHistory.tsx:23-25 | the key is set to the encoded list, the list and other items unchanged |
| History.ProductHistory.LoadHistoryFromLocalStorage | src/hooks/useProductHistory.tsx:28-38 | a missing or empty value changes nothing; a parse failure removes the key and keeps the list; otherwise the parsed list replaces the history |
| Lookup.Search | src/hooks/useProductLookup.tsx:26-61 | the table's log grows by exactly the queries of `Sent`: the exact query on `id`, then the partial `ilike` query with `%id%` only when the exact one returned no rows; the data and error kept are the exact match's when it had rows, else the partial match's |
| Lookup.SentShortCircuits | src/hooks/useProductLookup.tsx:35-60 | at most two queries are sent, the exact one first, and the partial one exactly when the exact one found no rows |
| Lookup.FindProductById | src/hooks/useProductLookup.tsx:22-96 | the table is sent the cascade's queries and no others; an error gives `undefined` and no history change; rows without error give the conversion of the first row, which is added to the history; no rows give `undefined`; storage untouched |
| ProductsHook.ConvertProduct | src/hooks/useProducts.tsx:9-20 | every field copied verbatim except the date, which is the part of `last_updated` before the first `T` |
| ProductsHook.ConvertProductPlainDate | src/hooks/useProducts.tsx:17 | a `last_updated` without `T` is kept whole |
| ProductsHook.FindProductById | src/hooks/useProducts.tsx:27-61 | exactly one query is sent; an error gives `undefined`; a row without error gives its conversion, put at the front of the history as `addToHistory` does; no row gives `undefined`; the history changes only on a hit |

## Left out

- The Supabase client, its configuration and its mock: the remote table is
  an abstract function from query to response; what `ilike` and `.single()`
  match is the backend's business.
- `useAllProducts` and the `useQuery` wrapper: a plain map of a converter
  over the fetched rows.
- All React rendering, effects and tab state, the scanner's 300 ms debounce
  and scan-mode toggle, and the check that skips empty or blank input (it
  lives in the scanner component, not in the lookup).
- Toasts, `console` logging and async scheduling: a lookup is one
  uninterrupted call here.
- Real JSON and real `localStorage`: an abstract codec and a map of strings.
  A `JSON.parse` that succeeds with something other than a list of products
  is not modelled (the code would store it as the history).
- Capacity resizing (`maxHistoryItems`, `changeMaxHistoryItems`): named by
  the lookup hook but implemented by no file modelled here.
- The clock read of `convertSupabaseCell` and JavaScript's number-to-string
  conversion: parameters, not computed.
- Lowercasing: ASCII letters only; `toLowerCase` also maps other Unicode
  letters.
- Row values that are booleans, objects or arrays, and NaN: not modelled.
- CellProduct: a non-empty text in the `value` column gives quantity 0, whereas
  the JavaScript code stores that string in the numeric `quantity` field; and
  a number in `id`, `defect type` or `date` is rendered with `numberText`
  rather than kept as a number.
- ConvertCell: the order in which `Object.entries` visits the columns is not
  modelled; the loop takes them in any order, which cannot change the map
  it builds.
