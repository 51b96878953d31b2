/**
 * The recent-search history: a most-recent-first list of products, at most
 * ten long and unique by identifier, kept in React state and mirrored in
 * the browser's local storage under one fixed key.
 */
module History {
  import opened Wrappers
  import opened Catalogue

  const HistoryKey := "productSearchHistory"

  /** The length `slice(0, 10)` cuts the list to. */
  const MaxEntries: nat := 10

  /** `a` is `b` with some entries left out, the rest in their order. */
  predicate IsSubsequence(a: seq<Product>, b: seq<Product>)
    decreases |b|
  {
    if a == [] then true
    else if b == [] then false
    else (a[0] == b[0] && IsSubsequence(a[1..], b[1..])) || IsSubsequence(a, b[1..])
  }

  /** How many entries of `history` have identifier `id`. */
  function CountWithId(history: seq<Product>, id: string): nat {
    if history == [] then 0
    else (if history[0].id == id then 1 else 0) + CountWithId(history[1..], id)
  }

  /** `history.filter(item => item.id !== id)` */
  function WithoutId(history: seq<Product>, id: string): (r: seq<Product>)
    ensures forall q :: q in r <==> q in history && q.id != id
    ensures IsSubsequence(r, history)
    ensures |r| == |history| - CountWithId(history, id)
  {
    if history == [] then []
    else
      var rest := WithoutId(history[1..], id);
      if history[0].id == id then rest
      else
        assert ([history[0]] + rest)[1..] == rest;
        [history[0]] + rest
  }

  /** No two entries share an identifier. */
  predicate UniqueIds(history: seq<Product>) {
    forall i, j :: 0 <= i < j < |history| ==> history[i].id != history[j].id
  }

  /** The first `n` entries, or all of them: `slice(0, n)`. */
  function Take(s: seq<Product>, n: nat): (r: seq<Product>)
    ensures r <= s
    ensures |r| == if |s| <= n then |s| else n
  {
    if |s| <= n then s else s[..n]
  }

  /** The list `addToHistory(product)` replaces `history` with. */
  function Inserted(history: seq<Product>, product: Product): (r: seq<Product>)
    ensures 1 <= |r| <= MaxEntries
    ensures r[0] == product
    ensures forall i :: 1 <= i < |r| ==> r[i].id != product.id
    ensures r[1..] <= WithoutId(history, product.id)
    ensures |r| == if |WithoutId(history, product.id)| < MaxEntries
                   then |WithoutId(history, product.id)| + 1 else MaxEntries
  {
    Take([product] + WithoutId(history, product.id), MaxEntries)
  }

  lemma {:induction false} PrefixIsSubsequence(a: seq<Product>, a': seq<Product>, b: seq<Product>)
    requires a' <= a && IsSubsequence(a, b)
    ensures IsSubsequence(a', b)
    decreases |b|
  {
    if a' != [] && b != [] {
      if a[0] == b[0] && IsSubsequence(a[1..], b[1..]) {
        PrefixIsSubsequence(a[1..], a'[1..], b[1..]);
      } else {
        PrefixIsSubsequence(a, a', b[1..]);
      }
    }
  }

  /** The entries kept behind the new front entry are old entries, in their old order. */
  lemma InsertedKeepsOrder(history: seq<Product>, product: Product)
    ensures IsSubsequence(Inserted(history, product)[1..], history)
  {
    PrefixIsSubsequence(WithoutId(history, product.id), Inserted(history, product)[1..], history);
  }

  lemma UniqueTail(history: seq<Product>)
    requires history != [] && UniqueIds(history)
    ensures UniqueIds(history[1..])
    ensures forall q :: q in history[1..] ==> q.id != history[0].id
  {
    var rest := history[1..];
    forall i, j | 0 <= i < j < |rest| ensures rest[i].id != rest[j].id {
      assert rest[i] == history[i + 1] && rest[j] == history[j + 1];
    }
    forall q | q in rest ensures q.id != history[0].id {
      var k :| 0 <= k < |rest| && rest[k] == q;
      assert q == history[k + 1];
    }
  }

  lemma UniqueCons(front: Product, rest: seq<Product>)
    requires UniqueIds(rest)
    requires forall q :: q in rest ==> q.id != front.id
    ensures UniqueIds([front] + rest)
  {
    var r := [front] + rest;
    forall i, j | 0 <= i < j < |r| ensures r[i].id != r[j].id {
      assert r[j] == rest[j - 1];
      if i == 0 {
        assert r[j] in rest;
      } else {
        assert r[i] == rest[i - 1];
      }
    }
  }

  lemma {:induction false} WithoutIdKeepsUnique(history: seq<Product>, id: string)
    requires UniqueIds(history)
    ensures UniqueIds(WithoutId(history, id))
  {
    if history != [] {
      UniqueTail(history);
      WithoutIdKeepsUnique(history[1..], id);
      if history[0].id != id {
        UniqueCons(history[0], WithoutId(history[1..], id));
      }
    }
  }

  /** A history with unique identifiers stays so after an insertion. */
  lemma InsertedKeepsUnique(history: seq<Product>, product: Product)
    requires UniqueIds(history)
    ensures UniqueIds(Inserted(history, product))
  {
    WithoutIdKeepsUnique(history, product.id);
    var w := WithoutId(history, product.id);
    var r := Inserted(history, product);
    forall i, j | 0 <= i < j < |r| ensures r[i].id != r[j].id {
      if i > 0 {
        assert r[i] == w[i - 1] && r[j] == w[j - 1];
      }
    }
  }

  lemma {:induction false} WithoutAbsentId(history: seq<Product>, id: string)
    requires forall i :: 0 <= i < |history| ==> history[i].id != id
    ensures WithoutId(history, id) == history
  {
    if history != [] {
      WithoutAbsentId(history[1..], id);
      assert history == [history[0]] + history[1..];
    }
  }

  /** Inserting a product whose identifier is new just prepends it (and cuts to ten). */
  lemma InsertedFresh(history: seq<Product>, product: Product)
    requires forall i :: 0 <= i < |history| ==> history[i].id != product.id
    ensures Inserted(history, product) == Take([product] + history, MaxEntries)
  {
    WithoutAbsentId(history, product.id);
  }

  /** Adding the same product twice in a row is the same as adding it once. */
  lemma InsertedIdempotent(history: seq<Product>, product: Product)
    ensures Inserted(Inserted(history, product), product) == Inserted(history, product)
  {
    var r := Inserted(history, product);
    assert r == [r[0]] + r[1..];
    WithoutAbsentId(r[1..], product.id);
    assert WithoutId(r, product.id) == r[1..];
  }

  function Reverse(s: seq<Product>): seq<Product> {
    if s == [] then [] else [s[|s| - 1]] + Reverse(s[..|s| - 1])
  }

  /** The history after `addToHistory` of each of `products`, in order. */
  function InsertedAll(history: seq<Product>, products: seq<Product>): seq<Product> {
    if products == [] then history
    else Inserted(InsertedAll(history, products[..|products| - 1]), products[|products| - 1])
  }

  lemma TakeCons(p: Product, s: seq<Product>, n: nat)
    requires n >= 1
    ensures Take([p] + Take(s, n), n) == Take([p] + s, n)
  {
    if |s| > n {
      assert ([p] + s[..n])[..n] == ([p] + s)[..n];
    }
  }

  lemma {:induction false} ReverseHas(s: seq<Product>, q: Product)
    ensures q in Reverse(s) <==> q in s
  {
    if s != [] {
      ReverseHas(s[..|s| - 1], q);
      assert s == s[..|s| - 1] + [s[|s| - 1]];
    }
  }

  lemma UniquePrefix(s: seq<Product>, n: nat)
    requires n <= |s| && UniqueIds(s)
    ensures UniqueIds(s[..n])
  {
    forall i, j | 0 <= i < j < n ensures s[..n][i].id != s[..n][j].id {
      assert s[..n][i] == s[i] && s[..n][j] == s[j];
    }
  }

  lemma ReverseSnoc(front: seq<Product>, last: Product)
    ensures Reverse(front + [last]) == [last] + Reverse(front)
  {
    assert (front + [last])[..|front|] == front;
  }

  lemma InsertedAllSnoc(history: seq<Product>, front: seq<Product>, last: Product)
    ensures InsertedAll(history, front + [last]) == Inserted(InsertedAll(history, front), last)
  {
    assert (front + [last])[..|front|] == front;
  }

  /** One more fresh product goes in front of the list so far, which is cut to ten again. */
  lemma InsertedFreshStep(before: seq<Product>, newer: seq<Product>, history: seq<Product>, last: Product)
    requires before == Take(newer + history, MaxEntries)
    requires forall q :: q in newer + history ==> q.id != last.id
    ensures Inserted(before, last) == Take([last] + newer + history, MaxEntries)
  {
    forall i | 0 <= i < |before| ensures before[i].id != last.id {
      assert before[i] in newer + history;
    }
    InsertedFresh(before, last);
    TakeCons(last, newer + history, MaxEntries);
    assert [last] + (newer + history) == [last] + newer + history;
  }

  /** The last product's identifier occurs neither among the earlier products nor in the old list. */
  lemma LastIsFresh(history: seq<Product>, products: seq<Product>)
    requires products != []
    requires UniqueIds(products)
    requires forall p, q :: p in products && q in history ==> p.id != q.id
    ensures forall q :: q in Reverse(products[..|products| - 1]) + history ==>
      q.id != products[|products| - 1].id
  {
    var n := |products| - 1;
    var front := products[..n];
    forall q | q in Reverse(front) + history ensures q.id != products[n].id {
      ReverseHas(front, q);
      if q in front {
        var k :| 0 <= k < n && front[k] == q;
        assert q == products[k];
      }
    }
  }

  /**
   * Inserting products whose identifiers are new and pairwise distinct
   * leaves the last ten of them, most recent first, ahead of the old list.
   */
  lemma {:induction false} InsertedAllFresh(history: seq<Product>, products: seq<Product>)
    requires products != []
    requires UniqueIds(products)
    requires forall p, q :: p in products && q in history ==> p.id != q.id
    ensures InsertedAll(history, products) == Take(Reverse(products) + history, MaxEntries)
  {
    var n := |products| - 1;
    var front, last := products[..n], products[n];
    assert products == front + [last];
    InsertedAllSnoc(history, front, last);
    ReverseSnoc(front, last);
    if front == [] {
      InsertedFresh(history, last);
    } else {
      UniquePrefix(products, n);
      InsertedAllFresh(history, front);
      LastIsFresh(history, products);
      InsertedFreshStep(InsertedAll(history, front), Reverse(front), history, last);
    }
  }

  /** The JSON encoding of a history: `JSON.stringify` and a `JSON.parse` that may throw. */
  datatype Codec = Codec(stringify: seq<Product> -> string, parse: string -> Option<seq<Product>>)

  /** Parsing what was stringified from `history` gives it back, and the text is not empty. */
  predicate RoundTripsOn(codec: Codec, history: seq<Product>) {
    codec.stringify(history) != "" && codec.parse(codec.stringify(history)) == Some(history)
  }

  /** The browser's `localStorage`, shared by every hook of the page. */
  class LocalStorage {
    var items: map<string, string>

    constructor (items: map<string, string>)
      ensures this.items == items
    {
      this.items := items;
    }
  }

  /** What the history operations read and write: the in-memory list and the stored items. */
  datatype Snapshot = Snapshot(history: seq<Product>, items: map<string, string>)

  /** `clearHistory`: an empty list, and the key itself removed (not an empty list saved). */
  function Cleared(s: Snapshot): Snapshot {
    Snapshot([], s.items - {HistoryKey})
  }

  /** `saveHistoryToLocalStorage` */
  function Saved(s: Snapshot, codec: Codec): Snapshot {
    Snapshot(s.history, s.items[HistoryKey := codec.stringify(s.history)])
  }

  /**
   * `loadHistoryFromLocalStorage`: nothing happens for a missing or empty
   * value; a parse failure removes the key; otherwise the parsed list is
   * adopted as it stands.
   */
  function Loaded(s: Snapshot, codec: Codec): Snapshot {
    if HistoryKey !in s.items || s.items[HistoryKey] == "" then s
    else match codec.parse(s.items[HistoryKey])
      case Some(h) => Snapshot(h, s.items)
      case None => Snapshot(s.history, s.items - {HistoryKey})
  }

  lemma LoadMissingKey(s: Snapshot, codec: Codec)
    requires HistoryKey !in s.items
    ensures Loaded(s, codec) == s
  {
  }

  lemma LoadUnparseable(s: Snapshot, codec: Codec)
    requires HistoryKey in s.items && s.items[HistoryKey] != ""
    requires codec.parse(s.items[HistoryKey]).None?
    ensures Loaded(s, codec).history == s.history
    ensures Loaded(s, codec).items == s.items - {HistoryKey}
  {
  }

  /** Saving, restarting with an empty list and loading gives back the saved list. */
  lemma SaveRestartLoad(s: Snapshot, codec: Codec)
    requires RoundTripsOn(codec, s.history)
    ensures Loaded(Snapshot([], Saved(s, codec).items), codec) == Saved(s, codec)
  {
  }

  /** After clearing, a restart followed by a load finds nothing and keeps the empty list. */
  lemma ClearRestartLoad(s: Snapshot, codec: Codec)
    ensures Loaded(Snapshot([], Cleared(s).items), codec) == Cleared(s)
  {
  }

  /** The state of `useProductHistory`. */
  class ProductHistory {
    var searchHistory: seq<Product>
    const storage: LocalStorage
    const codec: Codec

    function State(): Snapshot
      reads this, storage
    {
      Snapshot(searchHistory, storage.items)
    }

    constructor (storage: LocalStorage, codec: Codec)
      ensures searchHistory == [] && this.storage == storage && this.codec == codec
    {
      searchHistory := [];
      this.storage := storage;
      this.codec := codec;
    }

    method AddToHistory(product: Product)
      modifies this
      ensures searchHistory == Inserted(old(searchHistory), product)
    {
      searchHistory := Inserted(searchHistory, product);
    }

    method ClearHistory()
      modifies this, storage
      ensures State() == Cleared(old(State()))
    {
      searchHistory := [];
      storage.items := storage.items - {HistoryKey};
    }

    method SaveHistoryToLocalStorage()
      modifies storage
      ensures State() == Saved(old(State()), codec)
    {
      storage.items := storage.items[HistoryKey := codec.stringify(searchHistory)];
    }

    method LoadHistoryFromLocalStorage()
      modifies this, storage
      ensures State() == Loaded(old(State()), codec)
    {
      var saved := if HistoryKey in storage.items then Some(storage.items[HistoryKey]) else None;
      if saved.Some? && saved.value != "" {
        match codec.parse(saved.value) {
          case Some(h) =>
            searchHistory := h;
          case None =>
            storage.items := storage.items - {HistoryKey};
        }
      }
    }
  }

}
