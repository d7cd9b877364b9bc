/**
 * Products as the backend stores and serves them (`/products`, `/sync/products` in
 * src/routes.py) and as every page receives them, with the helpers the pages share:
 * the low-stock test (fewer than 5 available), column totals and the title/SKU search.
 */
module Catalog {
  import opened Wrappers
  import opened Seqs
  import Text

  /** A row of the stock history table (`StockLevel`); `timestamp` is its ISO text. */
  datatype StockLevel = StockLevel(total: int, available: int, notAvailable: int, timestamp: string)

  /** A row of the products table, as far as the endpoints read it. */
  datatype ProductRow = ProductRow(
    id: int, sku: string, mlItemId: string, mlInventoryId: Option<string>,
    title: string, createdAt: string)

  /** The `stock` object of a product; `lastUpdated` is `null` when there is no record. */
  datatype Stock = Stock(total: int, available: int, notAvailable: int, lastUpdated: Option<string>)

  /** A product as `/products` returns it and as the pages hold it. */
  datatype Product = Product(
    id: int, sku: string, mlItemId: string, mlInventoryId: Option<string>,
    title: string, createdAt: string, stock: Stock)

  /** The stock split the adjustment endpoint maintains. */
  predicate ConsistentStock(total: int, available: int, notAvailable: int) {
    0 <= available <= total && notAvailable == total - available
  }

  /** The JSON of one product, given its latest stock record if it has one. */
  function ProductJson(row: ProductRow, last: Option<StockLevel>): Product
  {
    var stock := match last
      case None => Stock(0, 0, 0, None)
      case Some(s) => Stock(s.total, s.available, s.notAvailable, Some(s.timestamp));
    Product(row.id, row.sku, row.mlItemId, row.mlInventoryId, row.title, row.createdAt, stock)
  }

  /**
   * A product without a stock record reports zeros and no update time; one with a record
   * reports that record. Either way a consistent record gives a consistent `stock` object.
   */
  lemma ProductJsonStock(row: ProductRow, last: Option<StockLevel>)
    ensures last.None? ==> ProductJson(row, last).stock == Stock(0, 0, 0, None)
    ensures last.Some? ==> ProductJson(row, last).stock.lastUpdated == Some(last.value.timestamp)
    ensures last.None? || ConsistentStock(last.value.total, last.value.available, last.value.notAvailable)
      ==> var s := ProductJson(row, last).stock; ConsistentStock(s.total, s.available, s.notAvailable)
    ensures ProductJson(row, last).id == row.id && ProductJson(row, last).title == row.title
  {
  }

  /** The latest record of a product, if any. */
  function LatestOf(latest: map<int, StockLevel>, id: int): Option<StockLevel>
  {
    if id in latest then Some(latest[id]) else None
  }

  /**
   * `get_products`: one JSON object per row of the user's products, in row order.
   * `latest` maps a product id to its newest stock record (the ordered query itself is
   * not part of this model).
   */
  method GetProducts(rows: seq<ProductRow>, latest: map<int, StockLevel>) returns (result: seq<Product>)
    ensures |result| == |rows|
    ensures forall i :: 0 <= i < |rows| ==> result[i] == ProductJson(rows[i], LatestOf(latest, rows[i].id))
    ensures forall i :: 0 <= i < |rows| && rows[i].id !in latest ==>
      result[i].stock == Stock(0, 0, 0, None)
  {
    result := [];
    var k := 0;
    while k < |rows|
      invariant 0 <= k <= |rows|
      invariant |result| == k
      invariant forall i :: 0 <= i < k ==> result[i] == ProductJson(rows[i], LatestOf(latest, rows[i].id))
    {
      result := result + [ProductJson(rows[k], LatestOf(latest, rows[k].id))];
      k := k + 1;
    }
  }

  // ---------------------------------------------------------------------------
  // `/sync/products`

  /** What `sync_products` keeps of a listing: its SKU, inventory id and title. */
  datatype Listing = Listing(sku: string, inventoryId: Option<string>, title: string)

  /** A text field of the item details: missing from the response, JSON `null`, or a string. */
  datatype JsonField = Absent | Null | Present(text: string)

  /** `details.get(key, default)`: the default when the key is missing, `None` for a `null`. */
  function Get(f: JsonField, default: string): (r: Option<string>)
    ensures r.None? <==> f.Null?
    ensures f.Absent? ==> r == Some(default)
    ensures f.Present? ==> r == Some(f.text)
  {
    match f
    case Absent => Some(default)
    case Null => None
    case Present(t) => Some(t)
  }

  /**
   * The item details the marketplace returns. `inventoryId` is `None` when the key is
   * missing or `null`, as `details.get("inventory_id")` gives for both. `stockAnswers`
   * says whether the fulfilment stock call for that inventory id returns a response
   * without raising; it is asked only when the inventory id is truthy.
   */
  datatype ItemDetails = ItemDetails(
    itemId: string, sellerCustomField: JsonField, inventoryId: Option<string>, title: JsonField,
    stockAnswers: bool)

  /** Python truthiness of a text field: present and non-empty. */
  predicate Truthy(f: JsonField) {
    f.Present? && f.text != ""
  }

  /**
   * Where the stock record of a listing takes its product id from. `UnflushedId` is
   * `product.id` read before a new listing has been flushed, which is still `null`;
   * `FlushedId` is the id after a flush (or through the relationship), never `null`.
   */
  datatype StockLink = UnflushedId | FlushedId

  /** A new listing with a truthy inventory id whose stock call answers gets a stock record. */
  predicate NewWithStock(listings: map<string, Listing>, item: ItemDetails) {
    item.itemId !in listings && item.inventoryId.Some? && item.inventoryId.value != "" && item.stockAnswers
  }

  /**
   * Whether processing `item` puts a `null` into a NOT NULL column: `products.title`
   * (written on both branches), `products.sku` (written on creation) or
   * `stock_levels.product_id` (a new listing's stock record, with an unflushed id).
   */
  predicate WritesNull(listings: map<string, Listing>, item: ItemDetails, link: StockLink) {
    item.title.Null? || (item.itemId !in listings && item.sellerCustomField.Null?) ||
    (link == UnflushedId && NewWithStock(listings, item))
  }

  /**
   * One iteration of the loop: create the listing, or refresh its inventory id and
   * title and fill in its SKU only when it has none and the item carries one. `None`
   * when a row would hold a `null` its table forbids, which fails at the next flush.
   */
  function SyncItem(listings: map<string, Listing>, item: ItemDetails, link: StockLink): Option<map<string, Listing>>
  {
    var sku := Get(item.sellerCustomField, "");
    var title := Get(item.title, "");
    if title.None? then None
    else if item.itemId !in listings then
      if sku.None? then None
      else if link == UnflushedId && NewWithStock(listings, item) then None
      else Some(listings[item.itemId := Listing(sku.value, item.inventoryId, title.value)])
    else
      var prev := listings[item.itemId];
      var kept := if prev.sku == "" && Truthy(item.sellerCustomField) then item.sellerCustomField.text else prev.sku;
      Some(listings[item.itemId := Listing(kept, item.inventoryId, title.value)])
  }

  /** The next iteration after `prev`; once a flush has failed the sync stays failed. */
  function SyncAfter(prev: Option<map<string, Listing>>, item: ItemDetails, link: StockLink): Option<map<string, Listing>>
  {
    match prev
    case None => None
    case Some(listings) => SyncItem(listings, item, link)
  }

  /** The listings after processing `items` in order, or `None` when the sync fails. */
  function SyncAll(listings: map<string, Listing>, items: seq<ItemDetails>, link: StockLink): Option<map<string, Listing>>
  {
    if |items| == 0 then Some(listings)
    else SyncAfter(SyncAll(listings, items[..|items| - 1], link), items[|items| - 1], link)
  }

  /** The item ids of `items`. */
  function ItemIds(items: seq<ItemDetails>): set<string>
  {
    if |items| == 0 then {} else ItemIds(items[..|items| - 1]) + {items[|items| - 1].itemId}
  }

  /** After a sync the listings are the old ones plus one per item id. */
  lemma {:induction false} SyncAllKeys(existing: map<string, Listing>, items: seq<ItemDetails>, link: StockLink)
    ensures SyncAll(existing, items, link).Some? ==>
      SyncAll(existing, items, link).value.Keys == existing.Keys + ItemIds(items)
  {
    if |items| > 0 {
      var before := SyncAll(existing, items[..|items| - 1], link);
      SyncAllKeys(existing, items[..|items| - 1], link);
      if before.Some? {
        SyncItemKeys(before.value, items[|items| - 1], link);
      }
    }
  }

  lemma SyncAllSnoc(existing: map<string, Listing>, items: seq<ItemDetails>, k: nat, link: StockLink)
    requires k < |items|
    ensures SyncAll(existing, items[..k + 1], link) == SyncAfter(SyncAll(existing, items[..k], link), items[k], link)
  {
    assert items[..k + 1][..k] == items[..k];
  }

  /** A sync that has failed on a prefix of the items fails as a whole. */
  lemma {:induction false} SyncPrefixFails(existing: map<string, Listing>, items: seq<ItemDetails>, j: nat, link: StockLink)
    requires j <= |items| && SyncAll(existing, items[..j], link).None?
    ensures SyncAll(existing, items, link).None?
  {
    if j == |items| {
      assert items[..j] == items;
    } else {
      var init := items[..|items| - 1];
      assert init[..j] == items[..j];
      SyncPrefixFails(existing, init, j, link);
    }
  }

  /**
   * A synced item's id is a listing afterwards, and only a new id adds one. The item
   * fails exactly when it writes a `null`; an existing listing fails only on a `null` title.
   */
  lemma SyncItemKeys(listings: map<string, Listing>, item: ItemDetails, link: StockLink)
    ensures SyncItem(listings, item, link).None? <==> WritesNull(listings, item, link)
    ensures item.itemId in listings ==> (SyncItem(listings, item, link).None? <==> item.title.Null?)
    ensures SyncItem(listings, item, link).Some? ==>
      SyncItem(listings, item, link).value.Keys == listings.Keys + {item.itemId} &&
      |SyncItem(listings, item, link).value.Keys| == |listings.Keys| + if item.itemId in listings then 0 else 1
  {
    var r := SyncItem(listings, item, link);
    if r.Some? {
      var after := r.value.Keys;
      if item.itemId in listings {
        assert after == listings.Keys;
      } else {
        assert after == listings.Keys + {item.itemId};
        assert |listings.Keys + {item.itemId}| == |listings.Keys| + 1;
      }
    }
  }

  /** Item `k` is reached with the sync still going and writes a `null` where none is allowed. */
  predicate FailsAt(existing: map<string, Listing>, items: seq<ItemDetails>, k: int, link: StockLink) {
    0 <= k < |items| && SyncAll(existing, items[..k], link).Some? &&
    WritesNull(SyncAll(existing, items[..k], link).value, items[k], link)
  }

  /** Dropping the last item changes no earlier item's outcome. */
  lemma FailsAtInit(existing: map<string, Listing>, items: seq<ItemDetails>, k: int, link: StockLink)
    requires 0 <= k < |items| - 1
    ensures FailsAt(existing, items, k, link) <==> FailsAt(existing, items[..|items| - 1], k, link)
  {
    assert items[..|items| - 1][..k] == items[..k];
  }

  /**
   * The whole sync fails exactly when some item writes a `null` into the listings as
   * they stand when it is reached.
   */
  lemma {:induction false} SyncAllFails(existing: map<string, Listing>, items: seq<ItemDetails>, link: StockLink)
    ensures SyncAll(existing, items, link).None? <==> exists k :: FailsAt(existing, items, k, link)
  {
    if |items| > 0 {
      var n := |items| - 1;
      var init := items[..n];
      assert init == items[..n];
      SyncAllFails(existing, init, link);
      var before := SyncAll(existing, init, link);
      if before.None? {
        var k :| FailsAt(existing, init, k, link);
        FailsAtInit(existing, items, k, link);
      } else {
        SyncItemKeys(before.value, items[n], link);
        if exists k :: FailsAt(existing, items, k, link) {
          var k :| FailsAt(existing, items, k, link);
          if k < n {
            FailsAtInit(existing, items, k, link);
            assert false;
          }
        } else {
          assert !FailsAt(existing, items, n, link);
        }
      }
    }
  }

  /**
   * With stock records linked to a flushed id, a sync whose items carry no `null` title
   * or SKU never fails.
   */
  lemma SyncWithoutNullsSucceeds(existing: map<string, Listing>, items: seq<ItemDetails>)
    requires forall i :: 0 <= i < |items| ==> !items[i].title.Null? && !items[i].sellerCustomField.Null?
    ensures SyncAll(existing, items, FlushedId).Some?
  {
    forall k | 0 <= k < |items|
      ensures !FailsAt(existing, items, k, FlushedId)
    {
    }
    SyncAllFails(existing, items, FlushedId);
  }

  /**
   * As written, the first sync of a new listing with an inventory id whose stock call
   * answers fails, although nothing in the item is `null`; with a flushed id it succeeds.
   */
  lemma NewListingWithStockFails()
    ensures var item := ItemDetails("MLB1", Present("S1"), Some("INV1"), Present("T1"), true);
      SyncAll(map[], [item], UnflushedId).None? &&
      SyncAll(map[], [item], FlushedId) == Some(map["MLB1" := Listing("S1", Some("INV1"), "T1")])
  {
    var item := ItemDetails("MLB1", Present("S1"), Some("INV1"), Present("T1"), true);
    assert [item][..0] == [];
  }

  /** Where the sync as written succeeds, it stores what the corrected one stores. */
  lemma {:induction false} SyncLinksAgree(existing: map<string, Listing>, items: seq<ItemDetails>)
    ensures SyncAll(existing, items, UnflushedId).Some? ==>
      SyncAll(existing, items, UnflushedId) == SyncAll(existing, items, FlushedId)
  {
    if |items| > 0 {
      SyncLinksAgree(existing, items[..|items| - 1]);
    }
  }

  /** One turn of the loop of `sync_products`, seen from the fold. */
  lemma SyncStep(existing: map<string, Listing>, items: seq<ItemDetails>, k: nat, listings: map<string, Listing>)
    requires k < |items| && SyncAll(existing, items[..k], UnflushedId) == Some(listings)
    ensures SyncAll(existing, items[..k + 1], UnflushedId) == SyncItem(listings, items[k], UnflushedId)
    ensures SyncItem(listings, items[k], UnflushedId).None? ==> SyncAll(existing, items, UnflushedId).None?
    ensures SyncItem(listings, items[k], UnflushedId).Some? ==>
      |SyncItem(listings, items[k], UnflushedId).value.Keys| == |listings.Keys| + if items[k].itemId in listings then 0 else 1
  {
    SyncAllSnoc(existing, items, k, UnflushedId);
    if SyncItem(listings, items[k], UnflushedId).None? {
      SyncPrefixFails(existing, items, k + 1, UnflushedId);
    } else {
      SyncItemKeys(listings, items[k], UnflushedId);
    }
  }

  /** The result of `/sync/products`: the new listings and the two counts, or the 500 answer. */
  datatype SyncResult =
    | Synced(listings: map<string, Listing>, newCount: nat, updatedCount: nat)
    | SyncFailed

  /**
   * The loop of `sync_products` over the item ids, as written: every item is counted as
   * new or as updated, and each new item adds exactly one listing. An item that leaves a
   * `null` in a NOT NULL column, a new listing's stock record included, makes the next
   * flush raise; the session is rolled back and the route answers 500.
   */
  method SyncProducts(existing: map<string, Listing>, items: seq<ItemDetails>) returns (result: SyncResult)
    ensures result.SyncFailed? <==> SyncAll(existing, items, UnflushedId).None?
    ensures result.Synced? ==> Some(result.listings) == SyncAll(existing, items, UnflushedId)
    ensures result.Synced? ==> result.newCount + result.updatedCount == |items|
    ensures result.Synced? ==> result.newCount == |result.listings.Keys| - |existing.Keys|
    ensures result.Synced? ==> result.listings.Keys == existing.Keys + ItemIds(items)
  {
    var listings := existing;
    var newCount, updatedCount := 0, 0;
    var k := 0;
    while k < |items|
      invariant 0 <= k <= |items|
      invariant SyncAll(existing, items[..k], UnflushedId) == Some(listings)
      invariant newCount + updatedCount == k
      invariant newCount == |listings.Keys| - |existing.Keys|
    {
      var item := items[k];
      var next := SyncItem(listings, item, UnflushedId);
      SyncStep(existing, items, k, listings);
      if next.None? {
        return SyncFailed;
      }
      if item.itemId !in listings {
        newCount := newCount + 1;
      } else {
        updatedCount := updatedCount + 1;
      }
      listings := next.value;
      k := k + 1;
    }
    assert items[..|items|] == items;
    SyncAllKeys(existing, items, UnflushedId);
    result := Synced(listings, newCount, updatedCount);
  }

  /** A listing that has an SKU keeps it through any sync that succeeds. */
  lemma {:induction false} SyncKeepsSku(existing: map<string, Listing>, items: seq<ItemDetails>, id: string, link: StockLink)
    requires id in existing && existing[id].sku != ""
    ensures SyncAll(existing, items, link).Some? ==>
      id in SyncAll(existing, items, link).value && SyncAll(existing, items, link).value[id].sku == existing[id].sku
  {
    if |items| > 0 {
      SyncKeepsSku(existing, items[..|items| - 1], id, link);
    }
  }

  /**
   * An existing listing without an SKU takes the item's non-empty SKU and otherwise
   * stays empty; a `null` SKU does not fail an existing listing.
   */
  lemma SyncFillsMissingSku(listings: map<string, Listing>, item: ItemDetails, link: StockLink)
    requires item.itemId in listings && listings[item.itemId].sku == ""
    ensures SyncItem(listings, item, link).Some? <==> !item.title.Null?
    ensures SyncItem(listings, item, link).Some? ==>
      SyncItem(listings, item, link).value[item.itemId].sku == if item.sellerCustomField.Present? then item.sellerCustomField.text else ""
  {
  }

  /** Syncing an item touches only that item's listing, and refreshes its title. */
  lemma SyncItemLocal(listings: map<string, Listing>, item: ItemDetails, link: StockLink, other: string)
    requires SyncItem(listings, item, link).Some?
    ensures other != item.itemId ==>
      (other in SyncItem(listings, item, link).value <==> other in listings) &&
      (other in listings ==> SyncItem(listings, item, link).value[other] == listings[other])
    ensures SyncItem(listings, item, link).value[item.itemId].title == if item.title.Present? then item.title.text else ""
    ensures SyncItem(listings, item, link).value[item.itemId].inventoryId == item.inventoryId
  {
  }

  // ---------------------------------------------------------------------------
  // Helpers the pages share

  const LowStockLimit := 5

  /** The pages' fixed low-stock test: `product.stock.available < 5`. */
  predicate IsLowStock(p: Product) {
    p.stock.available < LowStockLimit
  }

  /** `products.filter(p => p.stock.available < 5)`. */
  function LowStockProducts(products: seq<Product>): seq<Product>
  {
    Filter(products, IsLowStock)
  }

  /** The low-stock list holds exactly the products with fewer than 5 available. */
  lemma LowStockProductsExact(products: seq<Product>)
    ensures forall p :: p in LowStockProducts(products) <==> p in products && p.stock.available < 5
  {
    forall p ensures p in LowStockProducts(products) <==> p in products && IsLowStock(p) {
      FilterMembers(products, IsLowStock, p);
    }
  }

  /** `products.find(p => p.id === id)`: the first product with that id. */
  function FindById(products: seq<Product>, id: int): (r: Option<Product>)
    ensures r.Some? ==> r.value in products && r.value.id == id
    ensures r.Some? ==> exists i :: (0 <= i < |products| && products[i] == r.value &&
      forall j :: 0 <= j < i ==> products[j].id != id)
    ensures r.None? <==> forall i :: 0 <= i < |products| ==> products[i].id != id
  {
    if |products| == 0 then None
    else if products[0].id == id then Some(products[0])
    else
      var rest := FindById(products[1..], id);
      if rest.Some? then
        var k :| 0 <= k < |products[1..]| && products[1..][k] == rest.value &&
          forall j :: 0 <= j < k ==> products[1..][j].id != id;
        assert products[k + 1] == rest.value;
        assert forall j :: 0 <= j < k + 1 ==> products[j].id != id by {
          forall j | 0 < j < k + 1 ensures products[j].id != id {
            assert products[j] == products[1..][j - 1];
          }
        }
        rest
      else rest
  }

  function AvailableOf(p: Product): int { p.stock.available }

  function NotAvailableOf(p: Product): int { p.stock.notAvailable }

  /** `products.reduce((sum, p) => sum + p.stock.available, 0)`. */
  function TotalAvailable(products: seq<Product>): int { SumBy(products, AvailableOf) }

  /** `products.reduce((sum, p) => sum + p.stock.not_available, 0)`. */
  function TotalNotAvailable(products: seq<Product>): int { SumBy(products, NotAvailableOf) }

  function TotalOf(p: Product): int { p.stock.total }

  /** The low-stock count is the number of listed products with fewer than 5 available. */
  lemma LowStockCount(products: seq<Product>)
    ensures |LowStockProducts(products)| == |set i | 0 <= i < |products| && products[i].stock.available < 5|
  {
    FilterCount(products, IsLowStock);
    var low := set i | 0 <= i < |products| && products[i].stock.available < 5;
    assert low == Positions(products, IsLowStock);
  }

  /**
   * With consistent stock records, the available and the unavailable totals split the
   * total stock of the listed products.
   */
  lemma TotalsSplitStock(products: seq<Product>)
    requires forall i :: 0 <= i < |products| ==>
      ConsistentStock(products[i].stock.total, products[i].stock.available, products[i].stock.notAvailable)
    ensures TotalAvailable(products) + TotalNotAvailable(products) == SumBy(products, TotalOf)
  {
    SumByAdd(products, AvailableOf, NotAvailableOf, TotalOf);
  }

  /** The search of the adjustment and shipment pages: the title or the SKU contains the term. */
  predicate MatchesTitleOrSku(p: Product, term: string) {
    Text.FieldMatches(p.title, term) || Text.FieldMatches(p.sku, term)
  }

  /** `products.filter(p => title or sku includes the term)`, in input order. */
  function SearchTitleOrSku(products: seq<Product>, term: string): seq<Product>
  {
    Filter(products, (p: Product) => MatchesTitleOrSku(p, term))
  }

  /**
   * The search keeps exactly the products whose title or SKU contains the term, ignoring
   * case, and an empty term keeps the whole list.
   */
  lemma SearchTitleOrSkuExact(products: seq<Product>, term: string)
    ensures forall p :: p in SearchTitleOrSku(products, term) <==> p in products && MatchesTitleOrSku(p, term)
    ensures term == "" ==> SearchTitleOrSku(products, term) == products
  {
    var m := (p: Product) => MatchesTitleOrSku(p, term);
    forall p ensures p in Filter(products, m) <==> p in products && m(p) {
      FilterMembers(products, m, p);
    }
    if term == "" {
      forall i | 0 <= i < |products| ensures m(products[i]) {
        Text.EmptyTermMatches(products[i].title);
      }
      FilterAll(products, m);
    }
  }
}
