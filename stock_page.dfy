/**
 * The stock page (StockPage.tsx): the products filtered by the search box and the
 * low-stock switch, sorted by one stock figure, with the summary and the restocking
 * recommendations below the table.
 */
module StockPage {
  import opened Wrappers
  import opened Seqs
  import opened Sorting
  import opened Catalog

  /** The sortable columns: `'available' | 'total' | 'not_available'`. */
  datatype StockField = Available | Total | NotAvailable

  /** `product.stock[field]`. */
  function StockValue(p: Product, field: StockField): int {
    match field
    case Available => p.stock.available
    case Total => p.stock.total
    case NotAvailable => p.stock.notAvailable
  }

  function StockKey(field: StockField): Product -> Key {
    (p: Product) => Num(StockValue(p, field))
  }

  /** The initial header state: by available stock, most first; a new column starts descending. */
  method NewHeader() returns (h: SortHeader<StockField>)
    ensures fresh(h)
    ensures h.field == Available && h.direction == Desc && h.default == Desc
  {
    h := new SortHeader(Available, Desc, Desc);
  }

  /** The row test: title or SKU matches and, with the switch on, fewer than 5 available. */
  predicate Visible(p: Product, searchTerm: string, lowStockOnly: bool) {
    MatchesTitleOrSku(p, searchTerm) && (!lowStockOnly || IsLowStock(p))
  }

  /** `filteredProducts`: filter a copy of the products, then sort it by the header's field. */
  function FilteredProducts(products: seq<Product>, searchTerm: string, lowStockOnly: bool, st: SortState<StockField>)
    : seq<Product>
  {
    SortBy(Filter(products, (p: Product) => Visible(p, searchTerm, lowStockOnly)), StockKey(st.field), st.direction)
  }

  /** A list sorted on a stock figure is ordered by that figure's value. */
  lemma SortedOnFigure(rows: seq<Product>, field: StockField, dir: Direction)
    requires SortedBy(rows, StockKey(field), dir)
    ensures forall i, j :: 0 <= i < j < |rows| ==>
      if dir == Asc then StockValue(rows[i], field) <= StockValue(rows[j], field)
      else StockValue(rows[i], field) >= StockValue(rows[j], field)
  {
    forall i, j | 0 <= i < j < |rows|
      ensures if dir == Asc then StockValue(rows[i], field) <= StockValue(rows[j], field)
              else StockValue(rows[i], field) >= StockValue(rows[j], field)
    {
      assert Before(StockKey(field)(rows[i]), StockKey(field)(rows[j]), dir);
    }
  }

  /**
   * Every visible product of the list is in the table and no other product is, and the
   * table is ordered by the chosen figure in the chosen direction.
   */
  lemma FilteredProductsSpec(products: seq<Product>, searchTerm: string, lowStockOnly: bool, st: SortState<StockField>)
    ensures var rows := FilteredProducts(products, searchTerm, lowStockOnly, st);
      (forall p :: p in rows <==> p in products && Visible(p, searchTerm, lowStockOnly)) &&
      (forall i, j :: 0 <= i < j < |rows| ==>
        if st.direction == Asc then StockValue(rows[i], st.field) <= StockValue(rows[j], st.field)
        else StockValue(rows[i], st.field) >= StockValue(rows[j], st.field))
  {
    var visible := (p: Product) => Visible(p, searchTerm, lowStockOnly);
    var kept := Filter(products, visible);
    var rows := SortBy(kept, StockKey(st.field), st.direction);
    forall p ensures p in rows <==> p in products && visible(p) {
      FilterMembers(products, visible, p);
      assert p in rows <==> p in multiset(rows);
      assert p in kept <==> p in multiset(kept);
    }
    SortedOnFigure(rows, st.field, st.direction);
  }

  /**
   * Turning the low-stock switch on narrows the table to its rows with fewer than 5
   * available, in the same order.
   */
  lemma LowStockSwitchNarrows(products: seq<Product>, searchTerm: string, st: SortState<StockField>)
    ensures FilteredProducts(products, searchTerm, true, st) ==
      Filter(FilteredProducts(products, searchTerm, false, st), IsLowStock)
  {
    var all := (p: Product) => Visible(p, searchTerm, false);
    var low := (p: Product) => Visible(p, searchTerm, true);
    var key := StockKey(st.field);
    FilterFilter(products, all, IsLowStock, low);
    FilterSortCommute(Filter(products, all), IsLowStock, key, st.direction);
  }

  /** The summary card: product count, low-stock count and the two stock totals. */
  datatype Summary = Summary(products: int, lowStock: int, available: int, notAvailable: int)

  function StockSummary(products: seq<Product>): Summary {
    Summary(|products|, |LowStockProducts(products)|, TotalAvailable(products), TotalNotAvailable(products))
  }

  /**
   * The summary counts the products and those with fewer than 5 available; with consistent
   * stock records its two totals split the total stock; and sorting the table changes none
   * of it.
   */
  lemma StockSummarySpec(products: seq<Product>, st: SortState<StockField>)
    ensures StockSummary(products).products == |products|
    ensures StockSummary(products).lowStock == |set i | 0 <= i < |products| && products[i].stock.available < 5|
    ensures StockSummary(products).lowStock <= StockSummary(products).products
    ensures (forall i :: 0 <= i < |products| ==>
        ConsistentStock(products[i].stock.total, products[i].stock.available, products[i].stock.notAvailable)) ==>
      StockSummary(products).available + StockSummary(products).notAvailable == SumBy(products, TotalOf)
    ensures StockSummary(SortBy(products, StockKey(st.field), st.direction)) == StockSummary(products)
  {
    LowStockCount(products);
    if forall i :: 0 <= i < |products| ==>
        ConsistentStock(products[i].stock.total, products[i].stock.available, products[i].stock.notAvailable) {
      TotalsSplitStock(products);
    }
    FilterLengthSort(products, StockKey(st.field), st.direction, IsLowStock);
    SumBySort(products, StockKey(st.field), st.direction, AvailableOf);
    SumBySort(products, StockKey(st.field), st.direction, NotAvailableOf);
  }

  /** With consistent stock records the totals are not negative. */
  lemma {:induction false} TotalsNotNegative(products: seq<Product>)
    requires forall i :: 0 <= i < |products| ==>
      ConsistentStock(products[i].stock.total, products[i].stock.available, products[i].stock.notAvailable)
    ensures TotalAvailable(products) >= 0 && TotalNotAvailable(products) >= 0
  {
    SumByNonNegative(products, AvailableOf);
    SumByNonNegative(products, NotAvailableOf);
  }

  /** The recommendations card: the first five low-stock products and "e mais N produtos". */
  datatype Recommendations = Recommendations(shown: seq<Product>, more: Option<int>)

  function Recommend(products: seq<Product>): Recommendations {
    var low := LowStockProducts(products);
    Recommendations(Take(low, 5), if |low| > 5 then Some(|low| - 5) else None)
  }

  /**
   * The card lists the first low-stock products, at most five, and the extra line counts
   * the rest, so together they account for every low-stock product.
   */
  lemma RecommendSpec(products: seq<Product>)
    ensures var r := Recommend(products);
      |r.shown| <= 5 && r.shown <= LowStockProducts(products) &&
      |r.shown| + r.more.GetOr(0) == |LowStockProducts(products)| &&
      (r.more.Some? <==> |LowStockProducts(products)| > 5) &&
      (forall p :: p in r.shown ==> p in products && p.stock.available < 5)
  {
    var low := LowStockProducts(products);
    LowStockProductsExact(products);
    forall p | p in Take(low, 5) ensures p in low {
      var i :| 0 <= i < |Take(low, 5)| && Take(low, 5)[i] == p;
      assert low[i] == p;
    }
  }
}
