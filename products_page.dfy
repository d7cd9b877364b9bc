/**
 * The products page (ProductsPage.tsx): a copy of the product list sorted by the chosen
 * column, then filtered by the search box, with a summary below the table.
 */
module ProductsPage {
  import opened Seqs
  import opened Sorting
  import opened Catalog
  import Text

  /** The sortable columns; `StockAvailable` is the nested `'stock.available'`. */
  datatype ProductField = Id | Title | Sku | MlItemId | StockAvailable

  /** The value the comparator reads: the nested figure for `'stock.available'`, else the top-level field. */
  function SortKey(field: ProductField): Product -> Key {
    (p: Product) =>
      match field
      case Id => Num(p.id)
      case Title => Text(p.title)
      case Sku => Text(p.sku)
      case MlItemId => Text(p.mlItemId)
      case StockAvailable => Num(p.stock.available)
  }

  /** The initial header state: by id, ascending; a new column starts ascending. */
  method NewHeader() returns (h: SortHeader<ProductField>)
    ensures fresh(h)
    ensures h.field == Id && h.direction == Asc && h.default == Asc
  {
    h := new SortHeader(Id, Asc, Asc);
  }

  /** `sortedProducts`: `[...products].sort(comparator)`. */
  function SortedProducts(products: seq<Product>, st: SortState<ProductField>): seq<Product>
  {
    SortBy(products, SortKey(st.field), st.direction)
  }

  /** The search: title, SKU or marketplace item id contains the term, ignoring case. */
  predicate MatchesSearch(p: Product, searchTerm: string) {
    Text.FieldMatches(p.title, searchTerm) || Text.FieldMatches(p.sku, searchTerm) ||
    Text.FieldMatches(p.mlItemId, searchTerm)
  }

  /** `filteredProducts`: the sorted list, filtered. */
  function FilteredProducts(products: seq<Product>, searchTerm: string, st: SortState<ProductField>): seq<Product>
  {
    Filter(SortedProducts(products, st), (p: Product) => MatchesSearch(p, searchTerm))
  }

  /**
   * The sorted list is a permutation of the products, ordered by the column's value; the
   * `'stock.available'` column orders by the nested available figure.
   */
  lemma SortedProductsSpec(products: seq<Product>, st: SortState<ProductField>)
    ensures var sorted := SortedProducts(products, st);
      multiset(sorted) == multiset(products) &&
      (st.field == StockAvailable ==> forall i, j :: 0 <= i < j < |sorted| ==>
        if st.direction == Asc then sorted[i].stock.available <= sorted[j].stock.available
        else sorted[i].stock.available >= sorted[j].stock.available) &&
      (st.field == Id ==> forall i, j :: 0 <= i < j < |sorted| ==>
        if st.direction == Asc then sorted[i].id <= sorted[j].id else sorted[i].id >= sorted[j].id)
  {
    var sorted := SortedProducts(products, st);
    forall i, j | 0 <= i < j < |sorted| ensures Before(SortKey(st.field)(sorted[i]), SortKey(st.field)(sorted[j]), st.direction) {
    }
  }

  /**
   * Filtering after sorting keeps exactly the matching products and is the same as sorting
   * the matching products, so the table stays in sort order.
   */
  lemma FilteredProductsSpec(products: seq<Product>, searchTerm: string, st: SortState<ProductField>)
    ensures var rows := FilteredProducts(products, searchTerm, st);
      (forall p :: p in rows <==> p in products && MatchesSearch(p, searchTerm)) &&
      rows == SortBy(Filter(products, (p: Product) => MatchesSearch(p, searchTerm)), SortKey(st.field), st.direction) &&
      SortedBy(rows, SortKey(st.field), st.direction)
  {
    var m := (p: Product) => MatchesSearch(p, searchTerm);
    var sorted := SortedProducts(products, st);
    forall p ensures p in Filter(sorted, m) <==> p in products && m(p) {
      FilterMembers(sorted, m, p);
      assert p in sorted <==> p in multiset(sorted);
    }
    FilterSortCommute(products, m, SortKey(st.field), st.direction);
  }

  /** An empty search shows the whole sorted list. */
  lemma EmptySearchShowsAll(products: seq<Product>, st: SortState<ProductField>)
    ensures FilteredProducts(products, "", st) == SortedProducts(products, st)
  {
    var m := (p: Product) => MatchesSearch(p, "");
    var sorted := SortedProducts(products, st);
    forall i | 0 <= i < |sorted| ensures m(sorted[i]) {
      Text.EmptyTermMatches(sorted[i].title);
    }
    FilterAll(sorted, m);
  }

  /** The summary line: product count, low-stock count and total available stock. */
  datatype Summary = Summary(products: int, lowStock: int, available: int)

  function ProductsSummary(products: seq<Product>): Summary {
    Summary(|products|, |LowStockProducts(products)|, TotalAvailable(products))
  }

  /**
   * The summary counts the products and those with fewer than 5 available, and adds up the
   * available stock, which is not negative when no product's is; it is computed on the
   * unfiltered list, so the sort changes none of it.
   */
  lemma ProductsSummarySpec(products: seq<Product>, st: SortState<ProductField>)
    ensures ProductsSummary(products).products == |products|
    ensures ProductsSummary(products).lowStock == |set i | 0 <= i < |products| && products[i].stock.available < 5|
    ensures ProductsSummary(products).lowStock <= ProductsSummary(products).products
    ensures ProductsSummary(SortedProducts(products, st)) == ProductsSummary(products)
    ensures (forall i :: 0 <= i < |products| ==> products[i].stock.available >= 0) ==>
      ProductsSummary(products).available >= 0
  {
    LowStockCount(products);
    FilterLengthSort(products, SortKey(st.field), st.direction, IsLowStock);
    SumBySort(products, SortKey(st.field), st.direction, AvailableOf);
    if forall i :: 0 <= i < |products| ==> products[i].stock.available >= 0 {
      SumByNonNegative(products, AvailableOf);
    }
  }
}
