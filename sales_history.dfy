/**
 * The sales history page (SalesHistoryPage.tsx): the sales of the chosen period, searched
 * and sorted, with unit and revenue totals and the five best-selling products.
 *
 * Timestamps are instants in milliseconds (`new Date(s).getTime()`) and prices integers.
 */
module SalesHistory {
  import opened Wrappers
  import opened Seqs
  import opened Sorting
  import Text

  datatype Sale = Sale(
    id: int, productId: int, productTitle: string, mlOrderId: string,
    quantitySold: int, timestamp: int, price: Option<int>)

  /** The sortable columns. */
  datatype SaleField = SaleTimestamp | QuantitySold

  /** The comparator's key: `dateA - dateB` or `a.quantity_sold - b.quantity_sold`. */
  function SaleKey(field: SaleField): Sale -> Key {
    (s: Sale) => if field == SaleTimestamp then Num(s.timestamp) else Num(s.quantitySold)
  }

  predicate MatchesSearch(s: Sale, searchTerm: string) {
    Text.FieldMatches(s.productTitle, searchTerm) || Text.FieldMatches(s.mlOrderId, searchTerm)
  }

  /** The search step: applied only when the term is not empty. */
  function SearchSales(sales: seq<Sale>, searchTerm: string): seq<Sale>
  {
    if searchTerm != "" then Filter(sales, (s: Sale) => MatchesSearch(s, searchTerm)) else sales
  }

  /**
   * A non-empty term keeps exactly the sales whose title or order id contains it; an empty
   * term keeps all, which is also what the filter itself would do.
   */
  lemma SearchSalesSpec(sales: seq<Sale>, searchTerm: string)
    ensures forall s :: s in SearchSales(sales, searchTerm) <==> s in sales && MatchesSearch(s, searchTerm)
    ensures searchTerm == "" ==> SearchSales(sales, searchTerm) == sales
    ensures SearchSales(sales, searchTerm) == Filter(sales, (s: Sale) => MatchesSearch(s, searchTerm))
  {
    var m := (s: Sale) => MatchesSearch(s, searchTerm);
    forall s ensures s in Filter(sales, m) <==> s in sales && m(s) {
      FilterMembers(sales, m, s);
    }
    if searchTerm == "" {
      forall i | 0 <= i < |sales| ensures m(sales[i]) {
        Text.EmptyTermMatches(sales[i].productTitle);
      }
      FilterAll(sales, m);
    }
  }

  /** The list the page shows: searched, then sorted. */
  function Displayed(generated: seq<Sale>, searchTerm: string, st: SortState<SaleField>): seq<Sale>
  {
    SortBy(SearchSales(generated, searchTerm), SaleKey(st.field), st.direction)
  }

  /** The shown list holds the matching sales, each as often as generated, ordered by the header. */
  lemma DisplayedSpec(generated: seq<Sale>, searchTerm: string, st: SortState<SaleField>)
    ensures var shown := Displayed(generated, searchTerm, st);
      multiset(shown) == multiset(SearchSales(generated, searchTerm)) &&
      (forall i, j :: 0 <= i < j < |shown| ==>
        var a := if st.field == SaleTimestamp then shown[i].timestamp else shown[i].quantitySold;
        var b := if st.field == SaleTimestamp then shown[j].timestamp else shown[j].quantitySold;
        if st.direction == Asc then a <= b else a >= b)
  {
    var shown := Displayed(generated, searchTerm, st);
    forall i, j | 0 <= i < j < |shown|
      ensures Before(SaleKey(st.field)(shown[i]), SaleKey(st.field)(shown[j]), st.direction)
    {
    }
  }

  function QuantityOf(s: Sale): int { s.quantitySold }

  /** `(sale.price || 0) * sale.quantity_sold`. */
  function RevenueOf(s: Sale): int { s.price.GetOr(0) * s.quantitySold }

  /** `getTotalSales`. */
  function TotalSales(sales: seq<Sale>): int { SumBy(sales, QuantityOf) }

  /** `getTotalRevenue`. */
  function TotalRevenue(sales: seq<Sale>): int { SumBy(sales, RevenueOf) }

  /** The totals do not depend on the order of the list. */
  lemma TotalsIgnoreOrder(sales: seq<Sale>, st: SortState<SaleField>)
    ensures TotalSales(SortBy(sales, SaleKey(st.field), st.direction)) == TotalSales(sales)
    ensures TotalRevenue(SortBy(sales, SaleKey(st.field), st.direction)) == TotalRevenue(sales)
  {
    SumBySort(sales, SaleKey(st.field), st.direction, QuantityOf);
    SumBySort(sales, SaleKey(st.field), st.direction, RevenueOf);
  }

  /** With no negative prices or quantities, revenue is not negative; a sale without a price adds none. */
  lemma {:induction false} RevenueNotNegative(sales: seq<Sale>)
    requires forall i :: 0 <= i < |sales| ==> sales[i].quantitySold >= 0 && sales[i].price.GetOr(0) >= 0
    ensures TotalRevenue(sales) >= 0
    ensures forall i :: 0 <= i < |sales| && sales[i].price.None? ==> RevenueOf(sales[i]) == 0
  {
    forall i | 0 <= i < |sales| ensures RevenueOf(sales[i]) >= 0 {
      assert sales[i].price.GetOr(0) * sales[i].quantitySold >= 0;
    }
    SumByNonNegative(sales, RevenueOf);
  }

  // ---------------------------------------------------------------------------
  // `getProductSalesSummary`

  /** One title's units and revenue. */
  datatype Totals = Totals(quantity: int, revenue: int)

  /** The summary object: its keys in insertion order, and their totals. */
  datatype Grouping = Grouping(order: seq<string>, totals: map<string, Totals>)

  /** Each key once, in the order of first appearance, and nothing else. */
  predicate WellFormed(g: Grouping) {
    NoDuplicates(g.order) && (forall i :: 0 <= i < |g.order| ==> g.order[i] in g.totals) &&
    (forall t :: t in g.totals ==> t in g.order)
  }

  /** One step of the `forEach`: create the title's entry if needed, then add the sale. */
  function AddSale(g: Grouping, s: Sale): Grouping
  {
    var t := s.productTitle;
    if t in g.totals then
      Grouping(g.order, g.totals[t := Totals(g.totals[t].quantity + s.quantitySold, g.totals[t].revenue + RevenueOf(s))])
    else
      Grouping(g.order + [t], g.totals[t := Totals(s.quantitySold, RevenueOf(s))])
  }

  /** The summary object after the `forEach` over `sales`. */
  function Group(sales: seq<Sale>): Grouping
  {
    if |sales| == 0 then Grouping([], map[]) else AddSale(Group(sales[..|sales| - 1]), sales[|sales| - 1])
  }

  /** `Object.entries(summary)`. */
  function Entries(g: Grouping): (r: seq<(string, Totals)>)
    requires WellFormed(g)
    ensures |r| == |g.order|
    ensures forall i :: 0 <= i < |r| ==> r[i] == (g.order[i], g.totals[g.order[i]])
  {
    seq(|g.order|, i requires 0 <= i < |g.order| => (g.order[i], g.totals[g.order[i]]))
  }

  function EntryQuantity(e: (string, Totals)): int { e.1.quantity }

  function EntryKey(e: (string, Totals)): Key { Num(e.1.quantity) }

  /** A sale of a title already listed adds to that title's entry only. */
  lemma AddKnownTitle(g: Grouping, s: Sale)
    requires WellFormed(g) && s.productTitle in g.totals
    ensures WellFormed(AddSale(g, s))
    ensures SumBy(Entries(AddSale(g, s)), EntryQuantity) == SumBy(Entries(g), EntryQuantity) + s.quantitySold
  {
    var t := s.productTitle;
    var g2 := AddSale(g, s);
    assert g2.order == g.order && g2.totals.Keys == g.totals.Keys;
    var k :| 0 <= k < |g.order| && g.order[k] == t;
    var e := (t, g2.totals[t]);
    assert Entries(g2) == Entries(g)[k := e] by {
      forall i | 0 <= i < |g.order| ensures Entries(g2)[i] == Entries(g)[k := e][i] {
        if i != k {
          assert g.order[i] != t;
        }
      }
    }
    SumByUpdate(Entries(g), k, e, EntryQuantity);
  }

  /** A sale of a new title appends its entry. */
  lemma AddNewTitle(g: Grouping, s: Sale)
    requires WellFormed(g) && s.productTitle !in g.totals
    ensures WellFormed(AddSale(g, s))
    ensures SumBy(Entries(AddSale(g, s)), EntryQuantity) == SumBy(Entries(g), EntryQuantity) + s.quantitySold
  {
    var t := s.productTitle;
    var g2 := AddSale(g, s);
    assert WellFormed(g2) by {
      forall i | 0 <= i < |g.order| ensures g.order[i] != t {
      }
    }
    var e := (t, g2.totals[t]);
    assert Entries(g2) == Entries(g) + [e];
    SumByAppend(Entries(g), [e], EntryQuantity);
  }

  /** A step keeps the grouping well formed, and its entries' units grow by the sale's. */
  lemma AddSaleSpec(g: Grouping, s: Sale)
    requires WellFormed(g)
    ensures WellFormed(AddSale(g, s))
    ensures SumBy(Entries(AddSale(g, s)), EntryQuantity) == SumBy(Entries(g), EntryQuantity) + s.quantitySold
  {
    if s.productTitle in g.totals {
      AddKnownTitle(g, s);
    } else {
      AddNewTitle(g, s);
    }
  }

  /** The sales of one title. */
  function TitleSales(sales: seq<Sale>, t: string): seq<Sale> {
    Filter(sales, (s: Sale) => s.productTitle == t)
  }

  /** What the summary should say of a title: the units and the revenue of its sales. */
  function TitleTotals(sales: seq<Sale>, t: string): Totals {
    Totals(TotalSales(TitleSales(sales, t)), TotalRevenue(TitleSales(sales, t)))
  }

  /** A title none of whose sales is listed has no sales to add up. */
  lemma TitleSalesEmpty(sales: seq<Sale>, t: string)
    requires forall i :: 0 <= i < |sales| ==> sales[i].productTitle != t
    ensures TitleSales(sales, t) == []
  {
    var r := TitleSales(sales, t);
    if |r| > 0 {
      FilterMembers(sales, (s: Sale) => s.productTitle == t, r[0]);
      assert false;
    }
  }

  /** One more sale adds its units and revenue to its own title's totals only. */
  lemma TitleTotalsStep(init: seq<Sale>, last: Sale, t: string)
    ensures TitleTotals(init + [last], t) ==
      if last.productTitle == t then
        Totals(TitleTotals(init, t).quantity + last.quantitySold, TitleTotals(init, t).revenue + RevenueOf(last))
      else TitleTotals(init, t)
  {
    var p := (s: Sale) => s.productTitle == t;
    FilterAppend(init, [last], p);
    assert [last][1..] == [];
    var mine := TitleSales([last], t);
    assert mine == if last.productTitle == t then [last] else [];
    SumByAppend(TitleSales(init, t), mine, QuantityOf);
    SumByAppend(TitleSales(init, t), mine, RevenueOf);
  }

  /** The step of `GroupSpec` for one title: its entry keeps matching its sales. */
  lemma GroupTitleStep(g: Grouping, init: seq<Sale>, last: Sale, t: string)
    requires t in g.totals <==> exists i :: 0 <= i < |init| && init[i].productTitle == t
    requires t in g.totals ==> g.totals[t] == TitleTotals(init, t)
    requires t in AddSale(g, last).totals
    ensures AddSale(g, last).totals[t] == TitleTotals(init + [last], t)
  {
    TitleTotalsStep(init, last, t);
    if t == last.productTitle && t !in g.totals {
      TitleSalesEmpty(init, t);
    }
  }

  /** The step of `GroupTotals`: every entry keeps matching its title's sales. */
  lemma GroupTotalsStep(g: Grouping, init: seq<Sale>, last: Sale)
    requires forall t :: t in g.totals <==> exists i :: 0 <= i < |init| && init[i].productTitle == t
    requires forall t :: t in g.totals ==> g.totals[t] == TitleTotals(init, t)
    ensures forall t :: t in AddSale(g, last).totals ==> AddSale(g, last).totals[t] == TitleTotals(init + [last], t)
  {
    forall t | t in AddSale(g, last).totals ensures AddSale(g, last).totals[t] == TitleTotals(init + [last], t) {
      GroupTitleStep(g, init, last, t);
    }
  }

  /** Each entry of the grouping holds the units and the revenue of its title's sales. */
  lemma {:induction false} GroupTotals(sales: seq<Sale>)
    ensures forall t :: t in Group(sales).totals ==> Group(sales).totals[t] == TitleTotals(sales, t)
    decreases |sales|, 0
  {
    if |sales| > 0 {
      var init := sales[..|sales| - 1];
      var last := sales[|sales| - 1];
      assert sales == init + [last];
      GroupSpec(init);
      GroupTotals(init);
      var g0 := Group(init);
      assert Group(sales) == AddSale(g0, last);
      GroupTotalsStep(g0, init, last);
    }
  }

  /**
   * The grouping has one entry per title that was sold, each entry holds the units and
   * the revenue of that title's sales, and the units of the entries add up to
   * `getTotalSales` before the list is cut to five.
   */
  lemma {:induction false} GroupSpec(sales: seq<Sale>)
    ensures WellFormed(Group(sales))
    ensures forall t :: t in Group(sales).totals <==> exists i :: 0 <= i < |sales| && sales[i].productTitle == t
    ensures forall t :: t in Group(sales).totals ==> Group(sales).totals[t] == TitleTotals(sales, t)
    ensures SumBy(Entries(Group(sales)), EntryQuantity) == TotalSales(sales)
    decreases |sales|, 1
  {
    if |sales| > 0 {
      var init := sales[..|sales| - 1];
      var last := sales[|sales| - 1];
      assert sales == init + [last];
      GroupSpec(init);
      AddSaleSpec(Group(init), last);
      SumByAppend(init, [last], QuantityOf);
      forall t ensures t in Group(sales).totals <==> exists i :: 0 <= i < |sales| && sales[i].productTitle == t {
        if t in Group(init).totals {
          var i :| 0 <= i < |init| && init[i].productTitle == t;
          assert sales[i].productTitle == t;
        }
        if exists i :: 0 <= i < |sales| && sales[i].productTitle == t {
          var i :| 0 <= i < |sales| && sales[i].productTitle == t;
          if i < |init| {
            assert init[i].productTitle == t;
          }
        }
      }
    }
    GroupTotals(sales);
  }

  /** The top of the summary: entries by units, most first, at most five. */
  function TopProducts(sales: seq<Sale>): seq<(string, Totals)>
  {
    GroupSpec(sales);
    TopOf(Group(sales))
  }

  /**
   * What the summary's top list promises, for the summary `g` of `sales`: as many entries as
   * there are titles, up to five; distinct titles of the summary, each with the units and
   * revenue of its own sales; most units first; and no title left out has sold more units
   * than a title shown.
   */
  predicate IsTopFive(sales: seq<Sale>, g: Grouping, top: seq<(string, Totals)>) {
    |top| == (if |g.order| < 5 then |g.order| else 5) &&
    (forall i :: 0 <= i < |top| ==> top[i].0 in g.totals && top[i].1 == TitleTotals(sales, top[i].0)) &&
    (forall i, j :: 0 <= i < j < |top| ==> top[i].0 != top[j].0) &&
    (forall i, j :: 0 <= i < j < |top| ==> top[i].1.quantity >= top[j].1.quantity) &&
    (forall t :: t in g.totals && (forall i :: 0 <= i < |top| ==> top[i].0 != t) ==>
      forall i :: 0 <= i < |top| ==> TitleTotals(sales, t).quantity <= top[i].1.quantity)
  }

  /**
   * `getProductSalesSummary`: the `forEach` that fills the summary object, then the sort
   * by units and the cut to five.
   */
  method ProductSalesSummary(sales: seq<Sale>) returns (top: seq<(string, Totals)>)
    ensures top == TopProducts(sales)
    ensures IsTopFive(sales, Group(sales), top)
  {
    var order: seq<string> := [];
    var summary: map<string, Totals> := map[];
    var k := 0;
    while k < |sales|
      invariant 0 <= k <= |sales|
      invariant Grouping(order, summary) == Group(sales[..k])
    {
      var s := sales[k];
      assert sales[..k + 1][..k] == sales[..k];
      if s.productTitle !in summary {
        summary := summary[s.productTitle := Totals(0, 0)];
        order := order + [s.productTitle];
      }
      var t := summary[s.productTitle];
      summary := summary[s.productTitle := Totals(t.quantity + s.quantitySold, t.revenue + RevenueOf(s))];
      k := k + 1;
    }
    assert sales[..k] == sales;
    GroupSpec(sales);
    top := Take(SortBy(Entries(Grouping(order, summary)), EntryKey, Desc), 5);
    TopProductsSpec(sales);
  }

  /** The summary's entries have pairwise different titles. */
  lemma EntriesNoDuplicates(g: Grouping)
    requires WellFormed(g)
    ensures NoDuplicates(Entries(g))
  {
    var e := Entries(g);
    forall i, j | 0 <= i < j < |e| ensures e[i] != e[j] {
      assert e[i].0 == g.order[i] && e[j].0 == g.order[j];
    }
  }

  /** The top five of a grouping, as the page computes it. */
  function TopOf(g: Grouping): seq<(string, Totals)>
    requires WellFormed(g)
  {
    Take(SortBy(Entries(g), EntryKey, Desc), 5)
  }

  /** The top five are as many entries as titles, up to five, of distinct titles, most units first. */
  lemma TopOfEntries(g: Grouping)
    requires WellFormed(g)
    ensures var top := TopOf(g);
      |top| == (if |g.order| < 5 then |g.order| else 5) &&
      (forall i :: 0 <= i < |top| ==> top[i].0 in g.totals && top[i].1 == g.totals[top[i].0]) &&
      (forall i, j :: 0 <= i < j < |top| ==> top[i].0 != top[j].0) &&
      (forall i, j :: 0 <= i < j < |top| ==> top[i].1.quantity >= top[j].1.quantity)
  {
    var entries := Entries(g);
    var sorted := SortBy(entries, EntryKey, Desc);
    var top := TopOf(g);
    forall i | 0 <= i < |top| ensures top[i].0 in g.totals && top[i].1 == g.totals[top[i].0] {
      assert top[i] == sorted[i];
      assert sorted[i] in multiset(entries);
    }
    EntriesNoDuplicates(g);
    PermutationNoDuplicates(entries, sorted);
    forall i, j | 0 <= i < j < |top| ensures top[i].0 != top[j].0 {
      assert top[i] == sorted[i] && top[j] == sorted[j];
    }
    forall i, j | 0 <= i < j < |top| ensures top[i].1.quantity >= top[j].1.quantity {
      assert top[i] == sorted[i] && top[j] == sorted[j];
      assert Before(EntryKey(sorted[i]), EntryKey(sorted[j]), Desc);
    }
  }

  /** No title left out of the top five has sold more units than a title shown. */
  lemma TopOfOmitted(g: Grouping, t: string)
    requires WellFormed(g) && t in g.totals
    requires forall i :: 0 <= i < |TopOf(g)| ==> TopOf(g)[i].0 != t
    ensures forall i :: 0 <= i < |TopOf(g)| ==> g.totals[t].quantity <= TopOf(g)[i].1.quantity
  {
    var sorted := SortBy(Entries(g), EntryKey, Desc);
    var top := TopOf(g);
    var m := OmittedEntryPosition(g, sorted, top, t);
    forall i | 0 <= i < |top| ensures g.totals[t].quantity <= top[i].1.quantity {
      assert top[i] == sorted[i];
      assert Before(EntryKey(sorted[i]), EntryKey(sorted[m]), Desc);
    }
  }

  /** The top five of a summary whose entries hold their titles' totals. */
  lemma TopOfSpec(sales: seq<Sale>, g: Grouping)
    requires WellFormed(g)
    requires forall t :: t in g.totals ==> g.totals[t] == TitleTotals(sales, t)
    ensures IsTopFive(sales, g, TopOf(g))
  {
    var top := TopOf(g);
    TopOfEntries(g);
    forall t | t in g.totals && (forall i :: 0 <= i < |top| ==> top[i].0 != t)
      ensures forall i :: 0 <= i < |top| ==> TitleTotals(sales, t).quantity <= top[i].1.quantity
    {
      TopOfOmitted(g, t);
    }
  }

  /** The top list is the summary's top five, as `IsTopFive` describes it. */
  lemma TopProductsSpec(sales: seq<Sale>)
    ensures IsTopFive(sales, Group(sales), TopProducts(sales))
  {
    GroupSpec(sales);
    TopOfSpec(sales, Group(sales));
  }

  /** A title missing from the top list sits in the sorted entries after every shown one. */
  lemma OmittedEntryPosition(g: Grouping, sorted: seq<(string, Totals)>, top: seq<(string, Totals)>, t: string)
    returns (m: nat)
    requires WellFormed(g) && multiset(sorted) == multiset(Entries(g))
    requires top <= sorted && t in g.totals
    requires forall i :: 0 <= i < |top| ==> top[i].0 != t
    ensures |top| <= m < |sorted| && sorted[m] == (t, g.totals[t])
  {
    var k :| 0 <= k < |g.order| && g.order[k] == t;
    assert Entries(g)[k] == (t, g.totals[t]);
    assert (t, g.totals[t]) in multiset(sorted);
    m :| 0 <= m < |sorted| && sorted[m] == (t, g.totals[t]);
  }

  // ---------------------------------------------------------------------------
  // When the list is recomputed

  /** What the page holds: the generated sales, the search term, the header and the shown list. */
  datatype View = View(generated: seq<Sale>, searchTerm: string, header: SortState<SaleField>, sales: seq<Sale>)

  /** The shown list reflects the current search term and header. */
  predicate Current(v: View) {
    v.sales == Displayed(v.generated, v.searchTerm, v.header)
  }

  /**
   * A header click as written: `handleSort` changes the header state, but the list is
   * searched and sorted only inside the generator, which runs when the period changes.
   */
  function SortClickAsWritten(v: View, field: SaleField): View {
    v.(header := NextSort(v.header, field, Desc))
  }

  /** A click on "Quantidade" leaves a list sorted by date on screen. */
  lemma SortClickAsWrittenIsStale()
    ensures var a := Sale(1, 1, "A", "ML1", 5, 1000, Some(10));
      var b := Sale(2, 2, "B", "ML2", 1, 2000, Some(10));
      var v := View([a, b], "", SortState(SaleTimestamp, Desc), [b, a]);
      Current(v) && !Current(SortClickAsWritten(v, QuantitySold))
  {
    var a := Sale(1, 1, "A", "ML1", 5, 1000, Some(10));
    var b := Sale(2, 2, "B", "ML2", 1, 2000, Some(10));
    var v := View([a, b], "", SortState(SaleTimestamp, Desc), [b, a]);
    assert SearchSales([a, b], "") == [a, b];
    assert !Before(SaleKey(SaleTimestamp)(a), SaleKey(SaleTimestamp)(b), Desc);
    SortByPair(a, b, SaleKey(SaleTimestamp), Desc);
    assert Current(v);
    var w := SortClickAsWritten(v, QuantitySold);
    assert w.header == SortState(QuantitySold, Desc);
    assert Before(SaleKey(QuantitySold)(a), SaleKey(QuantitySold)(b), Desc);
    SortByPair(a, b, SaleKey(QuantitySold), Desc);
    assert Displayed(w.generated, w.searchTerm, w.header) == [a, b];
    assert w.sales[0] != [a, b][0];
  }

  /** The evident intent: a header click re-sorts the shown list. */
  function SortClick(v: View, field: SaleField): View {
    var header := NextSort(v.header, field, Desc);
    v.(header := header, sales := Displayed(v.generated, v.searchTerm, header))
  }

  /** After a click the list is current, holds the same sales, and is ordered by the clicked column. */
  lemma SortClickKeepsCurrent(v: View, field: SaleField)
    requires Current(v)
    ensures Current(SortClick(v, field))
    ensures multiset(SortClick(v, field).sales) == multiset(v.sales)
    ensures SortClick(v, field).header.field == field
    ensures SortedBy(SortClick(v, field).sales, SaleKey(field), SortClick(v, field).header.direction)
  {
  }

  /** The evident intent for the search box: typing re-filters the shown list. */
  function SearchInput(v: View, term: string): View {
    v.(searchTerm := term, sales := Displayed(v.generated, term, v.header))
  }

  /** After typing, the list holds exactly the generated sales that match, in header order. */
  lemma SearchInputSpec(v: View, term: string)
    ensures Current(SearchInput(v, term))
    ensures forall s :: s in SearchInput(v, term).sales <==> s in v.generated && MatchesSearch(s, term)
  {
    var shown := SearchInput(v, term).sales;
    SearchSalesSpec(v.generated, term);
    forall s ensures s in shown <==> s in SearchSales(v.generated, term) {
      assert s in shown <==> s in multiset(shown);
    }
  }

  /** A new period: the generator's sales, searched and sorted with the current settings. */
  function PeriodChange(v: View, generated: seq<Sale>): View {
    v.(generated := generated, sales := Displayed(generated, v.searchTerm, v.header))
  }

  /** After a new period, the list holds exactly the new sales that match the term, in header order. */
  lemma PeriodChangeSpec(v: View, generated: seq<Sale>)
    ensures Current(PeriodChange(v, generated))
    ensures forall s :: s in PeriodChange(v, generated).sales <==> s in generated && MatchesSearch(s, v.searchTerm)
  {
    var shown := PeriodChange(v, generated).sales;
    SearchSalesSpec(generated, v.searchTerm);
    forall s ensures s in shown <==> s in SearchSales(generated, v.searchTerm) {
      assert s in shown <==> s in multiset(shown);
    }
  }
}
