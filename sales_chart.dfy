/**
 * The sales chart (SalesChart.tsx): `processChartData` pivots the per-product daily
 * series into one row per date, holding each product's quantity under its title, and
 * orders the rows by date.
 *
 * A date stays the string the server sent, which is the key of the date map; its instant
 * (`new Date(date).getTime()`) is a parameter `instant`, since date parsing is not modelled.
 */
module SalesChart {
  import opened Wrappers
  import opened Sorting
  import opened Seqs

  datatype DailyData = DailyData(date: string, quantity: int)

  datatype SalesData = SalesData(id: int, title: string, totalSold: int, dailyData: seq<DailyData>)

  /** One assignment `dateMap[date][title] = quantity`. */
  datatype Write = Write(date: string, title: string, quantity: int)

  /** The assignments the inner loop makes for one product, in its order. */
  function ProductWrites(p: SalesData): (ws: seq<Write>)
    ensures |ws| == |p.dailyData|
    ensures forall j :: 0 <= j < |ws| ==>
      ws[j] == Write(p.dailyData[j].date, p.title, p.dailyData[j].quantity)
  {
    seq(|p.dailyData|, j requires 0 <= j < |p.dailyData| => Write(p.dailyData[j].date, p.title, p.dailyData[j].quantity))
  }

  /** The assignments of both loops, products in order and each product's days in order. */
  function Writes(data: seq<SalesData>): seq<Write>
  {
    if |data| == 0 then [] else Writes(data[..|data| - 1]) + ProductWrites(data[|data| - 1])
  }

  /** Every (product, day) pair makes one assignment, and every assignment comes from one. */
  lemma {:induction false} WritesMembers(data: seq<SalesData>, w: Write)
    ensures w in Writes(data) <==>
      exists i, j :: (0 <= i < |data| && 0 <= j < |data[i].dailyData| &&
        w == Write(data[i].dailyData[j].date, data[i].title, data[i].dailyData[j].quantity))
  {
    if |data| > 0 {
      var n := |data| - 1;
      var init := data[..n];
      WritesMembers(init, w);
      if w in ProductWrites(data[n]) {
        var j :| 0 <= j < |ProductWrites(data[n])| && ProductWrites(data[n])[j] == w;
        assert 0 <= j < |data[n].dailyData|;
      }
      if exists i, j :: (0 <= i < |data| && 0 <= j < |data[i].dailyData| &&
        w == Write(data[i].dailyData[j].date, data[i].title, data[i].dailyData[j].quantity))
      {
        var i, j :| 0 <= i < |data| && 0 <= j < |data[i].dailyData| &&
          w == Write(data[i].dailyData[j].date, data[i].title, data[i].dailyData[j].quantity);
        if i < n {
          assert init[i] == data[i];
        } else {
          assert ProductWrites(data[n])[j] == w;
        }
      }
    }
  }

  /**
   * The date map: the dates in the order they were first seen (the order of
   * `Object.values` for such keys) and each date's quantities by product title.
   */
  datatype DateMap = DateMap(order: seq<string>, rows: map<string, map<string, int>>)

  predicate WellFormed(m: DateMap) {
    NoDuplicates(m.order) && (forall d :: d in m.rows ==> d in m.order) && (forall d :: d in m.order ==> d in m.rows)
  }

  /** One assignment: a new date gets a row first, then the title's quantity is set. */
  function Put(m: DateMap, w: Write): DateMap {
    if w.date in m.rows then m.(rows := m.rows[w.date := m.rows[w.date][w.title := w.quantity]])
    else DateMap(m.order + [w.date], m.rows[w.date := map[w.title := w.quantity]])
  }

  /** The date map after a sequence of assignments. */
  function Pivot(ws: seq<Write>): DateMap {
    if |ws| == 0 then DateMap([], map[]) else Put(Pivot(ws[..|ws| - 1]), ws[|ws| - 1])
  }

  /** The reference for a cell: the quantity of the last assignment to that date and title. */
  function LastValue(ws: seq<Write>, date: string, title: string): Option<int>
  {
    if |ws| == 0 then None
    else if ws[|ws| - 1].date == date && ws[|ws| - 1].title == title then Some(ws[|ws| - 1].quantity)
    else LastValue(ws[..|ws| - 1], date, title)
  }

  /** A cell has a value exactly when some assignment wrote it, and the value is from the last such one. */
  lemma {:induction false} LastValueSpec(ws: seq<Write>, date: string, title: string)
    ensures LastValue(ws, date, title).None? <==>
      forall i :: 0 <= i < |ws| ==> !(ws[i].date == date && ws[i].title == title)
    ensures LastValue(ws, date, title).Some? ==>
      exists i :: (0 <= i < |ws| && ws[i] == Write(date, title, LastValue(ws, date, title).value) &&
        forall k :: i < k < |ws| ==> !(ws[k].date == date && ws[k].title == title))
  {
    if |ws| > 0 {
      var n := |ws| - 1;
      var init := ws[..n];
      assert forall i :: 0 <= i < n ==> init[i] == ws[i];
      if !(ws[n].date == date && ws[n].title == title) {
        LastValueSpec(init, date, title);
      } else {
        assert ws[n] == Write(date, title, LastValue(ws, date, title).value);
      }
    }
  }

  /** A cell of the map, `None` when the date has no row or the row has no such title. */
  function Cell(m: DateMap, date: string, title: string): Option<int> {
    if date in m.rows && title in m.rows[date] then Some(m.rows[date][title]) else None
  }

  predicate HasDate(ws: seq<Write>, date: string) {
    exists i :: 0 <= i < |ws| && ws[i].date == date
  }

  /** The date map lists each of its dates once, and lists exactly its dates. */
  lemma {:induction false} PivotWellFormed(ws: seq<Write>)
    ensures WellFormed(Pivot(ws))
  {
    if |ws| > 0 {
      var n := |ws| - 1;
      PivotWellFormed(ws[..n]);
      var m, w := Pivot(ws[..n]), ws[n];
      if w.date !in m.rows {
        forall i | 0 <= i < |m.order| ensures m.order[i] != w.date {
          assert m.order[i] in m.rows;
        }
      }
    }
  }

  /** The date map has a row for exactly the dates that were assigned. */
  lemma {:induction false} PivotDates(ws: seq<Write>)
    ensures forall d :: d in Pivot(ws).rows <==> HasDate(ws, d)
  {
    if |ws| > 0 {
      var n := |ws| - 1;
      var init, w := ws[..n], ws[n];
      PivotDates(init);
      forall d ensures d in Pivot(ws).rows <==> HasDate(ws, d) {
        if HasDate(init, d) {
          var i :| 0 <= i < |init| && init[i].date == d;
          assert ws[i] == init[i];
        }
        if HasDate(ws, d) && d != w.date {
          var i :| 0 <= i < |ws| && ws[i].date == d;
          assert init[i] == ws[i];
        }
      }
    }
  }

  /** Every cell of the date map holds the last value assigned to it. */
  lemma {:induction false} PivotCells(ws: seq<Write>, d: string, t: string)
    ensures Cell(Pivot(ws), d, t) == LastValue(ws, d, t)
  {
    if |ws| > 0 {
      PivotCells(ws[..|ws| - 1], d, t);
    }
  }

  /** One more assignment is one more `Put`. */
  lemma PivotSnoc(ws: seq<Write>, w: Write)
    ensures Pivot(ws + [w]) == Put(Pivot(ws), w)
  {
    assert (ws + [w])[..|ws|] == ws;
  }

  /** One more day of a product is one more assignment. */
  lemma NextWrite(done: seq<Write>, p: SalesData, j: nat)
    requires j < |p.dailyData|
    ensures done + ProductWrites(p)[..j + 1] ==
      (done + ProductWrites(p)[..j]) + [Write(p.dailyData[j].date, p.title, p.dailyData[j].quantity)]
  {
    assert ProductWrites(p)[..j + 1] == ProductWrites(p)[..j] + [ProductWrites(p)[j]];
  }

  /** One more product appends its assignments. */
  lemma WritesSnoc(data: seq<SalesData>, i: nat)
    requires i < |data|
    ensures Writes(data[..i + 1]) == Writes(data[..i]) + ProductWrites(data[i])
  {
    assert data[..i + 1][..i] == data[..i];
  }

  /** A row of the chart: its date and the quantities by product title. */
  datatype Row = Row(date: string, values: map<string, int>)

  /** `Object.values(dateMap)`: the rows in the map's order. */
  function RowsOf(m: DateMap): (r: seq<Row>)
    ensures |r| == |m.order|
    ensures forall i :: 0 <= i < |r| ==>
      r[i].date == m.order[i] && r[i].values == (if m.order[i] in m.rows then m.rows[m.order[i]] else map[])
  {
    seq(|m.order|, i requires 0 <= i < |m.order| =>
      Row(m.order[i], if m.order[i] in m.rows then m.rows[m.order[i]] else map[]))
  }

  /** The comparator `new Date(a.date) - new Date(b.date)`: oldest first. */
  function DateKey(instant: string -> int): Row -> Key {
    (r: Row) => Num(instant(r.date))
  }

  /** The chart rows for a non-empty input. */
  function Chart(data: seq<SalesData>, instant: string -> int): seq<Row> {
    SortBy(RowsOf(Pivot(Writes(data))), DateKey(instant), Asc)
  }

  /** A value repeated at two positions occurs at least twice. */
  lemma RepeatCounted<T>(s: seq<T>, i: nat, j: nat)
    requires i < j < |s| && s[i] == s[j]
    ensures multiset(s)[s[i]] >= 2
  {
    assert s == s[..j] + [s[j]] + s[j + 1..];
    assert s[i] in s[..j];
  }

  /** In a well-formed map each date's row occurs once. */
  lemma RowsOfOnce(m: DateMap, i: nat)
    requires WellFormed(m) && i < |m.order|
    ensures multiset(RowsOf(m))[RowsOf(m)[i]] == 1
  {
    var rows := RowsOf(m);
    var x := rows[i];
    assert rows == rows[..i] + [x] + rows[i + 1..];
    forall k | 0 <= k < |rows| && k != i ensures rows[k] != x {
      assert rows[k].date == m.order[k];
    }
    assert x !in rows[..i];
    assert x !in rows[i + 1..];
    assert multiset(rows)[x] == multiset(rows[..i])[x] + multiset([x])[x] + multiset(rows[i + 1..])[x];
  }

  /** Where a row of a reordering of the map's rows came from. */
  lemma RowIndex(m: DateMap, c: seq<Row>, i: nat) returns (k: nat)
    requires multiset(c) == multiset(RowsOf(m))
    requires i < |c|
    ensures k < |m.order| && c[i] == RowsOf(m)[k]
  {
    assert c[i] in multiset(RowsOf(m));
    k :| 0 <= k < |RowsOf(m)| && RowsOf(m)[k] == c[i];
  }

  /** Where a row of the map went in a reordering. */
  lemma RowPosition(m: DateMap, c: seq<Row>, k: nat) returns (i: nat)
    requires multiset(c) == multiset(RowsOf(m))
    requires k < |m.order|
    ensures i < |c| && c[i] == RowsOf(m)[k]
  {
    assert RowsOf(m)[k] in multiset(c);
    i :| 0 <= i < |c| && c[i] == RowsOf(m)[k];
  }

  /** A reordering of a well-formed map's rows has no date twice. */
  lemma ReorderedDistinct(m: DateMap, c: seq<Row>)
    requires WellFormed(m)
    requires multiset(c) == multiset(RowsOf(m))
    ensures forall i, j :: 0 <= i < j < |c| ==> c[i].date != c[j].date
  {
    forall i, j | 0 <= i < j < |c| ensures c[i].date != c[j].date {
      var k := RowIndex(m, c, i);
      var l := RowIndex(m, c, j);
      if c[i].date == c[j].date {
        assert m.order[k] == m.order[l];
        assert k == l;
        RepeatCounted(c, i, j);
        RowsOfOnce(m, k);
        assert false;
      }
    }
  }

  /** A reordering of the map's rows has a row for exactly the assigned dates. */
  lemma ReorderedDates(ws: seq<Write>, c: seq<Row>)
    requires multiset(c) == multiset(RowsOf(Pivot(ws)))
    ensures forall i :: 0 <= i < |c| ==> HasDate(ws, c[i].date)
    ensures forall d :: HasDate(ws, d) ==> exists i :: 0 <= i < |c| && c[i].date == d
  {
    var m := Pivot(ws);
    PivotWellFormed(ws);
    PivotDates(ws);
    forall i | 0 <= i < |c| ensures HasDate(ws, c[i].date) {
      var k := RowIndex(m, c, i);
      assert m.order[k] in m.rows;
    }
    forall d | HasDate(ws, d) ensures exists i :: 0 <= i < |c| && c[i].date == d {
      assert d in m.order;
      var k :| 0 <= k < |m.order| && m.order[k] == d;
      var i := RowPosition(m, c, k);
      assert c[i].date == d;
    }
  }

  /** In a reordering of the map's rows, every cell holds the last value assigned to it. */
  lemma ReorderedCells(ws: seq<Write>, c: seq<Row>)
    requires multiset(c) == multiset(RowsOf(Pivot(ws)))
    ensures forall i, t :: 0 <= i < |c| ==>
      (t in c[i].values <==> LastValue(ws, c[i].date, t).Some?) &&
      (t in c[i].values ==> c[i].values[t] == LastValue(ws, c[i].date, t).value)
  {
    var m := Pivot(ws);
    PivotWellFormed(ws);
    forall i, t | 0 <= i < |c|
      ensures (t in c[i].values <==> LastValue(ws, c[i].date, t).Some?) &&
        (t in c[i].values ==> c[i].values[t] == LastValue(ws, c[i].date, t).value)
    {
      var k := RowIndex(m, c, i);
      assert m.order[k] in m.rows;
      PivotCells(ws, c[i].date, t);
    }
  }

  /**
   * The chart has one row per date assigned anywhere in the daily data, no row twice,
   * oldest first, and each row's value for a title is the last quantity assigned to that
   * date and title.
   */
  lemma ChartSpec(data: seq<SalesData>, instant: string -> int)
    ensures var ws := Writes(data); var c := Chart(data, instant);
      (forall i, j :: 0 <= i < j < |c| ==> instant(c[i].date) <= instant(c[j].date)) &&
      (forall i :: 0 <= i < |c| ==> HasDate(ws, c[i].date)) &&
      (forall d :: HasDate(ws, d) ==> exists i :: 0 <= i < |c| && c[i].date == d) &&
      (forall i, j :: 0 <= i < j < |c| ==> c[i].date != c[j].date) &&
      (forall i, t :: 0 <= i < |c| ==>
        (t in c[i].values <==> LastValue(ws, c[i].date, t).Some?) &&
        (t in c[i].values ==> c[i].values[t] == LastValue(ws, c[i].date, t).value))
  {
    var ws := Writes(data);
    var c := Chart(data, instant);
    assert multiset(c) == multiset(RowsOf(Pivot(ws)));
    PivotWellFormed(ws);
    ReorderedDates(ws, c);
    ReorderedDistinct(Pivot(ws), c);
    ReorderedCells(ws, c);
    forall i, j | 0 <= i < j < |c| ensures instant(c[i].date) <= instant(c[j].date) {
      assert Before(DateKey(instant)(c[i]), DateKey(instant)(c[j]), Asc);
    }
  }

  /**
   * The inner `forEach` for one product: for each day, a new date gets its row, then the
   * product's quantity is set under its title. Given the map built by the assignments
   * `done`, the result is the map built by those followed by this product's.
   */
  method AddDailyData(order: seq<string>, dateMap: map<string, map<string, int>>, product: SalesData,
                      ghost done: seq<Write>)
    returns (order': seq<string>, dateMap': map<string, map<string, int>>)
    requires DateMap(order, dateMap) == Pivot(done)
    ensures DateMap(order', dateMap') == Pivot(done + ProductWrites(product))
  {
    order', dateMap' := order, dateMap;
    assert done + ProductWrites(product)[..0] == done;
    var j := 0;
    while j < |product.dailyData|
      invariant 0 <= j <= |product.dailyData|
      invariant DateMap(order', dateMap') == Pivot(done + ProductWrites(product)[..j])
    {
      var daily := product.dailyData[j];
      ghost var before := done + ProductWrites(product)[..j];
      ghost var prev := DateMap(order', dateMap');
      ghost var w := Write(daily.date, product.title, daily.quantity);
      if daily.date !in dateMap' {
        order' := order' + [daily.date];
        dateMap' := dateMap'[daily.date := map[]];
      }
      dateMap' := dateMap'[daily.date := dateMap'[daily.date][product.title := daily.quantity]];
      assert DateMap(order', dateMap') == Put(prev, w);
      PivotSnoc(before, w);
      NextWrite(done, product, j);
      j := j + 1;
    }
    assert ProductWrites(product)[..j] == ProductWrites(product);
  }

  /** The chart component's data. */
  class SalesChartState {
    var chartData: seq<Row>

    constructor()
      ensures chartData == []
    {
      chartData := [];
    }

    /**
     * `processChartData`: nothing changes for an empty list; otherwise the nested loops
     * fill the date map and the rows are sorted by date.
     */
    method ProcessChartData(data: seq<SalesData>, instant: string -> int)
      modifies this
      ensures |data| == 0 ==> chartData == old(chartData)
      ensures |data| > 0 ==> chartData == Chart(data, instant)
    {
      if |data| == 0 {
        return;
      }
      var order: seq<string> := [];
      var dateMap: map<string, map<string, int>> := map[];
      var i := 0;
      while i < |data|
        invariant 0 <= i <= |data|
        invariant DateMap(order, dateMap) == Pivot(Writes(data[..i]))
      {
        order, dateMap := AddDailyData(order, dateMap, data[i], Writes(data[..i]));
        WritesSnoc(data, i);
        i := i + 1;
      }
      assert data[..i] == data;
      chartData := SortBy(RowsOf(DateMap(order, dateMap)), DateKey(instant), Asc);
    }
  }
}
