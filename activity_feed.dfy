/**
 * `GET /activities` (src/routes.py `get_activities`): gathers sales, stock adjustments
 * and stock changes of the requested kind into one list, newest first by ISO timestamp.
 * The three query results (already restricted to the user and the period) are parameters.
 */
module ActivityFeed {
  import opened Wrappers
  import opened Seqs
  import opened Sorting

  datatype ActivityKind = SaleKind | AdjustmentKind | StockChangeKind

  /** The value of the `type` field and of the `type` query parameter for each kind. */
  function KindName(k: ActivityKind): string {
    match k
    case SaleKind => "sale"
    case AdjustmentKind => "adjustment"
    case StockChangeKind => "stock_change"
  }

  /** `activity_type in ['all', <kind>]`. */
  predicate Wants(activityType: string, k: ActivityKind) {
    activityType == "all" || activityType == KindName(k)
  }

  datatype SaleRow = SaleRow(
    id: int, mlOrderId: string, quantitySold: int, timestamp: string, productId: int, productTitle: string)

  /** A row of the adjustments table; `reason` is nullable and `None` stands for `null`. */
  datatype AdjustmentRow = AdjustmentRow(
    id: int, adjustmentType: string, quantity: int, reason: Option<string>, timestamp: string,
    productId: int, productTitle: string)

  datatype StockRow = StockRow(
    id: int, timestamp: string, available: int, total: int, productId: int, productTitle: string)

  /** The fields only one kind carries. */
  datatype Details =
    | SaleDetails(quantity: int, referenceId: string)
    | AdjustmentDetails(quantity: int, reason: Option<string>)
    | StockDetails(available: int, total: int)

  /**
   * One entry of the feed. Its `id` text is the kind's prefix (`sale_`, `adjustment_`,
   * `stock_`) followed by `sourceId`.
   */
  datatype Activity = Activity(
    kind: ActivityKind, sourceId: int, description: string, timestamp: string,
    productId: int, productTitle: string, details: Details)

  function FromSale(s: SaleRow): Activity {
    Activity(SaleKind, s.id, "Venda realizada pelo Mercado Livre", s.timestamp, s.productId, s.productTitle,
      SaleDetails(s.quantitySold, s.mlOrderId))
  }

  function FromAdjustment(a: AdjustmentRow): Activity {
    Activity(AdjustmentKind, a.id, "Ajuste manual de estoque: " + a.adjustmentType, a.timestamp, a.productId,
      a.productTitle, AdjustmentDetails(a.quantity, a.reason))
  }

  function FromStock(c: StockRow): Activity {
    Activity(StockChangeKind, c.id, "Atualização de estoque no Fulfillment", c.timestamp, c.productId,
      c.productTitle, StockDetails(c.available, c.total))
  }

  function SaleActivities(rows: seq<SaleRow>): (r: seq<Activity>)
    ensures |r| == |rows| && forall i :: 0 <= i < |rows| ==> r[i] == FromSale(rows[i])
  {
    seq(|rows|, i requires 0 <= i < |rows| => FromSale(rows[i]))
  }

  function AdjustmentActivities(rows: seq<AdjustmentRow>): (r: seq<Activity>)
    ensures |r| == |rows| && forall i :: 0 <= i < |rows| ==> r[i] == FromAdjustment(rows[i])
  {
    seq(|rows|, i requires 0 <= i < |rows| => FromAdjustment(rows[i]))
  }

  function StockActivities(rows: seq<StockRow>): (r: seq<Activity>)
    ensures |r| == |rows| && forall i :: 0 <= i < |rows| ==> r[i] == FromStock(rows[i])
  {
    seq(|rows|, i requires 0 <= i < |rows| => FromStock(rows[i]))
  }

  /** The list before sorting: the wanted kinds, sales first, then adjustments, then stock changes. */
  function Collected(activityType: string, sales: seq<SaleRow>, adjustments: seq<AdjustmentRow>,
                     changes: seq<StockRow>): seq<Activity>
  {
    (if Wants(activityType, SaleKind) then SaleActivities(sales) else []) +
    (if Wants(activityType, AdjustmentKind) then AdjustmentActivities(adjustments) else []) +
    (if Wants(activityType, StockChangeKind) then StockActivities(changes) else [])
  }

  /** The sort key: the ISO timestamp, compared as text. */
  function TimestampKey(a: Activity): Key { Text(a.timestamp) }

  /**
   * The gathering loops and the final sort. An empty result is where the source switches
   * to generated example data, which is not part of this model.
   */
  method GetActivities(activityType: string, sales: seq<SaleRow>, adjustments: seq<AdjustmentRow>,
                       changes: seq<StockRow>) returns (activities: seq<Activity>)
    ensures activities == SortBy(Collected(activityType, sales, adjustments, changes), TimestampKey, Desc)
    ensures SortedBy(activities, TimestampKey, Desc)
    ensures multiset(activities) == multiset(Collected(activityType, sales, adjustments, changes))
  {
    activities := [];
    if activityType in ["all", "sale"] {
      var k := 0;
      while k < |sales|
        invariant 0 <= k <= |sales|
        invariant activities == SaleActivities(sales[..k])
      {
        activities := activities + [FromSale(sales[k])];
        k := k + 1;
      }
      assert sales[..k] == sales;
    }
    ghost var afterSales := activities;
    if activityType in ["all", "adjustment"] {
      var k := 0;
      while k < |adjustments|
        invariant 0 <= k <= |adjustments|
        invariant activities == afterSales + AdjustmentActivities(adjustments[..k])
      {
        activities := activities + [FromAdjustment(adjustments[k])];
        k := k + 1;
      }
      assert adjustments[..k] == adjustments;
    }
    ghost var afterAdjustments := activities;
    if activityType in ["all", "stock_change"] {
      var k := 0;
      while k < |changes|
        invariant 0 <= k <= |changes|
        invariant activities == afterAdjustments + StockActivities(changes[..k])
      {
        activities := activities + [FromStock(changes[k])];
        k := k + 1;
      }
      assert changes[..k] == changes;
    }
    assert activities == Collected(activityType, sales, adjustments, changes);
    activities := SortBy(activities, TimestampKey, Desc);
  }

  /**
   * A kind appears in the feed only when it was asked for, and every row of a kind that
   * was asked for appears in it; its length is the sum of the wanted results' lengths.
   */
  lemma CollectedKinds(activityType: string, sales: seq<SaleRow>, adjustments: seq<AdjustmentRow>,
                       changes: seq<StockRow>)
    ensures forall a :: a in Collected(activityType, sales, adjustments, changes) ==> Wants(activityType, a.kind)
    ensures |Collected(activityType, sales, adjustments, changes)| ==
      (if Wants(activityType, SaleKind) then |sales| else 0) +
      (if Wants(activityType, AdjustmentKind) then |adjustments| else 0) +
      (if Wants(activityType, StockChangeKind) then |changes| else 0)
    ensures Wants(activityType, SaleKind) ==> forall s :: s in sales ==> FromSale(s) in Collected(activityType, sales, adjustments, changes)
    ensures Wants(activityType, AdjustmentKind) ==>
      forall a :: a in adjustments ==> FromAdjustment(a) in Collected(activityType, sales, adjustments, changes)
    ensures Wants(activityType, StockChangeKind) ==>
      forall c :: c in changes ==> FromStock(c) in Collected(activityType, sales, adjustments, changes)
    ensures activityType !in ["all", "sale", "adjustment", "stock_change"] ==>
      Collected(activityType, sales, adjustments, changes) == []
  {
    var all := Collected(activityType, sales, adjustments, changes);
    var fromSales := if Wants(activityType, SaleKind) then SaleActivities(sales) else [];
    var fromAdjustments := if Wants(activityType, AdjustmentKind) then AdjustmentActivities(adjustments) else [];
    var fromChanges := if Wants(activityType, StockChangeKind) then StockActivities(changes) else [];
    assert all == fromSales + fromAdjustments + fromChanges;
    forall s | s in sales && Wants(activityType, SaleKind) ensures FromSale(s) in all {
      var i :| 0 <= i < |sales| && sales[i] == s;
      assert fromSales[i] == FromSale(s);
    }
    forall a | a in adjustments && Wants(activityType, AdjustmentKind) ensures FromAdjustment(a) in all {
      var i :| 0 <= i < |adjustments| && adjustments[i] == a;
      assert fromAdjustments[i] == FromAdjustment(a);
    }
    forall c | c in changes && Wants(activityType, StockChangeKind) ensures FromStock(c) in all {
      var i :| 0 <= i < |changes| && changes[i] == c;
      assert fromChanges[i] == FromStock(c);
    }
  }

  /** The feed holds the wanted kinds only, newest first, and no more entries than the queries returned. */
  lemma FeedOrderedAndFiltered(activityType: string, sales: seq<SaleRow>, adjustments: seq<AdjustmentRow>,
                               changes: seq<StockRow>)
    ensures var feed := SortBy(Collected(activityType, sales, adjustments, changes), TimestampKey, Desc);
      (forall a :: a in feed ==> Wants(activityType, a.kind)) &&
      (forall i, j :: 0 <= i < j < |feed| ==> TextLe(feed[j].timestamp, feed[i].timestamp)) &&
      |feed| <= |sales| + |adjustments| + |changes|
  {
    var all := Collected(activityType, sales, adjustments, changes);
    var feed := SortBy(all, TimestampKey, Desc);
    assert forall a :: a in all ==> Wants(activityType, a.kind) by {
      CollectedKinds(activityType, sales, adjustments, changes);
    }
    forall a | a in feed ensures Wants(activityType, a.kind) {
      assert a in multiset(feed);
    }
  }

  /** Every row of a wanted kind is in the sorted feed. */
  lemma FeedHoldsWantedRows(activityType: string, sales: seq<SaleRow>, adjustments: seq<AdjustmentRow>,
                            changes: seq<StockRow>)
    ensures var feed := SortBy(Collected(activityType, sales, adjustments, changes), TimestampKey, Desc);
      (Wants(activityType, SaleKind) ==> forall s :: s in sales ==> FromSale(s) in feed) &&
      (Wants(activityType, AdjustmentKind) ==> forall a :: a in adjustments ==> FromAdjustment(a) in feed) &&
      (Wants(activityType, StockChangeKind) ==> forall c :: c in changes ==> FromStock(c) in feed)
  {
    var all := Collected(activityType, sales, adjustments, changes);
    var feed := SortBy(all, TimestampKey, Desc);
    assert (Wants(activityType, SaleKind) ==> forall s :: s in sales ==> FromSale(s) in all) &&
      (Wants(activityType, AdjustmentKind) ==> forall a :: a in adjustments ==> FromAdjustment(a) in all) &&
      (Wants(activityType, StockChangeKind) ==> forall c :: c in changes ==> FromStock(c) in all) by {
      CollectedKinds(activityType, sales, adjustments, changes);
    }
    forall s | Wants(activityType, SaleKind) && s in sales ensures FromSale(s) in feed {
      assert FromSale(s) in multiset(all);
    }
    forall a | Wants(activityType, AdjustmentKind) && a in adjustments ensures FromAdjustment(a) in feed {
      assert FromAdjustment(a) in multiset(all);
    }
    forall c | Wants(activityType, StockChangeKind) && c in changes ensures FromStock(c) in feed {
      assert FromStock(c) in multiset(all);
    }
  }
}
