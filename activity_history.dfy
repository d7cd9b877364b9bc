/**
 * The activity history page (ActivityHistoryPage.tsx): the activities of the chosen
 * period, newest first, narrowed by type and by the search box, with a count per type.
 *
 * Timestamps are instants in milliseconds (`new Date(timestamp).getTime()`).
 */
module ActivityHistory {
  import opened Wrappers
  import opened Seqs
  import opened Sorting
  import Text

  /** `'sale' | 'adjustment' | 'sync' | 'stock_change'`. */
  datatype ActivityType = SaleType | AdjustmentType | SyncType | StockChangeType

  function TypeName(t: ActivityType): string {
    match t
    case SaleType => "sale"
    case AdjustmentType => "adjustment"
    case SyncType => "sync"
    case StockChangeType => "stock_change"
  }

  /** The four names are distinct, so a name selects one type. */
  lemma TypeNameInjective(t: ActivityType, u: ActivityType)
    ensures TypeName(t) == TypeName(u) <==> t == u
  {
  }

  datatype Activity = Activity(
    id: int, kind: ActivityType, description: string, timestamp: int,
    productId: Option<int>, productTitle: Option<string>, quantity: Option<int>)

  /** The comparator `new Date(b.timestamp) - new Date(a.timestamp)`: newest first. */
  function TimestampKey(a: Activity): Key {
    Num(a.timestamp)
  }

  /** The type filter, applied when `filterType !== 'all'`. */
  predicate OfType(a: Activity, filterType: string) {
    TypeName(a.kind) == filterType
  }

  /** The search: the description, or the product title when there is a non-empty one. */
  predicate MatchesSearch(a: Activity, searchTerm: string) {
    Text.FieldMatches(a.description, searchTerm) ||
    (a.productTitle.Some? && a.productTitle.value != "" && Text.FieldMatches(a.productTitle.value, searchTerm))
  }

  /** Whether an activity survives both filter steps. */
  predicate Shown(a: Activity, filterType: string, searchTerm: string) {
    (filterType == "all" || OfType(a, filterType)) && (searchTerm == "" || MatchesSearch(a, searchTerm))
  }

  /**
   * The list step of `generateSampleActivities`, given the generated activities: sort
   * newest first, then narrow by type unless `'all'`, then by the search term unless empty.
   * The result is the sorted list cut down to the shown activities, so it stays newest
   * first and holds each shown activity as often as the generated list does.
   */
  method FilterActivities(sample: seq<Activity>, filterType: string, searchTerm: string)
    returns (filtered: seq<Activity>)
    ensures filtered == Filter(SortBy(sample, TimestampKey, Desc), (a: Activity) => Shown(a, filterType, searchTerm))
    ensures SortedBy(filtered, TimestampKey, Desc)
    ensures forall a :: a in filtered <==> a in sample && Shown(a, filterType, searchTerm)
  {
    var sorted := SortBy(sample, TimestampKey, Desc);
    filtered := sorted;
    if filterType != "all" {
      filtered := Filter(sorted, (a: Activity) => OfType(a, filterType));
    }
    if searchTerm != "" {
      filtered := Filter(filtered, (a: Activity) => MatchesSearch(a, searchTerm));
    }
    StepsKeepShown(sorted, filterType, searchTerm);
    ShownFromSorted(sample, filterType, searchTerm);
  }

  /** The two filter steps, each skipped when its selection is empty, keep the shown activities. */
  lemma StepsKeepShown(s: seq<Activity>, filterType: string, searchTerm: string)
    ensures var typed := if filterType != "all" then Filter(s, (a: Activity) => OfType(a, filterType)) else s;
      (if searchTerm != "" then Filter(typed, (a: Activity) => MatchesSearch(a, searchTerm)) else typed) ==
      Filter(s, (a: Activity) => Shown(a, filterType, searchTerm))
  {
    var shown := (a: Activity) => Shown(a, filterType, searchTerm);
    var byType := (a: Activity) => filterType == "all" || OfType(a, filterType);
    if filterType != "all" {
      FilterCongruent(s, (a: Activity) => OfType(a, filterType), byType);
    } else {
      FilterAll(s, byType);
    }
    if searchTerm != "" {
      FilterFilter(s, byType, (a: Activity) => MatchesSearch(a, searchTerm), shown);
    } else {
      FilterCongruent(s, byType, shown);
    }
  }

  /** Cutting the sorted list down keeps it newest first and keeps exactly the shown activities. */
  lemma ShownFromSorted(sample: seq<Activity>, filterType: string, searchTerm: string)
    ensures var r := Filter(SortBy(sample, TimestampKey, Desc), (a: Activity) => Shown(a, filterType, searchTerm));
      SortedBy(r, TimestampKey, Desc) &&
      forall a :: a in r <==> a in sample && Shown(a, filterType, searchTerm)
  {
    var sorted := SortBy(sample, TimestampKey, Desc);
    var shown := (a: Activity) => Shown(a, filterType, searchTerm);
    FilterSorted(sorted, shown, TimestampKey, Desc);
    forall a ensures a in Filter(sorted, shown) <==> a in sample && shown(a) {
      FilterMembers(sorted, shown, a);
      assert a in sorted <==> a in multiset(sorted);
    }
  }

  /** The 'all' selection with an empty search shows every activity, newest first. */
  lemma NoFilterShowsAll(sample: seq<Activity>)
    ensures Filter(SortBy(sample, TimestampKey, Desc), (a: Activity) => Shown(a, "all", "")) ==
      SortBy(sample, TimestampKey, Desc)
  {
    var sorted := SortBy(sample, TimestampKey, Desc);
    FilterAll(sorted, (a: Activity) => Shown(a, "all", ""));
  }

  /** `activities.filter(a => a.type === t).length`. */
  function CountOf(activities: seq<Activity>, t: ActivityType): nat {
    |Filter(activities, (a: Activity) => a.kind == t)|
  }

  /** The summary: the total and one count per type. */
  datatype Summary = Summary(total: nat, sales: nat, adjustments: nat, syncs: nat, stockChanges: nat)

  function ActivitySummary(activities: seq<Activity>): Summary {
    Summary(|activities|, CountOf(activities, SaleType), CountOf(activities, AdjustmentType),
            CountOf(activities, SyncType), CountOf(activities, StockChangeType))
  }

  /** The first activity adds one to the count of its own type and nothing to the others. */
  lemma CountFirst(activities: seq<Activity>, t: ActivityType)
    requires |activities| > 0
    ensures CountOf(activities, t) == (if activities[0].kind == t then 1 else 0) + CountOf(activities[1..], t)
  {
  }

  /** Every activity has one of the four types, so the four counts add up to the total. */
  lemma {:induction false} CountsSumToTotal(activities: seq<Activity>)
    ensures var s := ActivitySummary(activities);
      s.sales + s.adjustments + s.syncs + s.stockChanges == s.total
  {
    if |activities| > 0 {
      CountsSumToTotal(activities[1..]);
      CountFirst(activities, SaleType);
      CountFirst(activities, AdjustmentType);
      CountFirst(activities, SyncType);
      CountFirst(activities, StockChangeType);
    }
  }

  /** Under a type selection other than 'all', the summary counts only that type. */
  lemma {:induction false} TypeSelectionCounts(sample: seq<Activity>, t: ActivityType, searchTerm: string)
    ensures var shown := Filter(SortBy(sample, TimestampKey, Desc), (a: Activity) => Shown(a, TypeName(t), searchTerm));
      CountOf(shown, t) == |shown| &&
      forall u :: u != t ==> CountOf(shown, u) == 0
  {
    var shown := Filter(SortBy(sample, TimestampKey, Desc), (a: Activity) => Shown(a, TypeName(t), searchTerm));
    forall i | 0 <= i < |shown| ensures shown[i].kind == t {
      TypeNameInjective(shown[i].kind, t);
    }
    FilterAll(shown, (a: Activity) => a.kind == t);
    forall u | u != t ensures CountOf(shown, u) == 0 {
      var none := Filter(shown, (a: Activity) => a.kind == u);
      if |none| > 0 {
        FilterMembers(shown, (a: Activity) => a.kind == u, none[0]);
      }
    }
  }
}
