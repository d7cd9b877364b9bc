/**
 * Comparator sorts of the list pages and of the activity endpoint, and the sort-header
 * state every table keeps.
 *
 * Each comparator in the source orders records by one key: a number (a stock figure, a
 * quantity, an instant) or a string (a title, an SKU, an ISO timestamp compared as text).
 * `Array.prototype.sort` and Python's `list.sort(reverse=True)` are both stable, so one
 * stable sort, `SortBy`, models them all.
 */
module Sorting {
  import opened Seqs

  /** A sort key: a number, or a string compared character by character. */
  datatype Key = Num(n: int) | Text(s: string)

  datatype Direction = Asc | Desc

  /** `a <= b` on strings: lexicographic by character code, a prefix first. */
  predicate TextLe(a: string, b: string) {
    if |a| == 0 then true
    else if |b| == 0 then false
    else if a[0] != b[0] then a[0] < b[0]
    else TextLe(a[1..], b[1..])
  }

  lemma {:induction false} TextLeTotal(a: string, b: string)
    ensures TextLe(a, b) || TextLe(b, a)
  {
    if |a| > 0 && |b| > 0 && a[0] == b[0] {
      TextLeTotal(a[1..], b[1..]);
    }
  }

  lemma {:induction false} TextLeTransitive(a: string, b: string, c: string)
    requires TextLe(a, b) && TextLe(b, c)
    ensures TextLe(a, c)
  {
    if |a| > 0 && |b| > 0 && |c| > 0 && a[0] == b[0] && b[0] == c[0] {
      TextLeTransitive(a[1..], b[1..], c[1..]);
    }
  }

  lemma {:induction false} TextLeAntisymmetric(a: string, b: string)
    requires TextLe(a, b) && TextLe(b, a)
    ensures a == b
  {
    if |a| > 0 && |b| > 0 {
      TextLeAntisymmetric(a[1..], b[1..]);
      assert a == [a[0]] + a[1..] && b == [b[0]] + b[1..];
    }
  }

  /** The order on keys. Keys of one column are all numbers or all strings. */
  predicate KeyLe(a: Key, b: Key) {
    match (a, b)
    case (Num(x), Num(y)) => x <= y
    case (Text(x), Text(y)) => TextLe(x, y)
    case (Num(_), Text(_)) => true
    case (Text(_), Num(_)) => false
  }

  lemma KeyLeTotal(a: Key, b: Key)
    ensures KeyLe(a, b) || KeyLe(b, a)
  {
    if a.Text? && b.Text? {
      TextLeTotal(a.s, b.s);
    }
  }

  lemma KeyLeTransitive(a: Key, b: Key, c: Key)
    requires KeyLe(a, b) && KeyLe(b, c)
    ensures KeyLe(a, c)
  {
    if a.Text? && b.Text? && c.Text? {
      TextLeTransitive(a.s, b.s, c.s);
    }
  }

  lemma KeyLeAntisymmetric(a: Key, b: Key)
    requires KeyLe(a, b) && KeyLe(b, a)
    ensures a == b
  {
    if a.Text? && b.Text? {
      TextLeAntisymmetric(a.s, b.s);
    }
  }

  /** May a record with key `a` come before one with key `b` when sorting in `dir`? */
  predicate Before(a: Key, b: Key, dir: Direction) {
    if dir == Asc then KeyLe(a, b) else KeyLe(b, a)
  }

  lemma BeforeTotal(a: Key, b: Key, dir: Direction)
    ensures Before(a, b, dir) || Before(b, a, dir)
  {
    KeyLeTotal(a, b);
  }

  lemma BeforeTransitive(a: Key, b: Key, c: Key, dir: Direction)
    requires Before(a, b, dir) && Before(b, c, dir)
    ensures Before(a, c, dir)
  {
    if dir == Asc { KeyLeTransitive(a, b, c); } else { KeyLeTransitive(c, b, a); }
  }

  /** `s` is ordered by `key` in direction `dir`. */
  predicate SortedBy<T>(s: seq<T>, key: T -> Key, dir: Direction) {
    forall i, j :: 0 <= i < j < |s| ==> Before(key(s[i]), key(s[j]), dir)
  }

  /**
   * Places `x` before the first element it may precede. Equal keys count as "may
   * precede", so `x`, which came earlier in the input, stays ahead of its equals.
   */
  function Insert<T>(x: T, r: seq<T>, key: T -> Key, dir: Direction): (q: seq<T>)
    ensures |q| == |r| + 1
    ensures multiset(q) == multiset(r) + multiset{x}
  {
    if |r| == 0 || Before(key(x), key(r[0]), dir) then [x] + r
    else
      assert r == [r[0]] + r[1..];
      [r[0]] + Insert(x, r[1..], key, dir)
  }

  lemma {:induction false} InsertSorted<T>(x: T, r: seq<T>, key: T -> Key, dir: Direction)
    requires SortedBy(r, key, dir)
    ensures SortedBy(Insert(x, r, key, dir), key, dir)
  {
    if |r| == 0 || Before(key(x), key(r[0]), dir) {
      var q := [x] + r;
      forall i, j | 0 <= i < j < |q| ensures Before(key(q[i]), key(q[j]), dir) {
        if i == 0 && j > 1 {
          BeforeTransitive(key(x), key(r[0]), key(r[j - 1]), dir);
        }
      }
    } else {
      BeforeTotal(key(x), key(r[0]), dir);
      InsertSorted(x, r[1..], key, dir);
      var rest := Insert(x, r[1..], key, dir);
      var q := [r[0]] + rest;
      forall i, j | 0 <= i < j < |q| ensures Before(key(q[i]), key(q[j]), dir) {
        if i == 0 {
          assert q[j] in multiset(rest);
          assert q[j] == x || q[j] in multiset(r[1..]);
        }
      }
    }
  }

  /** The stable sort: `[...s].sort(comparator)` for a comparator on `key` in direction `dir`. */
  function SortBy<T>(s: seq<T>, key: T -> Key, dir: Direction): (r: seq<T>)
    ensures |r| == |s|
    ensures multiset(r) == multiset(s)
    ensures SortedBy(r, key, dir)
  {
    if |s| == 0 then []
    else
      assert s == [s[0]] + s[1..];
      var rest := SortBy(s[1..], key, dir);
      InsertSorted(s[0], rest, key, dir);
      Insert(s[0], rest, key, dir)
  }

  /** Sorting two records keeps them in order unless the second must come first. */
  lemma SortByPair<T>(x: T, y: T, key: T -> Key, dir: Direction)
    ensures SortBy([x, y], key, dir) == if Before(key(x), key(y), dir) then [x, y] else [y, x]
  {
    assert [y][1..] == [];
    assert SortBy([y], key, dir) == [y] by {
      assert SortBy([y], key, dir) == Insert(y, SortBy([], key, dir), key, dir);
    }
    assert [x, y][1..] == [y];
    assert SortBy([x, y], key, dir) == Insert(x, [y], key, dir);
    if !Before(key(x), key(y), dir) {
      assert Insert(x, [y], key, dir) == [y] + Insert(x, [], key, dir);
    }
  }

  /** The records whose key is `k`, in order. */
  function WithKey<T>(s: seq<T>, key: T -> Key, k: Key): seq<T>
  {
    if |s| == 0 then []
    else (if key(s[0]) == k then [s[0]] else []) + WithKey(s[1..], key, k)
  }

  lemma {:induction false} InsertWithKey<T>(x: T, r: seq<T>, key: T -> Key, dir: Direction, k: Key)
    ensures WithKey(Insert(x, r, key, dir), key, k) ==
      (if key(x) == k then [x] else []) + WithKey(r, key, k)
  {
    if |r| == 0 || Before(key(x), key(r[0]), dir) {
      assert ([x] + r)[1..] == r;
    } else {
      assert ([r[0]] + Insert(x, r[1..], key, dir))[1..] == Insert(x, r[1..], key, dir);
      InsertWithKey(x, r[1..], key, dir, k);
      if key(x) == k && key(r[0]) == k {
        KeyLeTotal(k, k);
        assert false;
      }
    }
  }

  /**
   * Stability: the records sharing any one key keep their input order, the property
   * a comparator returning 0 on ties relies on.
   */
  lemma {:induction false} SortByStable<T>(s: seq<T>, key: T -> Key, dir: Direction, k: Key)
    ensures WithKey(SortBy(s, key, dir), key, k) == WithKey(s, key, k)
  {
    if |s| > 0 {
      SortByStable(s[1..], key, dir, k);
      InsertWithKey(s[0], SortBy(s[1..], key, dir), key, dir, k);
    }
  }

  /** Sorting an already sorted list changes nothing; in particular sorting is idempotent. */
  lemma {:induction false} SortBySortedIdentity<T>(s: seq<T>, key: T -> Key, dir: Direction)
    requires SortedBy(s, key, dir)
    ensures SortBy(s, key, dir) == s
  {
    if |s| > 0 {
      SortBySortedIdentity(s[1..], key, dir);
      assert s == [s[0]] + s[1..];
    }
  }

  lemma SortByIdempotent<T>(s: seq<T>, key: T -> Key, dir: Direction)
    ensures SortBy(SortBy(s, key, dir), key, dir) == SortBy(s, key, dir)
  {
    SortBySortedIdentity(SortBy(s, key, dir), key, dir);
  }

  /** A filter keeps a sorted list sorted. */
  lemma {:induction false} FilterSorted<T>(s: seq<T>, p: T -> bool, key: T -> Key, dir: Direction)
    requires SortedBy(s, key, dir)
    ensures SortedBy(Filter(s, p), key, dir)
  {
    if |s| > 0 {
      FilterSorted(s[1..], p, key, dir);
      var rest := Filter(s[1..], p);
      var q := Filter(s, p);
      if p(s[0]) {
        assert q == [s[0]] + rest;
        forall i, j | 0 <= i < j < |q| ensures Before(key(q[i]), key(q[j]), dir) {
          if i == 0 {
            assert q[j] in multiset(s[1..]);
          }
        }
      }
    }
  }

  lemma FilterCons<T>(x: T, s: seq<T>, p: T -> bool)
    ensures Filter([x] + s, p) == (if p(x) then [x] else []) + Filter(s, p)
  {
    assert ([x] + s)[1..] == s;
  }

  /** The first element of a filtered list is an element of the list. */
  lemma FilterHead<T>(r: seq<T>, p: T -> bool) returns (m: nat)
    requires |Filter(r, p)| > 0
    ensures m < |r| && r[m] == Filter(r, p)[0]
  {
    var fr := Filter(r, p);
    assert fr[0] in multiset(r);
    m :| 0 <= m < |r| && r[m] == fr[0];
  }

  lemma SortedTail<T>(r: seq<T>, key: T -> Key, dir: Direction)
    requires |r| > 0 && SortedBy(r, key, dir)
    ensures SortedBy(r[1..], key, dir)
  {
    var tail := r[1..];
    forall i, j | 0 <= i < j < |tail| ensures Before(key(tail[i]), key(tail[j]), dir) {
      assert tail[i] == r[i + 1] && tail[j] == r[j + 1];
    }
  }

  lemma FilterInsertFront<T>(x: T, r: seq<T>, p: T -> bool, key: T -> Key, dir: Direction)
    requires SortedBy(r, key, dir)
    requires |r| == 0 || Before(key(x), key(r[0]), dir)
    ensures Filter(Insert(x, r, key, dir), p) ==
      if p(x) then Insert(x, Filter(r, p), key, dir) else Filter(r, p)
  {
    var fr := Filter(r, p);
    assert Insert(x, r, key, dir) == [x] + r;
    FilterCons(x, r, p);
    if p(x) && |fr| > 0 {
      var m := FilterHead(r, p);
      if m > 0 {
        BeforeTransitive(key(x), key(r[0]), key(r[m]), dir);
      }
      assert Insert(x, fr, key, dir) == [x] + fr;
    }
  }

  lemma {:induction false} FilterInsert<T>(x: T, r: seq<T>, p: T -> bool, key: T -> Key, dir: Direction)
    requires SortedBy(r, key, dir)
    ensures Filter(Insert(x, r, key, dir), p) ==
      if p(x) then Insert(x, Filter(r, p), key, dir) else Filter(r, p)
  {
    if |r| == 0 || Before(key(x), key(r[0]), dir) {
      FilterInsertFront(x, r, p, key, dir);
    } else {
      var tail := r[1..];
      SortedTail(r, key, dir);
      var ins := Insert(x, tail, key, dir);
      assert Insert(x, r, key, dir) == [r[0]] + ins;
      FilterCons(r[0], ins, p);
      assert r == [r[0]] + tail;
      FilterCons(r[0], tail, p);
      FilterInsert(x, tail, p, key, dir);
      var ft := Filter(tail, p);
      if p(r[0]) {
        var fr := [r[0]] + ft;
        assert fr[1..] == ft;
        if p(x) {
          assert Insert(x, fr, key, dir) == [r[0]] + Insert(x, ft, key, dir);
        }
      } else {
        assert Filter(r, p) == ft;
        assert Filter(Insert(x, r, key, dir), p) == Filter(ins, p);
      }
    }
  }

  /**
   * Filtering and sorting commute: filter-then-sort and sort-then-filter produce the
   * same list.
   */
  lemma SortByCons<T>(x: T, s: seq<T>, key: T -> Key, dir: Direction)
    ensures SortBy([x] + s, key, dir) == Insert(x, SortBy(s, key, dir), key, dir)
  {
    assert ([x] + s)[1..] == s;
  }

  lemma CommuteStep<T>(x: T, tail: seq<T>, p: T -> bool, key: T -> Key, dir: Direction)
    requires Filter(SortBy(tail, key, dir), p) == SortBy(Filter(tail, p), key, dir)
    ensures Filter(SortBy([x] + tail, key, dir), p) == SortBy(Filter([x] + tail, p), key, dir)
  {
    SortByCons(x, tail, key, dir);
    FilterInsert(x, SortBy(tail, key, dir), p, key, dir);
    FilterCons(x, tail, p);
    if p(x) {
      SortByCons(x, Filter(tail, p), key, dir);
    } else {
      assert Filter([x] + tail, p) == Filter(tail, p);
    }
  }

  lemma {:induction false} FilterSortCommute<T>(s: seq<T>, p: T -> bool, key: T -> Key, dir: Direction)
    ensures Filter(SortBy(s, key, dir), p) == SortBy(Filter(s, p), key, dir)
  {
    if |s| > 0 {
      FilterSortCommute(s[1..], p, key, dir);
      CommuteStep(s[0], s[1..], p, key, dir);
      assert s == [s[0]] + s[1..];
    }
  }

  lemma {:induction false} SumByInsert<T>(x: T, r: seq<T>, key: T -> Key, dir: Direction, f: T -> int)
    ensures SumBy(Insert(x, r, key, dir), f) == f(x) + SumBy(r, f)
  {
    if |r| > 0 && !Before(key(x), key(r[0]), dir) {
      assert ([r[0]] + Insert(x, r[1..], key, dir))[1..] == Insert(x, r[1..], key, dir);
      SumByInsert(x, r[1..], key, dir, f);
    } else {
      assert ([x] + r)[1..] == r;
    }
  }

  /** Sorting does not change a column total. */
  lemma {:induction false} SumBySort<T>(s: seq<T>, key: T -> Key, dir: Direction, f: T -> int)
    ensures SumBy(SortBy(s, key, dir), f) == SumBy(s, f)
  {
    if |s| > 0 {
      SumBySort(s[1..], key, dir, f);
      SumByInsert(s[0], SortBy(s[1..], key, dir), key, dir, f);
    }
  }

  /** Sorting does not change how many elements a filter keeps. */
  lemma FilterLengthSort<T>(s: seq<T>, key: T -> Key, dir: Direction, p: T -> bool)
    ensures |Filter(SortBy(s, key, dir), p)| == |Filter(s, p)|
  {
    FilterLength(s, p);
    FilterLength(SortBy(s, key, dir), p);
    SumBySort(s, key, dir, Indicator(p));
  }

  /** The sort state of a table header: the active field and its direction. */
  datatype SortState<F> = SortState(field: F, direction: Direction)

  function Flip(d: Direction): Direction {
    if d == Asc then Desc else Asc
  }

  /**
   * `handleSort(field)`: on the active field flip the direction; on another field
   * switch to it with the page's default direction.
   */
  function NextSort<F(==)>(st: SortState<F>, field: F, default: Direction): (r: SortState<F>)
    ensures r.field == field
    ensures field == st.field ==> r.direction != st.direction
    ensures field != st.field ==> r.direction == default
  {
    if field == st.field then SortState(field, Flip(st.direction))
    else SortState(field, default)
  }

  /** Clicking the same header twice restores the original state. */
  lemma NextSortTwice<F>(st: SortState<F>, default: Direction)
    ensures NextSort(NextSort(st, st.field, default), st.field, default) == st
  {
  }

  /** A table header's sort state, as the page component keeps it. */
  class SortHeader<F(==)> {
    var field: F
    var direction: Direction
    /** The direction a newly chosen field starts in. */
    const default: Direction

    constructor(field0: F, direction0: Direction, default0: Direction)
      ensures field == field0 && direction == direction0 && default == default0
    {
      field := field0;
      direction := direction0;
      default := default0;
    }

    /** `handleSort(f)`. */
    method HandleSort(f: F)
      modifies this
      ensures SortState(field, direction) == NextSort(old(SortState(field, direction)), f, default)
    {
      if f == field {
        direction := Flip(direction);
      } else {
        field := f;
        direction := default;
      }
    }
  }
}
