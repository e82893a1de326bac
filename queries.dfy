/**
 * The two query shapes the handlers use on a table: `query(T).filter(p).first()` is `First`,
 * `query(T).filter(p).all()` is `Filter`. A table is a sequence of rows; the queries scan
 * it in sequence order. The SQL carries no ORDER BY, so the database promises no order:
 * the properties the model relies on are stated for the multiset of rows returned.
 */
module Queries {
  import opened Wrappers

  /** The index of the first row satisfying `p`, or None when no row does. */
  function First<T>(rows: seq<T>, p: T -> bool): (r: Option<nat>)
    ensures r.Some? ==> r.value < |rows| && p(rows[r.value])
    ensures r.Some? ==> forall k :: 0 <= k < r.value ==> !p(rows[k])
    ensures r.None? <==> forall k :: 0 <= k < |rows| ==> !p(rows[k])
  {
    if |rows| == 0 then None
    else if p(rows[0]) then Some(0)
    else match First(rows[1..], p)
      case None => None
      case Some(i) => Some(i + 1)
  }

  /** The rows satisfying `p` (FilterCounts: each exactly as often as the table holds it). */
  function Filter<T>(rows: seq<T>, p: T -> bool): (r: seq<T>)
    ensures |r| <= |rows|
    ensures forall k :: 0 <= k < |r| ==> r[k] in rows && p(r[k])
    ensures forall k :: 0 <= k < |rows| && p(rows[k]) ==> rows[k] in r
  {
    if |rows| == 0 then []
    else if p(rows[0]) then [rows[0]] + Filter(rows[1..], p)
    else Filter(rows[1..], p)
  }

  /** `.all()` returns each matching row exactly as often as the table holds it, and no other row. */
  lemma {:induction false} FilterCounts<T(!new)>(rows: seq<T>, p: T -> bool)
    ensures forall x :: multiset(Filter(rows, p))[x] == if p(x) then multiset(rows)[x] else 0
  {
    if |rows| > 0 {
      assert rows == [rows[0]] + rows[1..];
      FilterCounts(rows[1..], p);
    }
  }

  /** Two tables that agree row by row on `p` give the same first match. */
  lemma FirstCongruent<T>(a: seq<T>, b: seq<T>, p: T -> bool)
    requires |a| == |b|
    requires forall k :: 0 <= k < |a| ==> p(a[k]) == p(b[k])
    ensures First(a, p) == First(b, p)
  {
  }

  /** Appending a row extends the filtered rows by that row exactly when it qualifies. */
  lemma {:induction false} FilterAppend<T>(rows: seq<T>, x: T, p: T -> bool)
    ensures Filter(rows + [x], p) == Filter(rows, p) + (if p(x) then [x] else [])
  {
    if |rows| > 0 {
      assert (rows + [x])[1..] == rows[1..] + [x];
      FilterAppend(rows[1..], x, p);
    }
  }

  /** Replacing one row changes the number of matches by what the old and new rows contribute. */
  lemma {:induction false} FilterCountUpdate<T>(rows: seq<T>, i: nat, x: T, p: T -> bool)
    requires i < |rows|
    ensures |Filter(rows[i := x], p)|
            == |Filter(rows, p)| - (if p(rows[i]) then 1 else 0) + (if p(x) then 1 else 0)
  {
    if i == 0 {
      assert rows[i := x][1..] == rows[1..];
    } else {
      assert rows[i := x][1..] == rows[1..][i - 1 := x];
      FilterCountUpdate(rows[1..], i - 1, x, p);
    }
  }
}
