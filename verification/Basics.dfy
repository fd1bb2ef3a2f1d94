/** Small wrappers shared by every component. */
module Basics {

  /** Python's `T | None`. */
  datatype Option<+T> = None | Some(value: T)

  /** A call that either returns or raises; the exception's text is never inspected. */
  datatype Result<+T> = Ok(value: T) | Raised

  /** An instant on the UTC clock, in any fixed unit. */
  type Time = int

  /** Rows ordered by time; ties keep their insertion order (the row id). */
  ghost predicate SortedByTime<T>(at: T -> Time, rows: seq<T>) {
    forall i, j :: 0 <= i < j < |rows| ==> at(rows[i]) <= at(rows[j])
  }

  /** Inserts a row behind every row that is not later than it. */
  function InsertByTime<T>(at: T -> Time, sorted: seq<T>, row: T): seq<T> {
    if sorted == [] || at(sorted[|sorted| - 1]) <= at(row) then sorted + [row]
    else InsertByTime(at, sorted[..|sorted| - 1], row) + [sorted[|sorted| - 1]]
  }

  /** `ORDER BY time, id` over rows listed in insertion order. */
  function OrderByTime<T>(at: T -> Time, rows: seq<T>): seq<T> {
    if rows == [] then []
    else InsertByTime(at, OrderByTime(at, rows[..|rows| - 1]), rows[|rows| - 1])
  }

  /** Under a clock that never runs backwards the query returns rows as inserted. */
  lemma {:induction false} OrderByTimeKeepsSorted<T>(at: T -> Time, rows: seq<T>)
    requires SortedByTime(at, rows)
    ensures OrderByTime(at, rows) == rows
  {
    if rows == [] {
    } else {
      var init := rows[..|rows| - 1];
      OrderByTimeKeepsSorted(at, init);
      assert rows == init + [rows[|rows| - 1]];
    }
  }
}
