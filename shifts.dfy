/** The shift table: one row per clock-in, and the two UPDATE statements
    that close open rows. */
module Shifts {
  datatype Option<T> = None | Some(value: T)

  /** The part of a game job descriptor that the core reads. A missing or empty
      name (falsy in the source) is the empty string. */
  datatype Job = Job(name: string, onduty: bool)

  /** One row of the shift table. The auto-increment `id` column is left out:
      a row's position in the sequence plays its part. */
  datatype Row = Row(identifier: string, job: string, clockin: int, clockout: Option<int>, total: Option<int>)

  /** The row is an open shift of `id` (`identifier = id AND clockout IS NULL`). */
  predicate OpenFor(r: Row, id: string)
  {
    r.identifier == id && r.clockout.None?
  }

  /** Number of open shifts of `id` in the table. */
  function OpenCount(rows: seq<Row>, id: string): nat
  {
    if rows == [] then 0
    else (if OpenFor(rows[0], id) then 1 else 0) + OpenCount(rows[1..], id)
  }

  /** The table invariant the reconciler is meant to keep: no identifier has two open shifts. */
  ghost predicate AtMostOneOpen(rows: seq<Row>)
  {
    forall id :: OpenCount(rows, id) <= 1
  }

  /** `UPDATE t SET clockout = now WHERE identifier = id AND clockout IS NULL`:
      every open row of `id` gets `clockout = now`; nothing else changes
      (in particular `total` is not written). */
  function CloseOpen(rows: seq<Row>, id: string, now: int): (r: seq<Row>)
    ensures |r| == |rows|
    ensures forall i :: 0 <= i < |rows| ==>
      r[i] == (if OpenFor(rows[i], id) then rows[i].(clockout := Some(now)) else rows[i])
  {
    if rows == [] then []
    else
      var head := if OpenFor(rows[0], id) then rows[0].(clockout := Some(now)) else rows[0];
      [head] + CloseOpen(rows[1..], id, now)
  }

  /** `UPDATE t SET clockout = now WHERE clockout IS NULL`: every open row of
      every identifier gets `clockout = now`. */
  function CloseAll(rows: seq<Row>, now: int): (r: seq<Row>)
    ensures |r| == |rows|
    ensures forall i :: 0 <= i < |rows| ==>
      r[i] == (if rows[i].clockout.None? then rows[i].(clockout := Some(now)) else rows[i])
  {
    if rows == [] then []
    else
      var head := if rows[0].clockout.None? then rows[0].(clockout := Some(now)) else rows[0];
      [head] + CloseAll(rows[1..], now)
  }

  /** `after` keeps the history recorded in `before`: no row is removed, a closed
      row is never rewritten, and an open row keeps its identifier, job, start and
      total (only its clockout may be set). */
  predicate History(before: seq<Row>, after: seq<Row>)
  {
    && |before| <= |after|
    && (forall i :: 0 <= i < |before| && before[i].clockout.Some? ==> after[i] == before[i])
    && (forall i :: 0 <= i < |before| ==>
          after[i].identifier == before[i].identifier && after[i].job == before[i].job
          && after[i].clockin == before[i].clockin && after[i].total == before[i].total)
  }

  /** What the `total` column is meant to hold: a closed row without a total gets
      `total = clockout - clockin`. Nothing in the program writes `total`, and the
      reconciler never applies this step. */
  function SettleTotals(rows: seq<Row>): (r: seq<Row>)
    ensures |r| == |rows|
    ensures forall i :: 0 <= i < |rows| ==>
      r[i] == (if rows[i].clockout.Some? && rows[i].total.None?
               then rows[i].(total := Some(rows[i].clockout.value - rows[i].clockin))
               else rows[i])
  {
    if rows == [] then []
    else
      var head := if rows[0].clockout.Some? && rows[0].total.None?
                  then rows[0].(total := Some(rows[0].clockout.value - rows[0].clockin))
                  else rows[0];
      [head] + SettleTotals(rows[1..])
  }

  /** The count is zero exactly when no row is an open shift of `id`. */
  lemma {:induction false} CountZero(rows: seq<Row>, id: string)
    ensures OpenCount(rows, id) == 0 <==> forall i :: 0 <= i < |rows| ==> !OpenFor(rows[i], id)
  {
    if rows != [] {
      CountZero(rows[1..], id);
      assert forall i :: 1 <= i < |rows| ==> rows[i] == rows[1..][i - 1];
      if OpenFor(rows[0], id) {
        assert OpenCount(rows, id) >= 1;
      }
    }
  }

  /** `OpenCount(rows, id) <= 1` is the index-wise statement "no two distinct rows
      are both open shifts of `id`". */
  lemma {:induction false} AtMostOneIff(rows: seq<Row>, id: string)
    ensures OpenCount(rows, id) <= 1 <==>
      forall i, j :: 0 <= i < |rows| && 0 <= j < |rows| && OpenFor(rows[i], id) && OpenFor(rows[j], id) ==> i == j
  {
    if rows != [] {
      var tail := rows[1..];
      AtMostOneIff(tail, id);
      assert forall i :: 1 <= i < |rows| ==> rows[i] == tail[i - 1];
      if OpenFor(rows[0], id) {
        CountZero(tail, id);
        if OpenCount(tail, id) != 0 {
          var k :| 0 <= k < |tail| && OpenFor(tail[k], id);
          assert OpenFor(rows[k + 1], id);
        }
      } else {
        if OpenCount(tail, id) > 1 {
          var i, j :| 0 <= i < |tail| && 0 <= j < |tail| && OpenFor(tail[i], id) && OpenFor(tail[j], id) && i != j;
          assert OpenFor(rows[i + 1], id) && OpenFor(rows[j + 1], id);
        }
      }
    }
  }

  /** Appending one row adds one to the count of its identifier when it is open. */
  lemma {:induction false} CountAppend(rows: seq<Row>, r: Row, id: string)
    ensures OpenCount(rows + [r], id) == OpenCount(rows, id) + (if OpenFor(r, id) then 1 else 0)
  {
    if rows == [] {
      assert [r][1..] == [];
    } else {
      assert (rows + [r])[1..] == rows[1..] + [r];
      CountAppend(rows[1..], r, id);
    }
  }

  /** After `CloseOpen(rows, id, now)` the identifier has no open shift, and every
      other identifier keeps exactly the open shifts it had. */
  lemma CloseOpenCounts(rows: seq<Row>, id: string, now: int)
    ensures OpenCount(CloseOpen(rows, id, now), id) == 0
    ensures forall x :: x != id ==> OpenCount(CloseOpen(rows, id, now), x) == OpenCount(rows, x)
  {
  }

  /** After `CloseAll(rows, now)` no identifier has an open shift. */
  lemma CloseAllCounts(rows: seq<Row>, now: int)
    ensures forall x :: OpenCount(CloseAll(rows, now), x) == 0
  {
  }
}
