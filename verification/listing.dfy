/**
 * The REST endpoint `GET exobooking/v1/inventory`: every inventory row,
 * ordered by date ascending.
 */
module Listing {
  import opened Database

  /**
   * Lexicographic order on strings. On dates of the shape `YYYY-MM-DD` it is
   * calendar order, which is what ORDER BY on the DATE column gives.
   */
  predicate DateLeq(a: string, b: string)
    decreases |a|
  {
    |a| == 0 || (|b| > 0 && (a[0] < b[0] || (a[0] == b[0] && DateLeq(a[1..], b[1..]))))
  }

  lemma {:induction false} DateLeqTotal(a: string, b: string)
    ensures DateLeq(a, b) || DateLeq(b, a)
    decreases |a|
  {
    if |a| > 0 && |b| > 0 && a[0] == b[0] {
      DateLeqTotal(a[1..], b[1..]);
    }
  }

  lemma {:induction false} DateLeqTransitive(a: string, b: string, c: string)
    requires DateLeq(a, b) && DateLeq(b, c)
    ensures DateLeq(a, c)
    decreases |a|
  {
    if |a| > 0 && a[0] == b[0] && b[0] == c[0] {
      DateLeqTransitive(a[1..], b[1..], c[1..]);
    }
  }

  /** One row of the listing: the slot's key and counts. */
  datatype Row = Row(key: SlotKey, slot: Slot)

  predicate SortedByDate(rows: seq<Row>) {
    forall i, j :: 0 <= i < j < |rows| ==> DateLeq(rows[i].key.date, rows[j].key.date)
  }

  /** Places `r` before the first row whose date is not earlier than its own. */
  function InsertByDate(r: Row, rows: seq<Row>): (out: seq<Row>)
    ensures |out| == |rows| + 1
    ensures forall x :: x in out <==> x in rows || x == r
    decreases |rows|
  {
    if |rows| == 0 then [r]
    else if DateLeq(r.key.date, rows[0].key.date) then [r] + rows
    else [rows[0]] + InsertByDate(r, rows[1..])
  }

  /** Inserting into a date-ordered listing keeps it date-ordered. */
  lemma {:induction false} InsertByDateSorted(r: Row, rows: seq<Row>)
    requires SortedByDate(rows)
    ensures SortedByDate(InsertByDate(r, rows))
    decreases |rows|
  {
    var out := InsertByDate(r, rows);
    if |rows| == 0 {
    } else if DateLeq(r.key.date, rows[0].key.date) {
      forall i, j | 0 <= i < j < |out|
        ensures DateLeq(out[i].key.date, out[j].key.date)
      {
        if i == 0 && j > 1 {
          DateLeqTransitive(r.key.date, rows[0].key.date, rows[j - 1].key.date);
        }
      }
    } else {
      var tail := InsertByDate(r, rows[1..]);
      InsertByDateSorted(r, rows[1..]);
      DateLeqTotal(r.key.date, rows[0].key.date);
      forall i, j | 0 <= i < j < |out|
        ensures DateLeq(out[i].key.date, out[j].key.date)
      {
        if i == 0 {
          assert out[j] == tail[j - 1];
          assert tail[j - 1] in tail;
          if tail[j - 1] != r {
            var m :| 0 <= m < |rows[1..]| && rows[1..][m] == tail[j - 1];
            assert rows[m + 1] == tail[j - 1];
          }
        } else {
          assert out[i] == tail[i - 1] && out[j] == tail[j - 1];
        }
      }
    }
  }

  /**
   * The listing: each inventory row exactly once, with its current counts,
   * ordered by date ascending. Rows sharing a date come in no fixed order.
   */
  method ListInventory(inv: Inventory) returns (rows: seq<Row>)
    ensures SortedByDate(rows)
    ensures |rows| == |inv|
    ensures forall i :: 0 <= i < |rows| ==> rows[i].key in inv && rows[i].slot == inv[rows[i].key]
    ensures forall k :: k in inv ==> Row(k, inv[k]) in rows
  {
    rows := [];
    var todo := inv.Keys;
    while todo != {}
      invariant todo <= inv.Keys
      invariant SortedByDate(rows)
      invariant |rows| + |todo| == |inv|
      invariant forall i :: 0 <= i < |rows| ==>
        rows[i].key in inv && rows[i].key !in todo && rows[i].slot == inv[rows[i].key]
      invariant forall k :: k in inv && k !in todo ==> Row(k, inv[k]) in rows
      decreases todo
    {
      var k :| k in todo;
      InsertByDateSorted(Row(k, inv[k]), rows);
      var rows' := InsertByDate(Row(k, inv[k]), rows);
      forall i | 0 <= i < |rows'|
        ensures rows'[i] in rows || rows'[i] == Row(k, inv[k])
      {
        assert rows'[i] in rows';
      }
      rows, todo := rows', todo - {k};
    }
  }
}
