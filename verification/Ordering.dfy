/** `ORDER BY position` over one list's rows, and why a strictly increasing arrangement
    of those rows is the only one there is. */
module Ordering {
  import opened Schema
  import opened FractionalKeys

  /** `WHERE list_id = l`, in table order. */
  function RowsOf(items: seq<ListItem>, l: ListId): seq<ListItem> {
    if items == [] then []
    else (if items[0].list == l then [items[0]] else []) + RowsOf(items[1..], l)
  }

  function InsertByPosition(row: ListItem, sorted: seq<ListItem>): seq<ListItem> {
    if sorted == [] then [row]
    else if !Less(sorted[0].position, row.position) then [row] + sorted
    else [sorted[0]] + InsertByPosition(row, sorted[1..])
  }

  function SortByPosition(rows: seq<ListItem>): seq<ListItem> {
    if rows == [] then [] else InsertByPosition(rows[0], SortByPosition(rows[1..]))
  }

  /** `_ordered_items`. */
  function OrderedItems(items: seq<ListItem>, l: ListId): seq<ListItem> {
    SortByPosition(RowsOf(items, l))
  }

  lemma {:induction false} RowsOfMembers(items: seq<ListItem>, l: ListId, i: ListItem)
    ensures i in RowsOf(items, l) <==> i in items && i.list == l
  {
    if items != [] { RowsOfMembers(items[1..], l, i); }
  }

  lemma {:induction false} InsertMembers(row: ListItem, sorted: seq<ListItem>, i: ListItem)
    ensures i in InsertByPosition(row, sorted) <==> i == row || i in sorted
  {
    if sorted != [] { InsertMembers(row, sorted[1..], i); }
  }

  lemma {:induction false} SortMembers(rows: seq<ListItem>, i: ListItem)
    ensures i in SortByPosition(rows) <==> i in rows
  {
    if rows != [] {
      InsertMembers(rows[0], SortByPosition(rows[1..]), i);
      SortMembers(rows[1..], i);
    }
  }

  /** The query returns exactly the list's rows. */
  lemma OrderedMembers(items: seq<ListItem>, l: ListId, i: ListItem)
    ensures i in OrderedItems(items, l) <==> i in items && i.list == l
  {
    RowsOfMembers(items, l, i);
    SortMembers(RowsOf(items, l), i);
  }

  ghost predicate Increasing(s: seq<ListItem>) {
    forall i, j | 0 <= i < j < |s| :: Less(s[i].position, s[j].position)
  }

  /** No two rows of a list hold the same position, the same id or the same venue. */
  ghost predicate DistinctRows(items: seq<ListItem>) {
    && (forall i, j | 0 <= i < j < |items| :: items[i].id != items[j].id)
    && (forall i, j | 0 <= i < j < |items| && items[i].list == items[j].list ::
          items[i].position != items[j].position && items[i].venue != items[j].venue)
  }

  lemma {:induction false} InsertKeepsIncreasing(row: ListItem, sorted: seq<ListItem>)
    requires Increasing(sorted)
    requires forall i <- sorted :: i.position != row.position
    ensures Increasing(InsertByPosition(row, sorted))
  {
    if sorted != [] {
      LessTotal(sorted[0].position, row.position);
      if Less(sorted[0].position, row.position) {
        InsertKeepsIncreasing(row, sorted[1..]);
        var rest := InsertByPosition(row, sorted[1..]);
        forall j | 0 <= j < |rest| ensures Less(sorted[0].position, rest[j].position) {
          assert rest[j] in rest;
          InsertMembers(row, sorted[1..], rest[j]);
        }
      } else {
        forall j | 0 <= j < |sorted| ensures Less(row.position, sorted[j].position) {
          if j > 0 { LessTransitive(row.position, sorted[0].position, sorted[j].position); }
        }
      }
    }
  }

  lemma {:induction false} SortIsIncreasing(rows: seq<ListItem>)
    requires forall i, j | 0 <= i < j < |rows| :: rows[i].position != rows[j].position
    ensures Increasing(SortByPosition(rows))
  {
    if rows != [] {
      SortIsIncreasing(rows[1..]);
      forall i <- SortByPosition(rows[1..]) ensures i.position != rows[0].position { SortMembers(rows[1..], i); }
      InsertKeepsIncreasing(rows[0], SortByPosition(rows[1..]));
    }
  }

  lemma {:induction false} RowsOfKeepsDistinct(items: seq<ListItem>, l: ListId)
    requires DistinctRows(items)
    ensures forall i, j | 0 <= i < j < |RowsOf(items, l)| ::
              RowsOf(items, l)[i].position != RowsOf(items, l)[j].position
  {
    if items != [] {
      RowsOfKeepsDistinct(items[1..], l);
      var rest := RowsOf(items[1..], l);
      forall j | 0 <= j < |rest| && items[0].list == l ensures items[0].position != rest[j].position {
        assert rest[j] in rest;
        RowsOfMembers(items[1..], l, rest[j]);
        var k :| 0 <= k < |items[1..]| && items[1..][k] == rest[j];
        assert items[k + 1] == rest[j];
      }
    }
  }

  lemma OrderedIsIncreasing(items: seq<ListItem>, l: ListId)
    requires DistinctRows(items)
    ensures Increasing(OrderedItems(items, l))
  {
    RowsOfKeepsDistinct(items, l);
    SortIsIncreasing(RowsOf(items, l));
  }

  /** Two strictly increasing arrangements of the same rows are equal. */
  lemma {:induction false} IncreasingIsUnique(s: seq<ListItem>, t: seq<ListItem>)
    requires Increasing(s) && Increasing(t)
    requires forall i :: i in s <==> i in t
    ensures s == t
  {
    assert s != [] ==> s[0] in t;
    assert t != [] ==> t[0] in s;
    if s != [] && t != [] {
      HeadsAgree(s, t);
      forall i ensures i in s[1..] <==> i in t[1..] {
        TailMembers(s, i);
        TailMembers(t, i);
      }
      IncreasingIsUnique(s[1..], t[1..]);
      assert s == [s[0]] + s[1..] && t == [t[0]] + t[1..];
    }
  }

  lemma HeadsAgree(s: seq<ListItem>, t: seq<ListItem>)
    requires s != [] && t != [] && Increasing(s) && Increasing(t)
    requires forall i :: i in s <==> i in t
    ensures s[0] == t[0]
  {
    assert s[0] in t && t[0] in s;
    var j :| 0 <= j < |t| && t[j] == s[0];
    var k :| 0 <= k < |s| && s[k] == t[0];
    if j > 0 && k > 0 {
      LessTransitive(s[0].position, s[k].position, t[j].position);
      LessIrreflexive(s[0].position);
    }
  }

  lemma TailMembers(s: seq<ListItem>, i: ListItem)
    requires s != [] && Increasing(s)
    ensures i in s[1..] <==> i in s && i != s[0]
  {
    LessIrreflexive(s[0].position);
    if i in s && i != s[0] {
      var k :| 0 <= k < |s| && s[k] == i;
      assert s[1..][k - 1] == i;
    }
    if i in s[1..] {
      var k :| 0 <= k < |s[1..]| && s[1..][k] == i;
      assert s[k + 1] == i;
    }
  }

  /** Any strictly increasing arrangement of a list's rows is what the query returns. */
  lemma OrderedUnique(items: seq<ListItem>, l: ListId, s: seq<ListItem>)
    requires DistinctRows(items)
    requires Increasing(s) && forall i :: i in s <==> i in items && i.list == l
    ensures OrderedItems(items, l) == s
  {
    OrderedIsIncreasing(items, l);
    forall i { OrderedMembers(items, l, i); }
    IncreasingIsUnique(OrderedItems(items, l), s);
  }
}
