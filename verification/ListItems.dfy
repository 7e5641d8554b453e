/** List contents (`app/services/list_item.py`): adding, moving and removing items by
    fractional position, and why that is exactly editing a sequence. */
module ListItems {
  import opened Wrappers
  import opened Schema
  import opened FractionalKeys
  import opened Ordering
  import opened Policies
  import opened Content

  // --- positions ---------------------------------------------------------------

  datatype Position = At(key: Key) | NoSuchItem | NoRoom

  /** `fi.generate_key_between`, which raises when its bounds are out of order. */
  function GenerateKeyBetween(lo: Option<Key>, hi: Option<Key>): Position {
    if lo.Some? && hi.Some? && !Less(lo.value, hi.value) then NoRoom else At(KeyBetween(lo, hi))
  }

  /** A key for the gap in front of index `k`. */
  function KeyAt(s: seq<ListItem>, k: nat): Position
    requires k <= |s|
  {
    GenerateKeyBetween(if k == 0 then None else Some(s[k - 1].position),
                       if k == |s| then None else Some(s[k].position))
  }

  function IndexOf(s: seq<ListItem>, id: ItemId): (k: Option<nat>)
    ensures k.Some? ==> k.value < |s| && s[k.value].id == id
    ensures k.None? ==> forall i <- s :: i.id != id
  {
    if s == [] then None
    else if s[0].id == id then Some(0)
    else match IndexOf(s[1..], id) case Some(k) => Some(k + 1) case None => None
  }

  /** The gap an insertion after `after` lands in; `None` is the very start. */
  function GapAfter(s: seq<ListItem>, after: Option<ItemId>): (k: Option<nat>)
    ensures k.Some? ==> k.value <= |s|
  {
    if after.None? then Some(0)
    else match IndexOf(s, after.value) case Some(k) => Some(k + 1) case None => None
  }

  function PositionAfter(s: seq<ListItem>, after: Option<ItemId>): Position {
    match GapAfter(s, after)
    case Some(k) => KeyAt(s, k)
    case None => NoSuchItem
  }

  /** `_position_after`, scanning the ordered rows for the item to follow. */
  method ScanPositionAfter(s: seq<ListItem>, after: Option<ItemId>) returns (p: Position)
    ensures p == PositionAfter(s, after)
  {
    if after.None? {
      var following := if s != [] then Some(s[0].position) else None;
      return GenerateKeyBetween(None, following);
    }
    var index := 0;
    while index < |s|
      invariant 0 <= index <= |s|
      invariant IndexOf(s, after.value) == match IndexOf(s[index..], after.value)
                                           case Some(k) => Some(k + index)
                                           case None => None
    {
      if s[index].id == after.value {
        var following := if index + 1 < |s| then Some(s[index + 1].position) else None;
        return GenerateKeyBetween(Some(s[index].position), following);
      }
      assert s[index..][1..] == s[index + 1..];
      index := index + 1;
    }
    return NoSuchItem;
  }

  // --- the three calls ---------------------------------------------------------

  predicate VenueOnList(items: seq<ListItem>, l: ListId, v: VenueId) {
    exists i <- items :: i.list == l && i.venue == v
  }

  datatype Edited = Rejected(error: Error) | Written(items: seq<ListItem>)

  function AddRow(items: seq<ListItem>, l: ListId, v: VenueId, after: Option<ItemId>, id: ItemId): Edited {
    if VenueOnList(items, l, v) then Rejected(DuplicateListItem)
    else
      var s := OrderedItems(items, l);
      match (if after.None? then KeyAt(s, |s|) else PositionAfter(s, after))
      case NoSuchItem => Rejected(ListItemNotFound)
      case NoRoom => Rejected(Refused)
      case At(key) =>
        if IndexOf(items, id).Some? then Rejected(Refused) else Written(items + [ListItem(id, l, v, key)])
  }

  /** `session.get(ListItem, id)`, then the check that it is on this list. A list the
      caller may change shows its items, so the select policy drops nothing more. */
  function ItemOnList(items: seq<ListItem>, l: ListId, id: ItemId): (k: Option<nat>)
    ensures k.Some? ==> k.value < |items| && items[k.value].id == id && items[k.value].list == l
  {
    match IndexOf(items, id)
    case None => None
    case Some(k) => if items[k].list == l then Some(k) else None
  }

  function MoveRow(items: seq<ListItem>, l: ListId, id: ItemId, after: Option<ItemId>): Edited {
    match ItemOnList(items, l, id)
    case None => Rejected(ListItemNotFound)
    case Some(k) =>
      match PositionAfter(OrderedItems(items, l), after)
      case NoSuchItem => Rejected(ListItemNotFound)
      case NoRoom => Rejected(Refused)
      case At(key) => Written(items[k := items[k].(position := key)])
  }

  function RemoveRow(items: seq<ListItem>, l: ListId, id: ItemId): Edited {
    match ItemOnList(items, l, id)
    case None => Rejected(ListItemNotFound)
    case Some(k) => Written(items[..k] + items[k + 1..])
  }

  function Finish(db: Db, e: Edited): Outcome {
    match e
    case Rejected(error) => Raised(error)
    case Written(items) => Committed(db.(items := items))
  }

  /** The gate every edit passes first: the list exists, is visible and is the caller's. */
  function Gate(db: Db, me: UserId, l: ListId): Option<Error>
    requires me in db.users
  {
    match ListGuard(db, me, SelectList(db, Some(me), l))
    case NotFound => Some(ListNotFound)
    case NotOwner => Some(NotListOwner)
    case Allowed => None
  }

  /** Whoever passes the gate also meets the policies on the list's items: `list_items_select`
      asks that the list be visible, the other three that the caller own it or be an admin. */
  lemma GateMeetsItemPolicies(db: Db, me: UserId, l: ListId)
    requires me in db.users
    ensures Gate(db, me, l).None? <==> l in db.lists && IsOwnerOrAdminOfList(db, Some(me), l).True?
    ensures Gate(db, me, l).None? ==> CanViewList(db, Some(me), l).True?
  {
  }

  function AddItem(db: Db, me: UserId, l: ListId, v: VenueId, after: Option<ItemId>, id: ItemId): Outcome
    requires me in db.users
  {
    var gate := Gate(db, me, l);
    if gate.Some? then Raised(gate.value)
    else if SelectVenue(db, Some(me), v).None? then Raised(VenueNotFound)
    else Finish(db, AddRow(db.items, l, v, after, id))
  }

  function MoveItem(db: Db, me: UserId, l: ListId, id: ItemId, after: Option<ItemId>): Outcome
    requires me in db.users
  {
    var gate := Gate(db, me, l);
    if gate.Some? then Raised(gate.value) else Finish(db, MoveRow(db.items, l, id, after))
  }

  function RemoveItem(db: Db, me: UserId, l: ListId, id: ItemId): Outcome
    requires me in db.users
  {
    var gate := Gate(db, me, l);
    if gate.Some? then Raised(gate.value) else Finish(db, RemoveRow(db.items, l, id))
  }

  // --- the sequence model ------------------------------------------------------

  datatype Entry = Entry(id: ItemId, venue: VenueId)

  function Entries(s: seq<ListItem>): (es: seq<Entry>)
    ensures |es| == |s| && forall k | 0 <= k < |s| :: es[k] == Entry(s[k].id, s[k].venue)
  {
    seq(|s|, k requires 0 <= k < |s| => Entry(s[k].id, s[k].venue))
  }

  /** A list as its reader sees it: its items in order. */
  function Contents(items: seq<ListItem>, l: ListId): seq<Entry> {
    Entries(OrderedItems(items, l))
  }

  predicate Has(es: seq<Entry>, id: ItemId) {
    exists e <- es :: e.id == id
  }

  function Without(es: seq<Entry>, id: ItemId): seq<Entry> {
    if es == [] then [] else (if es[0].id == id then [] else [es[0]]) + Without(es[1..], id)
  }

  function InsertedAfter(es: seq<Entry>, e: Entry, a: ItemId): seq<Entry> {
    if es == [] then []
    else if es[0].id == a then [es[0], e] + es[1..]
    else [es[0]] + InsertedAfter(es[1..], e, a)
  }

  /** Taking an item out and putting it back right after `after`, or at the start; after itself, nothing moves. */
  function Moved(es: seq<Entry>, e: Entry, after: Option<ItemId>): seq<Entry> {
    match after
    case None => [e] + Without(es, e.id)
    case Some(a) => if a == e.id then es else InsertedAfter(Without(es, e.id), e, a)
  }

  ghost predicate Distinct(es: seq<Entry>) {
    forall i, j | 0 <= i < j < |es| :: es[i].id != es[j].id
  }

  lemma {:induction false} WithoutAbsent(es: seq<Entry>, id: ItemId)
    requires !Has(es, id)
    ensures Without(es, id) == es
  {
    if es != [] {
      assert forall e <- es[1..] :: e in es;
      WithoutAbsent(es[1..], id);
    }
  }

  lemma {:induction false} WithoutAt(es: seq<Entry>, k: nat)
    requires k < |es| && Distinct(es)
    ensures Without(es, es[k].id) == es[..k] + es[k + 1..]
  {
    if k > 0 {
      WithoutAt(es[1..], k - 1);
      assert es[..k] + es[k + 1..] == [es[0]] + (es[1..][..k - 1] + es[1..][k..]);
    } else {
      WithoutAbsent(es[1..], es[0].id);
    }
  }

  lemma {:induction false} InsertedAfterAt(es: seq<Entry>, e: Entry, k: nat)
    requires k < |es| && Distinct(es)
    ensures InsertedAfter(es, e, es[k].id) == es[..k + 1] + [e] + es[k + 1..]
  {
    if k > 0 {
      InsertedAfterAt(es[1..], e, k - 1);
      assert es[..k + 1] + [e] + es[k + 1..] == [es[0]] + (es[1..][..k] + [e] + es[1..][k..]);
    }
  }

  // --- keeping the rows in order -----------------------------------------------

  lemma OrderedIsDistinct(items: seq<ListItem>, l: ListId)
    requires DistinctRows(items)
    ensures Increasing(OrderedItems(items, l)) && Distinct(Contents(items, l))
  {
    var s := OrderedItems(items, l);
    OrderedIsIncreasing(items, l);
    forall i, j | 0 <= i < j < |s| ensures s[i].id != s[j].id {
      LessIrreflexive(s[i].position);
      assert s[i] in s && s[j] in s;
      OrderedMembers(items, l, s[i]);
      OrderedMembers(items, l, s[j]);
    }
  }

  /** The row's position falls between its neighbours in gap `k`. */
  ghost predicate InGap(s: seq<ListItem>, k: nat, row: ListItem) {
    && k <= |s|
    && (k > 0 ==> Less(s[k - 1].position, row.position))
    && (k < |s| ==> Less(row.position, s[k].position))
  }

  lemma InsertKeepsOrder(s: seq<ListItem>, k: nat, row: ListItem)
    requires Increasing(s) && InGap(s, k, row)
    ensures Increasing(s[..k] + [row] + s[k..])
    ensures forall i <- s :: i.position != row.position
  {
    forall j | 0 <= j < k ensures Less(s[j].position, row.position) {
      if j < k - 1 { LessTransitive(s[j].position, s[k - 1].position, row.position); }
    }
    forall j | k <= j < |s| ensures Less(row.position, s[j].position) {
      if j > k { LessTransitive(row.position, s[k].position, s[j].position); }
    }
    LessIrreflexive(row.position);
  }

  /** In an ordered list every gap has a key: `generate_key_between` never raises. */
  lemma EveryGapHasRoom(items: seq<ListItem>, l: ListId, k: nat)
    requires DistinctRows(items) && k <= |OrderedItems(items, l)|
    ensures KeyAt(OrderedItems(items, l), k).At?
  {
    OrderedIsIncreasing(items, l);
  }

  lemma AppendKeepsDistinct(items: seq<ListItem>, row: ListItem)
    requires DistinctRows(items)
    requires forall i <- items :: i.id != row.id
    requires forall i <- items | i.list == row.list :: i.position != row.position && i.venue != row.venue
    ensures DistinctRows(items + [row])
  {
  }

  /** Writing one new row into gap `k` of its list. */
  lemma InsertRow(items: seq<ListItem>, k: nat, row: ListItem)
    requires DistinctRows(items) && InGap(OrderedItems(items, row.list), k, row)
    requires IndexOf(items, row.id).None? && !VenueOnList(items, row.list, row.venue)
    ensures DistinctRows(items + [row])
    ensures var s := OrderedItems(items, row.list);
            OrderedItems(items + [row], row.list) == s[..k] + [row] + s[k..]
  {
    var s := OrderedItems(items, row.list);
    OrderedIsIncreasing(items, row.list);
    InsertKeepsOrder(s, k, row);
    AppendKeepsDistinct(items, row) by {
      forall i <- items | i.list == row.list ensures i.position != row.position {
        OrderedMembers(items, row.list, i);
      }
    }
    OrderedUnique(items + [row], row.list, s[..k] + [row] + s[k..]) by {
      forall x ensures x in s[..k] + [row] + s[k..] <==> x in items + [row] && x.list == row.list {
        PlacedMembers(s, k, row, x);
        OrderedMembers(items, row.list, x);
      }
    }
  }

  lemma PlacedMembers(s: seq<ListItem>, k: nat, row: ListItem, x: ListItem)
    requires k <= |s|
    ensures x in s[..k] + [row] + s[k..] <==> x == row || x in s
  {
  }

  /** Rows of one list do not disturb another. */
  lemma OtherListsUnmoved(items: seq<ListItem>, items': seq<ListItem>, m: ListId)
    requires DistinctRows(items) && DistinctRows(items')
    requires forall i: ListItem | i.list == m :: i in items <==> i in items'
    ensures OrderedItems(items', m) == OrderedItems(items, m)
  {
    OrderedIsIncreasing(items, m);
    forall i: ListItem { OrderedMembers(items, m, i); }
    OrderedUnique(items', m, OrderedItems(items, m));
  }

  /** Deleting the row at table index `k`. */
  lemma DeleteRow(items: seq<ListItem>, k: nat, i: nat)
    requires DistinctRows(items) && k < |items|
    requires i < |OrderedItems(items, items[k].list)| && OrderedItems(items, items[k].list)[i] == items[k]
    ensures var s := OrderedItems(items, items[k].list);
            && DistinctRows(items[..k] + items[k + 1..])
            && OrderedItems(items[..k] + items[k + 1..], items[k].list) == s[..i] + s[i + 1..]
  {
    var l, s, kept := items[k].list, OrderedItems(items, items[k].list), items[..k] + items[k + 1..];
    OrderedIsIncreasing(items, l);
    DeleteKeepsDistinct(items, k);
    RemoveKeepsOrder(s, i);
    OrderedUnique(kept, l, s[..i] + s[i + 1..]) by {
      forall x ensures x in s[..i] + s[i + 1..] <==> x in kept && x.list == l {
        KeptMembers(items, k, x);
        KeptRows(s, i, x);
        OrderedMembers(items, l, x);
      }
    }
  }

  lemma DeleteKeepsDistinct(items: seq<ListItem>, k: nat)
    requires DistinctRows(items) && k < |items|
    ensures DistinctRows(items[..k] + items[k + 1..])
  {
  }

  lemma RemoveKeepsOrder(s: seq<ListItem>, i: nat)
    requires Increasing(s) && i < |s|
    ensures Increasing(s[..i] + s[i + 1..])
  {
  }

  lemma KeptMembers(items: seq<ListItem>, k: nat, x: ListItem)
    requires DistinctRows(items) && k < |items|
    ensures x in items[..k] + items[k + 1..] <==> x in items && x != items[k]
  {
  }

  lemma KeptRows(s: seq<ListItem>, i: nat, x: ListItem)
    requires Increasing(s) && i < |s|
    ensures x in s[..i] + s[i + 1..] <==> x in s && x != s[i]
  {
    LessIrreflexive(s[i].position);
    if x in s && x != s[i] {
      var j :| 0 <= j < |s| && s[j] == x;
      assert x == if j < i then s[..i][j] else s[i + 1..][j - i - 1];
    }
  }

  /** Taking the row at `i` out of an ordered list leaves a key made for gap `k` in place. */
  lemma GapSurvivesRemoval(s: seq<ListItem>, k: nat, i: nat, row: ListItem)
    requires Increasing(s) && InGap(s, k, row) && i < |s|
    ensures InGap(s[..i] + s[i + 1..], if k <= i then k else k - 1, row)
  {
    if k == i && i + 1 < |s| { LessTransitive(row.position, s[i].position, s[i + 1].position); }
    if k == i + 1 && i > 0 { LessTransitive(s[i - 1].position, s[i].position, row.position); }
  }

  /** Rewriting only the position of the row at table index `k`, which sits at `i`, to a key for gap `g`. */
  lemma RepositionRow(items: seq<ListItem>, k: nat, i: nat, g: nat, key: Key)
    requires DistinctRows(items) && k < |items|
    requires i < |OrderedItems(items, items[k].list)| && OrderedItems(items, items[k].list)[i] == items[k]
    requires InGap(OrderedItems(items, items[k].list), g, items[k].(position := key))
    ensures var s := OrderedItems(items, items[k].list);
            var r := s[..i] + s[i + 1..];
            var g' := if g <= i then g else g - 1;
            && DistinctRows(items[k := items[k].(position := key)])
            && OrderedItems(items[k := items[k].(position := key)], items[k].list)
               == r[..g'] + [items[k].(position := key)] + r[g'..]
  {
    var l, row := items[k].list, items[k].(position := key);
    var s := OrderedItems(items, l);
    var r, g' := s[..i] + s[i + 1..], if g <= i then g else g - 1;
    OrderedIsIncreasing(items, l);
    RemoveKeepsOrder(s, i);
    GapSurvivesRemoval(s, g, i, row);
    InsertKeepsOrder(r, g', row);
    UpdateKeepsDistinct(items, k, row) by {
      InsertKeepsOrder(s, g, row);
      forall x <- items | x.list == l ensures x.position != key { OrderedMembers(items, l, x); }
    }
    OrderedUnique(items[k := row], l, r[..g'] + [row] + r[g'..]) by {
      forall x ensures x in r[..g'] + [row] + r[g'..] <==> x in items[k := row] && x.list == l {
        PlacedMembers(r, g', row, x);
        KeptRows(s, i, x);
        UpdatedMembers(items, k, row, x);
        KeptMembers(items, k, x);
        OrderedMembers(items, l, x);
      }
    }
  }

  lemma UpdatedMembers(items: seq<ListItem>, k: nat, row: ListItem, x: ListItem)
    requires k < |items|
    ensures x in items[k := row] <==> x in items[..k] + items[k + 1..] + [row]
  {
    assert items[k := row] == items[..k] + [row] + items[k + 1..];
  }

  lemma UpdateKeepsDistinct(items: seq<ListItem>, k: nat, row: ListItem)
    requires DistinctRows(items) && k < |items|
    requires row.id == items[k].id && row.list == items[k].list && row.venue == items[k].venue
    requires forall x <- items | x.list == row.list :: x.position != row.position
    ensures DistinctRows(items[k := row])
  {
  }
}
