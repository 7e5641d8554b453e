/** Every run of add, move and remove on a list is the same run of edits on a plain
    sequence, and each step writes one row. */
module ListEditing {
  import opened Wrappers
  import opened Schema
  import opened FractionalKeys
  import opened Ordering
  import opened Content
  import opened ListItems
  import opened Requests

  datatype Edit =
    | Add(venue: VenueId, after: Option<ItemId>, id: ItemId)
    | Move(id: ItemId, after: Option<ItemId>)
    | Remove(id: ItemId)

  function ApplyEdit(db: Db, me: UserId, l: ListId, e: Edit): Outcome
    requires me in db.users
  {
    match e
    case Add(v, after, id) => AddItem(db, me, l, v, after, id)
    case Move(id, after) => MoveItem(db, me, l, id, after)
    case Remove(id) => RemoveItem(db, me, l, id)
  }

  /** The item calls a signed-in caller can make. */
  function CallFor(l: ListId, e: Edit): ListCall {
    match e
    case Add(v, after, id) => NewItem(l, v, after, id)
    case Move(id, after) => ShiftItem(l, id, after)
    case Remove(id) => DropItem(l, id)
  }

  /** They are the edits this module is about. */
  lemma ItemCallsAreEdits(db: Db, me: UserId, l: ListId, e: Edit)
    requires me in db.users
    ensures ServeList(db, me, CallFor(l, e)) == ApplyEdit(db, me, l, e)
  {
  }

  function Find(es: seq<Entry>, id: ItemId): (e: Entry)
    requires Has(es, id)
    ensures e in es && e.id == id
  {
    if es[0].id == id then es[0] else Find(es[1..], id)
  }

  /** The item to follow, if any, is on the list. */
  predicate Reaches(es: seq<Entry>, after: Option<ItemId>) {
    after.Some? ==> Has(es, after.value)
  }

  /** Why an edit is refused, read off the sequence. `open` are the venues the caller can
      see and `elsewhere` the item ids other lists hold. */
  function ModelError(es: seq<Entry>, e: Edit, open: set<VenueId>, elsewhere: set<ItemId>): Option<Error> {
    match e
    case Add(v, after, id) =>
      if v !in open then Some(VenueNotFound)
      else if exists x <- es :: x.venue == v then Some(DuplicateListItem)
      else if !Reaches(es, after) then Some(ListItemNotFound)
      else if Has(es, id) || id in elsewhere then Some(Refused)
      else None
    case Move(id, after) => if !Has(es, id) || !Reaches(es, after) then Some(ListItemNotFound) else None
    case Remove(id) => if !Has(es, id) then Some(ListItemNotFound) else None
  }

  /** The sequence edit; a refused one changes nothing. */
  function ModelEdit(es: seq<Entry>, e: Edit, open: set<VenueId>, elsewhere: set<ItemId>): seq<Entry> {
    if ModelError(es, e, open, elsewhere).Some? then es
    else match e
      case Add(v, after, id) =>
        if after.None? then es + [Entry(id, v)] else InsertedAfter(es, Entry(id, v), after.value)
      case Move(id, after) => Moved(es, Find(es, id), after)
      case Remove(id) => Without(es, id)
  }

  function VisibleVenues(db: Db, me: UserId): set<VenueId> {
    set v <- db.venues | SelectVenue(db, Some(me), v).Some?
  }

  function IdsElsewhere(items: seq<ListItem>, l: ListId): set<ItemId> {
    set i <- items | i.list != l :: i.id
  }

  function ItemsAfter(items: seq<ListItem>, e: Edited): seq<ListItem> {
    if e.Written? then e.items else items
  }

  // --- reading the model off the table ------------------------------------------

  lemma HasIsMembership(items: seq<ListItem>, l: ListId, id: ItemId)
    ensures Has(Contents(items, l), id) <==> exists i <- items :: i.list == l && i.id == id
  {
    var s, es := OrderedItems(items, l), Contents(items, l);
    if Has(es, id) {
      var k :| 0 <= k < |es| && es[k].id == id;
      assert s[k] in s;
      OrderedMembers(items, l, s[k]);
    }
    if i :| i in items && i.list == l && i.id == id {
      OrderedMembers(items, l, i);
      var k :| 0 <= k < |s| && s[k] == i;
      assert es[k] in es;
    }
  }

  lemma HasIsIndexed(items: seq<ListItem>, l: ListId, id: ItemId)
    ensures Has(Contents(items, l), id) <==> IndexOf(OrderedItems(items, l), id).Some?
  {
  }

  lemma HasIsOnList(items: seq<ListItem>, l: ListId, id: ItemId)
    requires DistinctRows(items)
    ensures Has(Contents(items, l), id) <==> ItemOnList(items, l, id).Some?
  {
    HasIsMembership(items, l, id);
    var k := IndexOf(items, id);
    if k.Some? { assert items[k.value] in items; }
  }

  lemma VenueOnListIsInContents(items: seq<ListItem>, l: ListId, v: VenueId)
    ensures VenueOnList(items, l, v) <==> exists e <- Contents(items, l) :: e.venue == v
  {
    var s, es := OrderedItems(items, l), Contents(items, l);
    if i :| i in items && i.list == l && i.venue == v {
      OrderedMembers(items, l, i);
      var k :| 0 <= k < |s| && s[k] == i;
      assert es[k] in es;
    }
    if e :| e in es && e.venue == v {
      var k :| 0 <= k < |es| && es[k] == e;
      assert s[k] in s;
      OrderedMembers(items, l, s[k]);
    }
  }

  /** Row `items[k]` sits somewhere in its list's order. */
  lemma RowSitsInOrder(items: seq<ListItem>, k: nat) returns (i: nat)
    requires k < |items|
    ensures i < |OrderedItems(items, items[k].list)| && OrderedItems(items, items[k].list)[i] == items[k]
  {
    OrderedMembers(items, items[k].list, items[k]);
    i :| 0 <= i < |OrderedItems(items, items[k].list)| && OrderedItems(items, items[k].list)[i] == items[k];
  }

  lemma {:induction false} FindAt(es: seq<Entry>, k: nat)
    requires k < |es| && Distinct(es)
    ensures Has(es, es[k].id) && Find(es, es[k].id) == es[k]
  {
  }

  // --- the sequence model in terms of indices --------------------------------------

  lemma EntriesSplice(s: seq<ListItem>, k: nat, row: ListItem)
    requires k <= |s|
    ensures Entries(s[..k] + [row] + s[k..]) == Entries(s)[..k] + [Entry(row.id, row.venue)] + Entries(s)[k..]
  {
  }

  lemma EntriesCut(s: seq<ListItem>, i: nat)
    requires i < |s|
    ensures Entries(s[..i] + s[i + 1..]) == Entries(s)[..i] + Entries(s)[i + 1..]
  {
  }

  lemma CutKeepsDistinct(es: seq<Entry>, i: nat)
    requires Distinct(es) && i < |es|
    ensures Distinct(es[..i] + es[i + 1..])
  {
  }

  /** Moving behind another item, which precedes gap `g`. */
  lemma MovedBehind(es: seq<Entry>, i: nat, g: nat)
    requires Distinct(es) && i < |es| && 0 < g <= |es| && g - 1 != i
    ensures var r := es[..i] + es[i + 1..];
            var g' := if g <= i then g else g - 1;
            Moved(es, es[i], Some(es[g - 1].id)) == r[..g'] + [es[i]] + r[g'..]
  {
    var r := es[..i] + es[i + 1..];
    var j := if g <= i then g - 1 else g - 2;
    WithoutAt(es, i);
    CutKeepsDistinct(es, i);
    assert r[j] == es[g - 1];
    InsertedAfterAt(r, es[i], j);
  }

  lemma BackWhereItWas(es: seq<Entry>, i: nat)
    requires i < |es|
    ensures var r := es[..i] + es[i + 1..];
            es == r[..i] + [es[i]] + r[i..]
  {
  }

  /** Gap `g` follows `after`: taking entry `i` out and putting it into that gap is the move. */
  lemma MovedAt(es: seq<Entry>, i: nat, after: Option<ItemId>, g: nat)
    requires Distinct(es) && i < |es| && g <= |es|
    requires if after.None? then g == 0 else g > 0 && es[g - 1].id == after.value
    ensures var r := es[..i] + es[i + 1..];
            var g' := if g <= i then g else g - 1;
            Moved(es, es[i], after) == r[..g'] + [es[i]] + r[g'..]
  {
    if after.None? {
      WithoutAt(es, i);
    } else if g - 1 == i {
      BackWhereItWas(es, i);
    } else {
      MovedBehind(es, i, g);
    }
  }

  // --- one step ------------------------------------------------------------------

  lemma AddIntoGap(items: seq<ListItem>, row: ListItem, g: nat)
    requires DistinctRows(items) && InGap(OrderedItems(items, row.list), g, row)
    requires IndexOf(items, row.id).None? && !VenueOnList(items, row.list, row.venue)
    ensures var es := Contents(items, row.list);
            && DistinctRows(items + [row])
            && g <= |es| && Contents(items + [row], row.list) == es[..g] + [Entry(row.id, row.venue)] + es[g..]
  {
    InsertRow(items, g, row);
    EntriesSplice(OrderedItems(items, row.list), g, row);
  }

  /** The end, or the gap behind the named item. */
  function GapForAdding(items: seq<ListItem>, l: ListId, after: Option<ItemId>): (g: Option<nat>)
    ensures g.Some? ==> g.value <= |OrderedItems(items, l)|
    ensures g.Some? && after.Some? ==> g.value > 0 && OrderedItems(items, l)[g.value - 1].id == after.value
  {
    if after.None? then Some(|OrderedItems(items, l)|) else GapAfter(OrderedItems(items, l), after)
  }

  function AddedRow(items: seq<ListItem>, l: ListId, v: VenueId, after: Option<ItemId>, id: ItemId): ListItem
    requires AddRow(items, l, v, after, id).Written?
  {
    AddRow(items, l, v, after, id).items[|items|]
  }

  lemma AddWritesOneRow(items: seq<ListItem>, l: ListId, v: VenueId, after: Option<ItemId>, id: ItemId)
    requires DistinctRows(items)
    ensures var e := AddRow(items, l, v, after, id);
            && (e.Written? <==> !VenueOnList(items, l, v) && IndexOf(items, id).None? && Reaches(Contents(items, l), after))
            && (e.Written? ==>
                  && e.items == items + [AddedRow(items, l, v, after, id)]
                  && AddedRow(items, l, v, after, id).(position := [1]) == ListItem(id, l, v, [1])
                  && GapForAdding(items, l, after).Some?
                  && InGap(OrderedItems(items, l), GapForAdding(items, l, after).value, AddedRow(items, l, v, after, id)))
  {
    if after.Some? { HasIsIndexed(items, l, after.value); }
    var g := GapForAdding(items, l, after);
    if g.Some? { EveryGapHasRoom(items, l, g.value); }
  }

  /** Adding writes one new row, at the end or right after the named item. */
  lemma AddIsInsertion(items: seq<ListItem>, l: ListId, v: VenueId, after: Option<ItemId>, id: ItemId)
    requires DistinctRows(items)
    ensures var e := AddRow(items, l, v, after, id);
            var es := Contents(items, l);
            && (e.Written? <==> !VenueOnList(items, l, v) && IndexOf(items, id).None? && Reaches(es, after))
            && (e.Written? ==>
                  && |e.items| == |items| + 1 && e.items[..|items|] == items && e.items[|items|].list == l
                  && DistinctRows(e.items)
                  && Contents(e.items, l)
                     == if after.None? then es + [Entry(id, v)] else InsertedAfter(es, Entry(id, v), after.value))
  {
    hide AddRow, AddedRow, GapForAdding, Contents, OrderedItems, InsertedAfter, Reaches, VenueOnList, IndexOf, DistinctRows, InGap;
    AddWritesOneRow(items, l, v, after, id);
    if AddRow(items, l, v, after, id).Written? {
      var g := GapForAdding(items, l, after).value;
      AddIntoGap(items, AddedRow(items, l, v, after, id), g);
      SplicedForAdding(items, l, after, Entry(id, v), g);
    }
  }

  /** What splicing into the gap for adding amounts to. */
  lemma SplicedForAdding(items: seq<ListItem>, l: ListId, after: Option<ItemId>, e: Entry, g: nat)
    requires DistinctRows(items) && GapForAdding(items, l, after) == Some(g)
    ensures var es := Contents(items, l);
            g <= |es| && es[..g] + [e] + es[g..] == if after.None? then es + [e] else InsertedAfter(es, e, after.value)
  {
    OrderedIsDistinct(items, l);
    if after.Some? { InsertedAfterAt(Contents(items, l), e, g - 1); }
  }

  /** Removing deletes that one row. */
  lemma RemoveIsRemoval(items: seq<ListItem>, l: ListId, id: ItemId)
    requires DistinctRows(items)
    ensures var e := RemoveRow(items, l, id);
            && (e.Written? <==> Has(Contents(items, l), id))
            && (e.Written? ==> |e.items| == |items| - 1)
            && DistinctRows(ItemsAfter(items, e))
            && Contents(ItemsAfter(items, e), l) == Without(Contents(items, l), id)
  {
    var s, es := OrderedItems(items, l), Contents(items, l);
    HasIsOnList(items, l, id);
    match ItemOnList(items, l, id)
    case None => WithoutAbsent(es, id);
    case Some(k) =>
      OrderedIsDistinct(items, l);
      var i := RowSitsInOrder(items, k);
      DeleteRow(items, k, i);
      WithoutAt(es, i);
      EntriesCut(s, i);
  }

  /** Moving rewrites one row's position: take it out, put it back right after `after`. */
  lemma MoveIsReinsertion(items: seq<ListItem>, l: ListId, id: ItemId, after: Option<ItemId>)
    requires DistinctRows(items)
    ensures var e := MoveRow(items, l, id, after);
            var es := Contents(items, l);
            && (e.Written? <==> Has(es, id) && Reaches(es, after))
            && (e.Written? ==>
                  && DistinctRows(e.items)
                  && Contents(e.items, l) == Moved(es, Find(es, id), after)
                  && (exists k, key :: 0 <= k < |items| && e.items == items[k := items[k].(position := key)]))
  {
    var s, es := OrderedItems(items, l), Contents(items, l);
    HasIsOnList(items, l, id);
    if after.Some? { HasIsIndexed(items, l, after.value); }
    var g := GapAfter(s, after);
    if g.Some? && ItemOnList(items, l, id).Some? {
      EveryGapHasRoom(items, l, g.value);
      MoveAcrossGap(items, ItemOnList(items, l, id).value, g.value, after, KeyAt(s, g.value).key);
    }
  }

  lemma RepositionedContents(items: seq<ListItem>, k: nat, i: nat, g: nat, key: Key)
    requires DistinctRows(items) && k < |items|
    requires i < |OrderedItems(items, items[k].list)| && OrderedItems(items, items[k].list)[i] == items[k]
    requires InGap(OrderedItems(items, items[k].list), g, items[k].(position := key))
    ensures DistinctRows(items[k := items[k].(position := key)])
    ensures var es := Contents(items, items[k].list);
            var r := es[..i] + es[i + 1..];
            var g' := if g <= i then g else g - 1;
            Contents(items[k := items[k].(position := key)], items[k].list) == r[..g'] + [es[i]] + r[g'..]
  {
    var s := OrderedItems(items, items[k].list);
    RepositionRow(items, k, i, g, key);
    EntriesCut(s, i);
    EntriesSplice(s[..i] + s[i + 1..], if g <= i then g else g - 1, items[k].(position := key));
  }

  lemma KeyFitsGap(s: seq<ListItem>, g: nat, row: ListItem, key: Key)
    requires g <= |s| && KeyAt(s, g) == At(key)
    ensures InGap(s, g, row.(position := key))
  {
    hide Less, Midpoint;
  }

  lemma GapFollows(items: seq<ListItem>, l: ListId, after: Option<ItemId>, g: nat)
    requires GapAfter(OrderedItems(items, l), after) == Some(g)
    ensures var es := Contents(items, l);
            g <= |es| && if after.None? then g == 0 else g > 0 && es[g - 1].id == after.value
  {
    hide OrderedItems;
  }

  lemma MoveAcrossGap(items: seq<ListItem>, k: nat, g: nat, after: Option<ItemId>, key: Key)
    requires DistinctRows(items) && k < |items|
    requires GapAfter(OrderedItems(items, items[k].list), after) == Some(g)
    requires KeyAt(OrderedItems(items, items[k].list), g) == At(key)
    ensures var l, es := items[k].list, Contents(items, items[k].list);
            && DistinctRows(items[k := items[k].(position := key)])
            && Has(es, items[k].id)
            && Contents(items[k := items[k].(position := key)], l) == Moved(es, Find(es, items[k].id), after)
  {
    var l := items[k].list;
    var es := Contents(items, l);
    KeyFitsGap(OrderedItems(items, l), g, items[k], key);
    GapFollows(items, l, after, g);
    hide OrderedItems, DistinctRows, InGap, Moved, Find, Has, KeyAt, GapAfter;
    OrderedIsDistinct(items, l);
    var i := RowSitsInOrder(items, k);
    FindAt(es, i);
    MovedAt(es, i, after, g);
    RepositionedContents(items, k, i, g, key);
  }

  // --- whole runs ----------------------------------------------------------------

  /** One caller's edit: the owner, an admin, or someone the service turns away. */
  datatype Turn = Turn(me: UserId, edit: Edit)

  function RunEdits(db: Db, l: ListId, turns: seq<Turn>): Db
    decreases |turns|
  {
    if turns == [] then db else RunEdits(AfterTurn(db, l, turns[0]), l, turns[1..])
  }

  function AfterTurn(db: Db, l: ListId, turn: Turn): Db {
    if turn.me in db.users then After(db, ApplyEdit(db, turn.me, l, turn.edit)) else db
  }

  predicate MayEdit(db: Db, me: UserId, l: ListId) {
    me in db.users && Gate(db, me, l).None?
  }

  /** Each turn in its own caller's eyes, which edits do not change: the accounts, lists,
      blocks and venues of `db` stand throughout. */
  function ModelRun(es: seq<Entry>, turns: seq<Turn>, db: Db, l: ListId): seq<Entry>
    decreases |turns|
  {
    if turns == [] then es else ModelRun(ModelTurn(es, turns[0], db, l), turns[1..], db, l)
  }

  function ModelTurn(es: seq<Entry>, turn: Turn, db: Db, l: ListId): seq<Entry> {
    if MayEdit(db, turn.me, l)
    then ModelEdit(es, turn.edit, VisibleVenues(db, turn.me), IdsElsewhere(db.items, l))
    else es
  }

  /** Rows of other lists come through an edit untouched. */
  lemma OtherRowsUntouched(db: Db, me: UserId, l: ListId, e: Edit, i: ListItem)
    requires me in db.users && DistinctRows(db.items) && i.list != l
    ensures i in After(db, ApplyEdit(db, me, l, e)).items <==> i in db.items
  {
    var next := After(db, ApplyEdit(db, me, l, e)).items;
    if e.Move? && ApplyEdit(db, me, l, e).Committed? {
      var k := ItemOnList(db.items, l, e.id).value;
      UpdatedMembers(db.items, k, next[k], i);
      KeptMembers(db.items, k, i);
    }
    if e.Remove? && ApplyEdit(db, me, l, e).Committed? {
      KeptMembers(db.items, ItemOnList(db.items, l, e.id).value, i);
    }
  }

  lemma AddRefines(db: Db, me: UserId, l: ListId, v: VenueId, after: Option<ItemId>, id: ItemId)
    requires me in db.users && DistinctRows(db.items) && Gate(db, me, l).None?
    ensures StepIsModelled(db, me, l, Add(v, after, id))
  {
    AddIsInsertion(db.items, l, v, after, id);
    VenueOnListIsInContents(db.items, l, v);
    TakenIsHereOrElsewhere(db.items, l, id);
    AddErrors(db.items, l, v, after, id);
    hide AddRow, Contents, Reaches, VenueOnList, Has, InsertedAfter, Gate;
  }

  lemma AddErrors(items: seq<ListItem>, l: ListId, v: VenueId, after: Option<ItemId>, id: ItemId)
    requires DistinctRows(items)
    ensures var e := AddRow(items, l, v, after, id);
            e.Rejected? ==>
              e.error == if VenueOnList(items, l, v) then DuplicateListItem
                         else if !Reaches(Contents(items, l), after) then ListItemNotFound else Refused
  {
    if after.Some? { HasIsIndexed(items, l, after.value); }
    var g := GapForAdding(items, l, after);
    if g.Some? { EveryGapHasRoom(items, l, g.value); }
  }

  lemma MoveErrors(items: seq<ListItem>, l: ListId, id: ItemId, after: Option<ItemId>)
    requires DistinctRows(items)
    ensures var e := MoveRow(items, l, id, after); e.Rejected? ==> e.error == ListItemNotFound
  {
    var g := GapAfter(OrderedItems(items, l), after);
    if g.Some? { EveryGapHasRoom(items, l, g.value); }
  }

  /** The call commits the sequence edit or raises its error, and writes items alone. */
  ghost predicate StepIsModelled(db: Db, me: UserId, l: ListId, e: Edit)
    requires me in db.users
  {
    var out, es := ApplyEdit(db, me, l, e), Contents(db.items, l);
    var next := After(db, out);
    && Failure(out) == ModelError(es, e, VisibleVenues(db, me), IdsElsewhere(db.items, l))
    && next == db.(items := next.items)
    && DistinctRows(next.items)
    && Contents(next.items, l) == ModelEdit(es, e, VisibleVenues(db, me), IdsElsewhere(db.items, l))
  }

  lemma StepRefines(db: Db, me: UserId, l: ListId, e: Edit)
    requires me in db.users && DistinctRows(db.items) && Gate(db, me, l).None?
    ensures StepIsModelled(db, me, l, e)
  {
    match e {
      case Add(v, after, id) => AddRefines(db, me, l, v, after, id);
      case Move(id, after) =>
        MoveIsReinsertion(db.items, l, id, after);
        MoveErrors(db.items, l, id, after);
        hide MoveRow, Contents, Reaches, Has, Moved, Gate;
      case Remove(id) => RemoveIsRemoval(db.items, l, id);
    }
  }

  lemma TakenIsHereOrElsewhere(items: seq<ListItem>, l: ListId, id: ItemId)
    ensures IndexOf(items, id).Some? <==> Has(Contents(items, l), id) || id in IdsElsewhere(items, l)
  {
    HasIsMembership(items, l, id);
    var k := IndexOf(items, id);
    if k.Some? { assert items[k.value] in items; }
  }

  /** One edit by someone who may change the list: the sequence edit or its very error; every
      other list reads as before. */
  lemma EditRefines(db: Db, me: UserId, l: ListId, e: Edit)
    requires me in db.users && DistinctRows(db.items) && Gate(db, me, l).None?
    ensures StepIsModelled(db, me, l, e)
    ensures var next := After(db, ApplyEdit(db, me, l, e));
            && IdsElsewhere(next.items, l) == IdsElsewhere(db.items, l)
            && (forall m | m != l :: OrderedItems(next.items, m) == OrderedItems(db.items, m))
  {
    var next := After(db, ApplyEdit(db, me, l, e));
    StepRefines(db, me, l, e);
    forall i: ListItem | i.list != l ensures i in next.items <==> i in db.items {
      OtherRowsUntouched(db, me, l, e, i);
    }
    forall m | m != l ensures OrderedItems(next.items, m) == OrderedItems(db.items, m) {
      OtherListsUnmoved(db.items, next.items, m);
    }
  }

  /** One turn leaves everything the model is judged by as it was, items aside. */
  lemma TurnRefines(db: Db, l: ListId, turn: Turn)
    requires DistinctRows(db.items)
    ensures var next := AfterTurn(db, l, turn);
            && next == db.(items := next.items)
            && DistinctRows(next.items)
            && Contents(next.items, l) == ModelTurn(Contents(db.items, l), turn, db, l)
            && IdsElsewhere(next.items, l) == IdsElsewhere(db.items, l)
            && (forall m | m != l :: OrderedItems(next.items, m) == OrderedItems(db.items, m))
  {
    if MayEdit(db, turn.me, l) { EditRefines(db, turn.me, l, turn.edit); }
  }

  lemma {:induction false} ModelIgnoresItems(es: seq<Entry>, turns: seq<Turn>, db: Db, next: Db, l: ListId)
    requires next == db.(items := next.items) && IdsElsewhere(next.items, l) == IdsElsewhere(db.items, l)
    ensures ModelRun(es, turns, next, l) == ModelRun(es, turns, db, l)
    decreases |turns|
  {
    if turns != [] {
      ModelIgnoresItemsInTurn(es, turns[0], db, next, l);
      ModelIgnoresItems(ModelTurn(es, turns[0], db, l), turns[1..], db, next, l);
    }
  }

  lemma ModelIgnoresItemsInTurn(es: seq<Entry>, turn: Turn, db: Db, next: Db, l: ListId)
    requires next == db.(items := next.items) && IdsElsewhere(next.items, l) == IdsElsewhere(db.items, l)
    ensures ModelTurn(es, turn, next, l) == ModelTurn(es, turn, db, l)
  {
    assert VisibleVenues(next, turn.me) == VisibleVenues(db, turn.me);
  }

  /** The list, read by position after any run of edits by any callers, is the sequence model
      after the same run; positions, ids and venues stay distinct and every other list reads
      as before. */
  lemma {:induction false} RunRefines(db: Db, l: ListId, turns: seq<Turn>)
    requires DistinctRows(db.items)
    ensures var last := RunEdits(db, l, turns);
            && DistinctRows(last.items)
            && Contents(last.items, l) == ModelRun(Contents(db.items, l), turns, db, l)
            && (forall m | m != l :: OrderedItems(last.items, m) == OrderedItems(db.items, m))
    decreases |turns|
  {
    if turns != [] {
      var next := AfterTurn(db, l, turns[0]);
      TurnRefines(db, l, turns[0]);
      RunRefines(next, l, turns[1..]);
      ModelIgnoresItems(Contents(next.items, l), turns[1..], db, next, l);
    }
  }
}
