/** What each check-in and list call answers and what it leaves behind, in terms a caller can
    check beforehand. */
module ContentRules {
  import opened Wrappers
  import opened Filtering
  import opened Schema
  import opened Authz
  import opened Content
  import opened Listings
  import opened ListItems
  import opened Requests
  import opened SocialRules

  predicate MayChange(db: Db, me: UserId, owner: UserId)
    requires me in db.users
  {
    me == owner || db.users[me].role == Admin
  }

  function Or<T>(choice: Option<T>, default: T): T {
    if choice.Some? then choice.value else default
  }

  // --- check-ins -----------------------------------------------------------------

  /** The venue is there for this caller: suspension hides it from all but admins. */
  predicate VenueOpen(db: Db, me: UserId, v: VenueId)
    requires me in db.users
  {
    v in db.venues && (!db.venues[v].suspended || db.users[me].role == Admin)
  }

  /** Checking in adds one row, the caller's own, with the tier and text asked for. */
  lemma NewCheckinExactly(db: Db, me: UserId, c: CheckinId, v: VenueId, shown: Visibility, text: string)
    requires me in db.users
    ensures ServeCheckin(db, me, NewCheckin(c, v, shown, text)) ==
            if !VenueOpen(db, me, v) then Raised(VenueNotFound)
            else if c in db.checkins then Raised(Refused)
            else Committed(db.(checkins := db.checkins[c := Checkin(me, v, shown, false, text)]))
  {
  }

  /** Editing writes exactly the fields named, keeps the others with owner, venue and
      standing, and touches no other row. Not found is what cannot be seen, not owned what
      can be seen and not changed. */
  lemma EditCheckinExactly(db: Db, me: UserId, c: CheckinId, shown: Option<Visibility>, text: Option<string>)
    requires me in db.users
    ensures ServeCheckin(db, me, CheckinCall.EditCheckin(c, shown, text)) ==
            if !Open(db, me, c) then Raised(CheckinNotFound)
            else
              var was := db.checkins[c];
              if !MayChange(db, me, was.owner) then Raised(NotCheckinOwner)
              else Committed(db.(checkins :=
                db.checkins[c := Checkin(was.owner, was.venue, Or(shown, was.visibility), false, Or(text, was.content))]))
  {
    if c in db.checkins { PythonAgreesWithSql(db, Some(me), db.checkins[c].owner, db.checkins[c].visibility); }
  }

  /** Deleting keeps the row and marks it. */
  lemma DropCheckinExactly(db: Db, me: UserId, c: CheckinId)
    requires me in db.users
    ensures ServeCheckin(db, me, CheckinCall.DropCheckin(c)) ==
            if !Open(db, me, c) then Raised(CheckinNotFound)
            else
              var was := db.checkins[c];
              if !MayChange(db, me, was.owner) then Raised(NotCheckinOwner)
              else Committed(db.(checkins :=
                db.checkins[c := Checkin(was.owner, was.venue, was.visibility, true, was.content)]))
  {
    if c in db.checkins { PythonAgreesWithSql(db, Some(me), db.checkins[c].owner, db.checkins[c].visibility); }
  }

  /** The check-in, its likes and its bookmarks are gone, and nothing else. */
  ghost predicate OnlyCheckinGone(before: Db, after: Db, c: CheckinId) {
    && after == before.(checkins := after.checkins, checkinLikes := after.checkinLikes,
                        checkinBookmarks := after.checkinBookmarks)
    && after.checkins == before.checkins - {c}
    && (forall p :: p in after.checkinLikes <==> p in before.checkinLikes && p.1 != c)
    && (forall p :: p in after.checkinBookmarks <==> p in before.checkinBookmarks && p.1 != c)
  }

  /** Only an admin removes a check-in for good, an already deleted one too. */
  lemma PurgeCheckinExactly(db: Db, me: UserId, c: CheckinId)
    requires me in db.users
    ensures var out := ServeCheckin(db, me, PurgeCheckin(c));
            if db.users[me].role == Member then out == Raised(AdminRequired)
            else if c !in db.checkins then out == Raised(CheckinNotFound)
            else out.Committed? && OnlyCheckinGone(db, out.db, c)
  {
    assert OnlyCheckinGone(db, WithoutCheckins(db, {c}), c);
  }

  /** A read answers with the row itself, to whoever may see it and as long as it is not deleted. */
  lemma ReadCheckinExactly(db: Db, me: Option<UserId>, c: CheckinId)
    requires KnownViewer(db, me)
    ensures GetCheckin(db, me, c) ==
            if c in db.checkins && !db.checkins[c].deleted
               && CanView(db, me, db.checkins[c].owner, db.checkins[c].visibility)
            then Found(db.checkins[c]) else Missing
  {
    if c in db.checkins { PythonAgreesWithSql(db, me, db.checkins[c].owner, db.checkins[c].visibility); }
  }

  /** Made private, a check-in is gone for every reader but its owner and admins, anonymous
      readers included, from the moment the call returns. */
  lemma MadePrivateIsHidden(db: Db, me: UserId, c: CheckinId, text: Option<string>, reader: Option<UserId>)
    requires me in db.users && KnownViewer(db, reader)
    requires ServeCheckin(db, me, CheckinCall.EditCheckin(c, Some(Private), text)).Committed?
    requires reader != Some(db.checkins[c].owner) && (reader.Some? ==> db.users[reader.value].role == Member)
    ensures var d := ServeCheckin(db, me, CheckinCall.EditCheckin(c, Some(Private), text)).db;
            GetCheckin(d, reader, c) == Missing && !CheckinShown(d, reader, c)
  {
    EditCheckinExactly(db, me, c, Some(Private), text);
    var d := ServeCheckin(db, me, CheckinCall.EditCheckin(c, Some(Private), text)).db;
    ReadCheckinExactly(d, reader, c);
    WhoCanView(d, reader, d.checkins[c].owner, Private);
  }

  /** Deleted, it is gone for every reader, its owner and admins among them. */
  lemma DroppedIsGone(db: Db, me: UserId, c: CheckinId, reader: Option<UserId>)
    requires me in db.users && KnownViewer(db, reader)
    requires ServeCheckin(db, me, CheckinCall.DropCheckin(c)).Committed?
    ensures var d := ServeCheckin(db, me, CheckinCall.DropCheckin(c)).db;
            c in d.checkins && GetCheckin(d, reader, c) == Missing && !CheckinShown(d, reader, c)
  {
    DropCheckinExactly(db, me, c);
    ReadCheckinExactly(ServeCheckin(db, me, CheckinCall.DropCheckin(c)).db, reader, c);
  }

  // --- lists ---------------------------------------------------------------------

  lemma NewListExactly(db: Db, me: UserId, l: ListId, shown: Visibility, text: string)
    requires me in db.users
    ensures ServeList(db, me, NewList(l, shown, text)) ==
            if l in db.lists then Raised(Refused)
            else Committed(db.(lists := db.lists[l := VenueList(me, shown, text)]))
  {
  }

  lemma EditListExactly(db: Db, me: UserId, l: ListId, shown: Option<Visibility>, text: Option<string>)
    requires me in db.users
    ensures ServeList(db, me, ListCall.EditList(l, shown, text)) ==
            if !ListOpen(db, me, l) then Raised(ListNotFound)
            else
              var was := db.lists[l];
              if !MayChange(db, me, was.owner) then Raised(NotListOwner)
              else Committed(db.(lists :=
                db.lists[l := VenueList(was.owner, Or(shown, was.visibility), Or(text, was.content))]))
  {
    if l in db.lists { PythonAgreesWithSql(db, Some(me), db.lists[l].owner, db.lists[l].visibility); }
  }

  lemma ReadListExactly(db: Db, me: Option<UserId>, l: ListId)
    requires KnownViewer(db, me)
    ensures GetList(db, me, l) ==
            if l in db.lists && CanView(db, me, db.lists[l].owner, db.lists[l].visibility)
            then Found(db.lists[l]) else Missing
  {
    if l in db.lists { PythonAgreesWithSql(db, me, db.lists[l].owner, db.lists[l].visibility); }
  }

  lemma ListMadePrivateIsHidden(db: Db, me: UserId, l: ListId, text: Option<string>, reader: Option<UserId>)
    requires me in db.users && KnownViewer(db, reader)
    requires ServeList(db, me, ListCall.EditList(l, Some(Private), text)).Committed?
    requires reader != Some(db.lists[l].owner) && (reader.Some? ==> db.users[reader.value].role == Member)
    ensures var d := ServeList(db, me, ListCall.EditList(l, Some(Private), text)).db;
            GetList(d, reader, l) == Missing && !ListShown(d, reader, l)
  {
    EditListExactly(db, me, l, Some(Private), text);
    var d := ServeList(db, me, ListCall.EditList(l, Some(Private), text)).db;
    ReadListExactly(d, reader, l);
    WhoCanView(d, reader, d.lists[l].owner, Private);
  }

  function OnOtherLists(l: ListId): ListItem -> bool {
    (i: ListItem) => i.list != l
  }

  lemma {:induction false} OutsideIsKept(items: seq<ListItem>, l: ListId)
    ensures ItemsOutside(items, {l}) == Kept(items, OnOtherLists(l))
  {
    if items != [] { OutsideIsKept(items[1..], l); }
  }

  /** The list's row, items, likes and bookmarks are gone; other lists' items stay, each once
      and in their order, and so does everything else. */
  ghost predicate OnlyListGone(before: Db, after: Db, l: ListId) {
    && after == before.(lists := after.lists, items := after.items, listLikes := after.listLikes,
                        listBookmarks := after.listBookmarks)
    && after.lists == before.lists - {l}
    && IsFiltered(before.items, OnOtherLists(l), after.items)
    && (forall p :: p in after.listLikes <==> p in before.listLikes && p.1 != l)
    && (forall p :: p in after.listBookmarks <==> p in before.listBookmarks && p.1 != l)
  }

  lemma ListCascade(db: Db, l: ListId)
    ensures OnlyListGone(db, WithoutLists(db, {l}), l)
  {
    OutsideIsKept(db.items, l);
    KeptIsFiltered(db.items, OnOtherLists(l));
  }

  lemma DropListExactly(db: Db, me: UserId, l: ListId)
    requires me in db.users
    ensures var out := ServeList(db, me, ListCall.DropList(l));
            if !ListOpen(db, me, l) then out == Raised(ListNotFound)
            else if !MayChange(db, me, db.lists[l].owner) then out == Raised(NotListOwner)
            else out.Committed? && OnlyListGone(db, out.db, l)
  {
    ListCascade(db, l);
    hide OnlyListGone, WithoutLists;
    if l in db.lists { PythonAgreesWithSql(db, Some(me), db.lists[l].owner, db.lists[l].visibility); }
  }

  // --- who may edit a list's items --------------------------------------------------

  /** The gate before every item call: not found is what cannot be seen, not owned what can be
      seen and not changed, and the call then answers so and does nothing. */
  lemma ItemGateExactly(db: Db, me: UserId, l: ListId)
    requires me in db.users
    ensures Gate(db, me, l) ==
            if !ListOpen(db, me, l) then Some(ListNotFound)
            else if !MayChange(db, me, db.lists[l].owner) then Some(NotListOwner)
            else None
  {
    if l in db.lists { PythonAgreesWithSql(db, Some(me), db.lists[l].owner, db.lists[l].visibility); }
  }

  lemma TurnedAwayFromItems(db: Db, me: UserId, l: ListId, v: VenueId, id: ItemId, after: Option<ItemId>)
    requires me in db.users && (!ListOpen(db, me, l) || !MayChange(db, me, db.lists[l].owner))
    ensures var answer := Raised(if ListOpen(db, me, l) then NotListOwner else ListNotFound);
            && ServeList(db, me, NewItem(l, v, after, id)) == answer
            && ServeList(db, me, ShiftItem(l, id, after)) == answer
            && ServeList(db, me, DropItem(l, id)) == answer
  {
    ItemGateExactly(db, me, l);
  }
}
