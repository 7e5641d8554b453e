/** Check-in, list and list-item services statement by statement (`app/services/checkin.py`,
    `list.py`, `list_item.py`), each against the function that says what it does. */
module ContentServices {
  import opened Wrappers
  import opened Schema
  import opened Ordering
  import opened Policies
  import opened Authz
  import opened Content
  import opened ListItems
  import opened Venues
  import opened Sessions
  import opened Requests
  import opened Histories

  /** The exception a guard answers with, if any. */
  function Denied(guard: Guard, hidden: Error, foreign: Error): Option<Error> {
    match guard
    case NotFound => Some(hidden)
    case NotOwner => Some(foreign)
    case Allowed => None
  }

  // --- check-ins ---------------------------------------------------------------

  method EvaluateVenueVerification(session: Session, v: VenueId)
    modifies session`working
    ensures session.working == VerifyIfEligible(old(session.working), v, MIN_CHECKINS_FOR_AUTO_VERIFICATION)
  {
    session.VerifyVenue(v, MIN_CHECKINS_FOR_AUTO_VERIFICATION);
  }

  /** The verification comes after the commit, so it is pending when the call returns. */
  method AddCheckin(session: Session, id: CheckinId, row: Checkin) returns (reply: Reply)
    requires session.committed == session.working && !row.deleted
    modifies session
    ensures var out := CreateCheckin(old(session.working), session.me, id, row);
            && reply == (if out.Raised? then Raises(out.error) else Returned)
            && Views(session.committed, session.working)
               == CreateCheckinInSession(old(session.working), session.me, id, row)
  {
    if SelectVenue(session.working, session.me, row.venue).None? {
      return Raises(VenueNotFound);
    }
    if ContentWrite(session.working, session.me, row.owner).True? {
      OwnersSeeEveryTier(session.working, session.me, row.owner, row.visibility);
    }
    var ok := session.InsertCheckin(id, row);
    if !ok {
      return Raises(Refused);
    }
    session.Commit();
    if row.visibility.Public? {
      EvaluateVenueVerification(session, row.venue);
    }
    return Returned;
  }

  method ChangeCheckin(session: Session, me: UserId, c: CheckinId, shown: Option<Visibility>, text: Option<string>)
    returns (reply: Reply)
    requires session.me == Some(me) && me in session.working.users
    modifies session
    ensures Ends(old(session.committed), old(session.working), UpdateCheckin(old(session.working), me, c, shown, text),
                 session.committed, session.working, reply)
  {
    var found := SelectCheckin(session.working, session.me, c);
    var denied := Denied(CheckinGuard(session.working, me, found), CheckinNotFound, NotCheckinOwner);
    if denied.Some? {
      return Raises(denied.value);
    }
    var row := found.value;
    if shown.Some? {
      row := row.(visibility := shown.value);
    }
    if text.Some? {
      row := row.(content := text.value);
    }
    GuardMeetsContentPolicies(session.working, me, row.owner, found.value.visibility, row.visibility);
    var ok := session.UpdateCheckin(c, row);
    session.Commit();
    return Returned;
  }

  method RetireCheckin(session: Session, me: UserId, c: CheckinId) returns (reply: Reply)
    requires session.me == Some(me) && me in session.working.users
    modifies session
    ensures Ends(old(session.committed), old(session.working), SoftDeleteCheckin(old(session.working), me, c),
                 session.committed, session.working, reply)
  {
    var found := SelectCheckin(session.working, session.me, c);
    var denied := Denied(CheckinGuard(session.working, me, found), CheckinNotFound, NotCheckinOwner);
    if denied.Some? {
      return Raises(denied.value);
    }
    GuardMeetsContentPolicies(session.working, me, found.value.owner, found.value.visibility, found.value.visibility);
    var ok := session.UpdateCheckin(c, found.value.(deleted := true));
    session.Commit();
    return Returned;
  }

  method EraseCheckin(session: Session, me: UserId, c: CheckinId) returns (reply: Reply)
    requires session.me == Some(me) && me in session.working.users
    modifies session
    ensures Ends(old(session.committed), old(session.working), HardDeleteCheckin(old(session.working), me, c),
                 session.committed, session.working, reply)
  {
    if !session.working.users[me].role.Admin? {
      return Raises(AdminRequired);
    }
    if SelectCheckin(session.working, session.me, c).None? {
      return Raises(CheckinNotFound);
    }
    session.DeleteCheckin(c);
    session.Commit();
    return Returned;
  }

  // --- lists -------------------------------------------------------------------

  method AddList(session: Session, id: ListId, row: VenueList) returns (reply: Reply)
    modifies session
    ensures Ends(old(session.committed), old(session.working), CreateList(old(session.working), session.me, id, row),
                 session.committed, session.working, reply)
  {
    if ContentWrite(session.working, session.me, row.owner).True? {
      OwnersSeeEveryTier(session.working, session.me, row.owner, row.visibility);
    }
    var ok := session.InsertList(id, row);
    if !ok {
      return Raises(Refused);
    }
    session.Commit();
    return Returned;
  }

  method ChangeList(session: Session, me: UserId, l: ListId, shown: Option<Visibility>, text: Option<string>)
    returns (reply: Reply)
    requires session.me == Some(me) && me in session.working.users
    modifies session
    ensures Ends(old(session.committed), old(session.working), UpdateList(old(session.working), me, l, shown, text),
                 session.committed, session.working, reply)
  {
    var found := SelectList(session.working, session.me, l);
    var denied := Denied(ListGuard(session.working, me, found), ListNotFound, NotListOwner);
    if denied.Some? {
      return Raises(denied.value);
    }
    var row := found.value;
    if shown.Some? {
      row := row.(visibility := shown.value);
    }
    if text.Some? {
      row := row.(content := text.value);
    }
    GuardMeetsContentPolicies(session.working, me, row.owner, found.value.visibility, row.visibility);
    var ok := session.UpdateList(l, row);
    session.Commit();
    return Returned;
  }

  method EraseList(session: Session, me: UserId, l: ListId) returns (reply: Reply)
    requires session.me == Some(me) && me in session.working.users
    modifies session
    ensures Ends(old(session.committed), old(session.working), DeleteList(old(session.working), me, l),
                 session.committed, session.working, reply)
  {
    var found := SelectList(session.working, session.me, l);
    var denied := Denied(ListGuard(session.working, me, found), ListNotFound, NotListOwner);
    if denied.Some? {
      return Raises(denied.value);
    }
    GuardMeetsContentPolicies(session.working, me, found.value.owner, found.value.visibility, found.value.visibility);
    session.DeleteList(l);
    session.Commit();
    return Returned;
  }

  // --- list items --------------------------------------------------------------

  /** `_position_at_end` */
  method PositionAtEnd(items: seq<ListItem>) returns (p: Position)
    ensures p == KeyAt(items, |items|)
  {
    var last := if items != [] then Some(items[|items| - 1].position) else None;
    return GenerateKeyBetween(last, None);
  }

  function PositionError(p: Position): Error
    requires !p.At?
  {
    if p.NoSuchItem? then ListItemNotFound else Refused
  }

  method AddListItem(session: Session, me: UserId, l: ListId, v: VenueId, after: Option<ItemId>, id: ItemId)
    returns (reply: Reply)
    requires session.me == Some(me) && me in session.working.users
    modifies session
    ensures Ends(old(session.committed), old(session.working), AddItem(old(session.working), me, l, v, after, id),
                 session.committed, session.working, reply)
  {
    var db := session.working;
    var denied := Denied(ListGuard(db, me, SelectList(db, session.me, l)), ListNotFound, NotListOwner);
    if denied.Some? {
      return Raises(denied.value);
    }
    if SelectVenue(db, session.me, v).None? {
      return Raises(VenueNotFound);
    }
    if VenueOnList(db.items, l, v) {
      return Raises(DuplicateListItem);
    }
    var position: Position;
    if after.None? {
      position := PositionAtEnd(OrderedItems(db.items, l));
    } else {
      position := ScanPositionAfter(OrderedItems(db.items, l), after);
    }
    if !position.At? {
      return Raises(PositionError(position));
    }
    GateMeetsItemPolicies(db, me, l);
    var ok := session.InsertItem(ListItem(id, l, v, position.key));
    if !ok {
      return Raises(Refused);
    }
    session.Commit();
    return Returned;
  }

  method MoveListItem(session: Session, me: UserId, l: ListId, id: ItemId, after: Option<ItemId>) returns (reply: Reply)
    requires session.me == Some(me) && me in session.working.users
    modifies session
    ensures Ends(old(session.committed), old(session.working), MoveItem(old(session.working), me, l, id, after),
                 session.committed, session.working, reply)
  {
    var db := session.working;
    var denied := Denied(ListGuard(db, me, SelectList(db, session.me, l)), ListNotFound, NotListOwner);
    if denied.Some? {
      return Raises(denied.value);
    }
    var index := IndexOf(db.items, id);
    if index.None? || db.items[index.value].list != l {
      return Raises(ListItemNotFound);
    }
    var position := ScanPositionAfter(OrderedItems(db.items, l), after);
    if !position.At? {
      return Raises(PositionError(position));
    }
    var item := db.items[index.value];
    GateMeetsItemPolicies(db, me, l);
    session.RepositionItem(index.value, item.(position := position.key));
    session.Commit();
    return Returned;
  }

  method RemoveListItem(session: Session, me: UserId, l: ListId, id: ItemId) returns (reply: Reply)
    requires session.me == Some(me) && me in session.working.users
    modifies session
    ensures Ends(old(session.committed), old(session.working), RemoveItem(old(session.working), me, l, id),
                 session.committed, session.working, reply)
  {
    var db := session.working;
    var denied := Denied(ListGuard(db, me, SelectList(db, session.me, l)), ListNotFound, NotListOwner);
    if denied.Some? {
      return Raises(denied.value);
    }
    var index := IndexOf(db.items, id);
    if index.None? || db.items[index.value].list != l {
      return Raises(ListItemNotFound);
    }
    GateMeetsItemPolicies(db, me, l);
    session.DeleteItem(index.value);
    session.Commit();
    return Returned;
  }

  // --- dispatch ----------------------------------------------------------------

  method HandleCheckin(session: Session, me: UserId, call: CheckinCall) returns (reply: Reply)
    requires session.me == Some(me) && me in session.working.users && session.committed == session.working
    modifies session
    ensures var out := ServeCheckin(old(session.working), me, call);
            && session.committed == After(old(session.working), out)
            && reply == if out.Raised? then Raises(out.error) else Returned
  {
    match call {
      case NewCheckin(c, v, shown, text) => reply := AddCheckin(session, c, Checkin(me, v, shown, false, text));
      case EditCheckin(c, shown, text) => reply := ChangeCheckin(session, me, c, shown, text);
      case DropCheckin(c) => reply := RetireCheckin(session, me, c);
      case PurgeCheckin(c) => reply := EraseCheckin(session, me, c);
    }
  }

  method HandleList(session: Session, me: UserId, call: ListCall) returns (reply: Reply)
    requires session.me == Some(me) && me in session.working.users
    modifies session
    ensures Ends(old(session.committed), old(session.working), ServeList(old(session.working), me, call),
                 session.committed, session.working, reply)
  {
    match call {
      case NewList(l, shown, text) => reply := AddList(session, l, VenueList(me, shown, text));
      case EditList(l, shown, text) => reply := ChangeList(session, me, l, shown, text);
      case DropList(l) => reply := EraseList(session, me, l);
      case NewItem(l, v, after, i) => reply := AddListItem(session, me, l, v, after, i);
      case ShiftItem(l, i, after) => reply := MoveListItem(session, me, l, i, after);
      case DropItem(l, i) => reply := RemoveListItem(session, me, l, i);
    }
  }
}
