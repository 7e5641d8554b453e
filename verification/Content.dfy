/** Check-in and list services (`app/services/checkin.py`, `app/services/list.py`):
    what each call does to the database state it runs on. */
module Content {
  import opened Wrappers
  import opened Schema
  import opened Policies
  import opened Authz

  datatype Fetched<T> = Found(row: T) | Missing

  // --- rows as `session.get` returns them --------------------------------------

  function SelectCheckin(db: Db, me: Option<UserId>, c: CheckinId): Option<Checkin> {
    if c in db.checkins && CheckinsSelect(db, me, db.checkins[c]).True? then Some(db.checkins[c]) else None
  }

  function SelectList(db: Db, me: Option<UserId>, l: ListId): Option<VenueList> {
    if l in db.lists && ListsSelect(db, me, db.lists[l]).True? then Some(db.lists[l]) else None
  }

  function SelectVenue(db: Db, me: Option<UserId>, v: VenueId): Option<Venue> {
    if v in db.venues && VenuesSelect(db, me, db.venues[v]).True? then Some(db.venues[v]) else None
  }

  // --- cascades ----------------------------------------------------------------

  /** Deleting check-ins takes their likes and bookmarks along. */
  function WithoutCheckins(db: Db, gone: set<CheckinId>): Db {
    db.(checkins := db.checkins - gone,
        checkinLikes := (set p <- db.checkinLikes | p.1 !in gone),
        checkinBookmarks := (set p <- db.checkinBookmarks | p.1 !in gone))
  }

  function ItemsOutside(items: seq<ListItem>, gone: set<ListId>): seq<ListItem> {
    if items == [] then []
    else (if items[0].list in gone then [] else [items[0]]) + ItemsOutside(items[1..], gone)
  }

  /** Deleting lists takes their items, likes and bookmarks along. */
  function WithoutLists(db: Db, gone: set<ListId>): Db {
    db.(lists := db.lists - gone,
        items := ItemsOutside(db.items, gone),
        listLikes := (set p <- db.listLikes | p.1 !in gone),
        listBookmarks := (set p <- db.listBookmarks | p.1 !in gone))
  }

  // --- check-ins ---------------------------------------------------------------

  /** The insert `create_checkin` commits, before any verification is evaluated. */
  function CreateCheckin(db: Db, me: Option<UserId>, id: CheckinId, row: Checkin): Outcome {
    if SelectVenue(db, me, row.venue).None? then Raised(VenueNotFound)
    else if row.deleted || id in db.checkins || row.owner !in db.users || !ContentWrite(db, me, row.owner).True?
    then Raised(Refused)
    else Committed(db.(checkins := db.checkins[id := row]))
  }

  function GetCheckin(db: Db, me: Option<UserId>, c: CheckinId): Fetched<Checkin>
    requires KnownViewer(db, me)
  {
    var row := SelectCheckin(db, me, c);
    if row.None? || row.value.deleted then Missing
    else if !CanView(db, me, row.value.owner, row.value.visibility) then Missing
    else Found(row.value)
  }

  function CheckinGuard(db: Db, me: UserId, row: Option<Checkin>): Guard
    requires me in db.users
  {
    if row.None? || row.value.deleted then NotFound
    else EnsureVisibleAndOwned(db, me, row.value.owner, row.value.visibility)
  }

  function UpdateCheckin(db: Db, me: UserId, c: CheckinId, visibility: Option<Visibility>, content: Option<string>): Outcome
    requires me in db.users
  {
    var row := SelectCheckin(db, Some(me), c);
    match CheckinGuard(db, me, row)
    case NotFound => Raised(CheckinNotFound)
    case NotOwner => Raised(NotCheckinOwner)
    case Allowed =>
      var shown := if visibility.Some? then visibility.value else row.value.visibility;
      var text := if content.Some? then content.value else row.value.content;
      Committed(db.(checkins := db.checkins[c := row.value.(visibility := shown, content := text)]))
  }

  function SoftDeleteCheckin(db: Db, me: UserId, c: CheckinId): Outcome
    requires me in db.users
  {
    var row := SelectCheckin(db, Some(me), c);
    match CheckinGuard(db, me, row)
    case NotFound => Raised(CheckinNotFound)
    case NotOwner => Raised(NotCheckinOwner)
    case Allowed => Committed(db.(checkins := db.checkins[c := row.value.(deleted := true)]))
  }

  /** Behind `require_admin`. */
  function HardDeleteCheckin(db: Db, me: UserId, c: CheckinId): Outcome
    requires me in db.users
  {
    if !db.users[me].role.Admin? then Raised(AdminRequired)
    else if SelectCheckin(db, Some(me), c).None? then Raised(CheckinNotFound)
    else Committed(WithoutCheckins(db, {c}))
  }

  // --- lists -------------------------------------------------------------------

  function CreateList(db: Db, me: Option<UserId>, id: ListId, row: VenueList): Outcome {
    if id in db.lists || row.owner !in db.users || !ContentWrite(db, me, row.owner).True? then Raised(Refused)
    else Committed(db.(lists := db.lists[id := row]))
  }

  function GetList(db: Db, me: Option<UserId>, l: ListId): Fetched<VenueList>
    requires KnownViewer(db, me)
  {
    var row := SelectList(db, me, l);
    if row.None? || !CanView(db, me, row.value.owner, row.value.visibility) then Missing
    else Found(row.value)
  }

  function ListGuard(db: Db, me: UserId, row: Option<VenueList>): Guard
    requires me in db.users
  {
    if row.None? then NotFound
    else EnsureVisibleAndOwned(db, me, row.value.owner, row.value.visibility)
  }

  function UpdateList(db: Db, me: UserId, l: ListId, visibility: Option<Visibility>, content: Option<string>): Outcome
    requires me in db.users
  {
    var row := SelectList(db, Some(me), l);
    match ListGuard(db, me, row)
    case NotFound => Raised(ListNotFound)
    case NotOwner => Raised(NotListOwner)
    case Allowed =>
      var shown := if visibility.Some? then visibility.value else row.value.visibility;
      var text := if content.Some? then content.value else row.value.content;
      Committed(db.(lists := db.lists[l := row.value.(visibility := shown, content := text)]))
  }

  function DeleteList(db: Db, me: UserId, l: ListId): Outcome
    requires me in db.users
  {
    match ListGuard(db, me, SelectList(db, Some(me), l))
    case NotFound => Raised(ListNotFound)
    case NotOwner => Raised(NotListOwner)
    case Allowed => Committed(WithoutLists(db, {l}))
  }
}
