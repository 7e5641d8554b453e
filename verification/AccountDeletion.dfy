/** Deleting an account removes exactly the rows the schema's cascading foreign keys
    reach from it, clears attributions, and changes nothing else. */
module AccountDeletion {
  import opened Wrappers
  import opened Schema
  import opened Accounts
  import opened Sessions
  import opened Invariants

  datatype Row =
    | UserRow(user: UserId)
    | FollowRow(follower: UserId, following: UserId)
    | CloseFriendRow(owner: UserId, friend: UserId)
    | BlockRow(blocker: UserId, blocked: UserId)
    | MuteRow(muter: UserId, muted: UserId)
    | CheckinRow(checkin: CheckinId)
    | ListRow(list: ListId)
    | ItemRow(item: ListItem)
    | CheckinLikeRow(user: UserId, checkin: CheckinId)
    | ListLikeRow(user: UserId, list: ListId)
    | CheckinBookmarkRow(user: UserId, checkin: CheckinId)
    | ListBookmarkRow(user: UserId, list: ListId)
    | NotificationRow(notification: NotificationId)
    | SaveRow(save: SaveId)
    | VenueRow(venue: VenueId)
    | ContentReportRow(report: ReportId)
    | VenueReportRow(report: ReportId)

  predicate Present(db: Db, r: Row) {
    match r
    case UserRow(u) => u in db.users
    case FollowRow(a, b) => (a, b) in db.follows
    case CloseFriendRow(o, f) => (o, f) in db.closeFriends
    case BlockRow(a, b) => (a, b) in db.blocks
    case MuteRow(a, b) => (a, b) in db.mutes
    case CheckinRow(c) => c in db.checkins
    case ListRow(l) => l in db.lists
    case ItemRow(i) => i in db.items
    case CheckinLikeRow(u, c) => (u, c) in db.checkinLikes
    case ListLikeRow(u, l) => (u, l) in db.listLikes
    case CheckinBookmarkRow(u, c) => (u, c) in db.checkinBookmarks
    case ListBookmarkRow(u, l) => (u, l) in db.listBookmarks
    case NotificationRow(n) => n in db.notifications
    case SaveRow(s) => s in db.saves
    case VenueRow(v) => v in db.venues
    case ContentReportRow(r) => r in db.contentReports
    case VenueReportRow(r) => r in db.venueReports
  }

  /** `child` holds an `ON DELETE CASCADE` foreign key to `parent`. */
  predicate CascadesFrom(db: Db, child: Row, parent: Row)
    requires Present(db, child)
  {
    match child
    case UserRow(_) => false
    case FollowRow(a, b) => parent == UserRow(a) || parent == UserRow(b)
    case CloseFriendRow(o, f) => parent == FollowRow(f, o)
    case BlockRow(a, b) => parent == UserRow(a) || parent == UserRow(b)
    case MuteRow(a, b) => parent == UserRow(a) || parent == UserRow(b)
    case CheckinRow(c) => parent == UserRow(db.checkins[c].owner)
    case ListRow(l) => parent == UserRow(db.lists[l].owner)
    case ItemRow(i) => parent == ListRow(i.list)
    case CheckinLikeRow(u, c) => parent == UserRow(u) || parent == CheckinRow(c)
    case ListLikeRow(u, l) => parent == UserRow(u) || parent == ListRow(l)
    case CheckinBookmarkRow(u, c) => parent == UserRow(u) || parent == CheckinRow(c)
    case ListBookmarkRow(u, l) => parent == UserRow(u) || parent == ListRow(l)
    case NotificationRow(n) =>
      || parent == UserRow(db.notifications[n].recipient)
      || (db.notifications[n].actor.Some? && parent == UserRow(db.notifications[n].actor.value))
    case SaveRow(s) => parent == UserRow(db.saves[s].owner)
    case VenueRow(_) => false
    case ContentReportRow(_) => false
    case VenueReportRow(_) => false
  }

  ghost predicate ClosedUnderCascade(db: Db, rows: iset<Row>) {
    forall child, parent | Present(db, child) && parent in rows && CascadesFrom(db, child, parent) :: child in rows
  }

  predicate Gone(db: Db, u: UserId, r: Row) {
    Present(db, r) && !Present(PurgeUser(db, u), r)
  }

  /** Row by row, what hangs off the account. */
  predicate Doomed(db: Db, u: UserId, r: Row)
    requires Present(db, r)
  {
    match r
    case UserRow(v) => v == u
    case FollowRow(a, b) => a == u || b == u
    case CloseFriendRow(o, f) => o == u || f == u
    case BlockRow(a, b) => a == u || b == u
    case MuteRow(a, b) => a == u || b == u
    case CheckinRow(c) => c in OwnedBy(db, u)
    case ListRow(l) => l in ListsOwnedBy(db, u)
    case ItemRow(i) => i.list in ListsOwnedBy(db, u)
    case CheckinLikeRow(v, c) => v == u || c in OwnedBy(db, u)
    case ListLikeRow(v, l) => v == u || l in ListsOwnedBy(db, u)
    case CheckinBookmarkRow(v, c) => v == u || c in OwnedBy(db, u)
    case ListBookmarkRow(v, l) => v == u || l in ListsOwnedBy(db, u)
    case NotificationRow(n) => db.notifications[n].recipient == u || db.notifications[n].actor == Some(u)
    case SaveRow(s) => db.saves[s].owner == u
    case VenueRow(_) => false
    case ContentReportRow(_) => false
    case VenueReportRow(_) => false
  }

  lemma SurvivorsAreTheRest(db: Db, u: UserId, r: Row)
    requires ForeignKeys(db)
    ensures Present(PurgeUser(db, u), r) <==> Present(db, r) && !Doomed(db, u, r)
  {
    if r.ItemRow? { OutsideMembers(db.items, ListsOwnedBy(db, u), r.item); }
  }

  lemma GoneAreTheDoomed(db: Db, u: UserId, r: Row)
    requires ForeignKeys(db)
    ensures Gone(db, u, r) <==> Present(db, r) && Doomed(db, u, r)
  {
    SurvivorsAreTheRest(db, u, r);
  }

  /** `delete_account` is that purge: the policies admit every account's delete of itself. */
  lemma DeletionIsThePurge(db: Db, me: UserId)
    requires Invariant(db) && me in db.users
    ensures DeleteAccount(db, Some(me), me) == Committed(PurgeUser(db, me))
  {
    OwnRowIsWritable(db, me);
  }

  /** The removed rows contain the account and are closed under the cascading keys. */
  lemma DeletionIsClosed(db: Db, u: UserId, child: Row, parent: Row)
    requires ForeignKeys(db) && u in db.users
    ensures Gone(db, u, UserRow(u))
    ensures Present(db, child) && Gone(db, u, parent) && CascadesFrom(db, child, parent) ==> Gone(db, u, child)
  {
    GoneAreTheDoomed(db, u, UserRow(u));
    GoneAreTheDoomed(db, u, child);
    GoneAreTheDoomed(db, u, parent);
    if Present(db, child) && Present(db, parent) && Doomed(db, u, parent) && CascadesFrom(db, child, parent) {
      DoomSpreads(db, u, child, parent);
    }
  }

  lemma DoomSpreads(db: Db, u: UserId, child: Row, parent: Row)
    requires Present(db, child) && Present(db, parent)
    requires Doomed(db, u, parent) && CascadesFrom(db, child, parent)
    ensures Doomed(db, u, child)
  {
  }

  /** They are the least such set: every closed set holding the account holds each of them. */
  lemma DeletionIsLeast(db: Db, u: UserId, rows: iset<Row>, r: Row)
    requires ForeignKeys(db) && UserRow(u) in rows && ClosedUnderCascade(db, rows)
    requires Gone(db, u, r)
    ensures r in rows
    decreases r != UserRow(u), !Direct(db, u, r)
  {
    SurvivorsAreTheRest(db, u, r);
    if r != UserRow(u) {
      var parent := TowardsAccount(db, u, r);
      StepTowardsAccount(db, u, r);
      SurvivorsAreTheRest(db, u, parent);
      DeletionIsLeast(db, u, rows, parent);
      assert CascadesFrom(db, r, parent);
    }
  }

  /** The row a doomed row falls with, one cascade closer to the account. */
  function TowardsAccount(db: Db, u: UserId, r: Row): Row {
    match r
    case CloseFriendRow(o, f) => FollowRow(f, o)
    case ItemRow(i) => ListRow(i.list)
    case CheckinLikeRow(v, c) => if v == u then UserRow(u) else CheckinRow(c)
    case ListLikeRow(v, l) => if v == u then UserRow(u) else ListRow(l)
    case CheckinBookmarkRow(v, c) => if v == u then UserRow(u) else CheckinRow(c)
    case ListBookmarkRow(v, l) => if v == u then UserRow(u) else ListRow(l)
    case _ => UserRow(u)
  }

  predicate Direct(db: Db, u: UserId, r: Row) {
    TowardsAccount(db, u, r) == UserRow(u)
  }

  lemma StepTowardsAccount(db: Db, u: UserId, r: Row)
    requires ForeignKeys(db) && u in db.users && Present(db, r) && Doomed(db, u, r) && r != UserRow(u)
    ensures var parent := TowardsAccount(db, u, r);
            Present(db, parent) && Doomed(db, u, parent) && CascadesFrom(db, r, parent)
            && (parent == UserRow(u) || Direct(db, u, parent))
  {
  }

  /** Nothing appears, and a row that stays keeps every column but a cleared attribution. */
  lemma SurvivorsUnchanged(db: Db, u: UserId, r: Row)
    requires ForeignKeys(db)
    ensures var d := PurgeUser(db, u);
            && (Present(d, r) ==> Present(db, r))
            && (forall v <- d.users :: d.users[v] == db.users[v])
            && (forall c <- d.checkins :: d.checkins[c] == db.checkins[c])
            && (forall l <- d.lists :: d.lists[l] == db.lists[l])
            && (forall n <- d.notifications :: d.notifications[n] == db.notifications[n])
            && (forall s <- d.saves :: d.saves[s] == db.saves[s])
            && d.categories == db.categories
  {
    SurvivorsAreTheRest(db, u, r);
  }

  /** Venues and reports outlive the account; only an attribution to it is cleared. */
  lemma AttributionsCleared(db: Db, u: UserId)
    ensures var d := PurgeUser(db, u);
            && d.venues.Keys == db.venues.Keys
            && (forall v <- db.venues ::
                  d.venues[v] == if db.venues[v].addedBy == Some(u) then db.venues[v].(addedBy := None) else db.venues[v])
            && d.contentReports.Keys == db.contentReports.Keys
            && (forall r <- db.contentReports ::
                  && d.contentReports[r].target == db.contentReports[r].target
                  && d.contentReports[r].reporter == Cleared(db.contentReports[r].reporter, u)
                  && d.contentReports[r].resolvedBy == Cleared(db.contentReports[r].resolvedBy, u))
            && d.venueReports.Keys == db.venueReports.Keys
            && (forall r <- db.venueReports ::
                  && d.venueReports[r].venue == db.venueReports[r].venue
                  && d.venueReports[r].reporter == Cleared(db.venueReports[r].reporter, u)
                  && d.venueReports[r].resolvedBy == Cleared(db.venueReports[r].resolvedBy, u))
  {
  }
}
