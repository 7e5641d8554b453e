/** The listing queries, run as the database runs them: the query's own conditions over
    the rows each table's select policy admits, subqueries included. None of them tests a
    block; the policies do. */
module Listings {
  import opened Wrappers
  import opened Filtering
  import opened Schema
  import opened Policies
  import opened Authz
  import opened Content

  // --- the subqueries ----------------------------------------------------------

  /** `account_is_visible`: the owner's row, as the caller sees it, is active. */
  predicate AccountIsVisible(db: Db, me: Option<UserId>, owner: UserId) {
    owner in db.users && UsersSelect(db, me, owner).True? && db.users[owner].status.Active?
  }

  /** The tiers a signed-in non-admin's query asks for, `owned` being its own-rows clause. */
  predicate TierClause(db: Db, me: UserId, owner: UserId, visibility: Visibility, owned: bool) {
    || visibility.Public?
    || owned
    || (visibility.CloseFriends? && SeesCloseFriendRow(db, Some(me), owner, me))
  }

  // --- the row conditions ------------------------------------------------------

  predicate VenueListingAdmits(db: Db, me: Option<UserId>, v: VenueId, c: CheckinId)
    requires KnownViewer(db, me)
  {
    && SelectCheckin(db, me, c).Some?
    && var row := db.checkins[c];
    && row.venue == v && !row.deleted && AccountIsVisible(db, me, row.owner)
    && (if me.None? then row.visibility.Public?
        else db.users[me.value].role.Admin? || TierClause(db, me.value, row.owner, row.visibility, row.owner == me.value))
  }

  predicate UserListingAdmits(db: Db, me: Option<UserId>, u: UserId, c: CheckinId)
    requires KnownViewer(db, me)
  {
    && SelectCheckin(db, me, c).Some?
    && var row := db.checkins[c];
    && row.owner == u && !row.deleted && AccountIsVisible(db, me, row.owner)
    && (if me.None? then row.visibility.Public?
        else OwnsOrAdmin(db, me.value, u) || TierClause(db, me.value, row.owner, row.visibility, false))
  }

  predicate ListsListingAdmits(db: Db, me: Option<UserId>, u: UserId, l: ListId)
    requires KnownViewer(db, me)
  {
    && SelectList(db, me, l).Some?
    && var row := db.lists[l];
    && row.owner == u
    && (if me.None? then row.visibility.Public?
        else OwnsOrAdmin(db, me.value, u) || TierClause(db, me.value, row.owner, row.visibility, false))
  }

  predicate BookmarkedCheckinAdmits(db: Db, me: UserId, c: CheckinId) {
    && (me, c) in db.checkinBookmarks && ReactionOwner(db, Some(me), me).True?
    && SelectCheckin(db, Some(me), c).Some?
    && var row := db.checkins[c];
    && !row.deleted && TierClause(db, me, row.owner, row.visibility, row.owner == me)
  }

  predicate BookmarkedListAdmits(db: Db, me: UserId, l: ListId) {
    && (me, l) in db.listBookmarks && ReactionOwner(db, Some(me), me).True?
    && SelectList(db, Some(me), l).Some?
    && var row := db.lists[l];
    && TierClause(db, me, row.owner, row.visibility, row.owner == me)
  }

  // --- what a reader is promised -----------------------------------------------

  predicate CheckinShown(db: Db, me: Option<UserId>, c: CheckinId)
    requires KnownViewer(db, me)
  {
    && c in db.checkins && !db.checkins[c].deleted
    && CanView(db, me, db.checkins[c].owner, db.checkins[c].visibility)
  }

  predicate ActiveOwner(db: Db, c: CheckinId)
    requires c in db.checkins
  {
    db.checkins[c].owner in db.users && db.users[db.checkins[c].owner].status.Active?
  }

  predicate ListShown(db: Db, me: Option<UserId>, l: ListId)
    requires KnownViewer(db, me)
  {
    l in db.lists && CanView(db, me, db.lists[l].owner, db.lists[l].visibility)
  }

  // --- the theorems ------------------------------------------------------------

  /** A venue's check-ins: exactly the undeleted ones by active accounts that `can_view` admits. */
  lemma VenueListingIsExact(db: Db, me: Option<UserId>, v: VenueId, c: CheckinId)
    requires ForeignKeys(db) && KnownViewer(db, me)
    ensures VenueListingAdmits(db, me, v, c) <==>
            CheckinShown(db, me, c) && db.checkins[c].venue == v && ActiveOwner(db, c)
  {
  }

  lemma UserListingIsExact(db: Db, me: Option<UserId>, u: UserId, c: CheckinId)
    requires ForeignKeys(db) && KnownViewer(db, me)
    ensures UserListingAdmits(db, me, u, c) <==>
            CheckinShown(db, me, c) && db.checkins[c].owner == u && ActiveOwner(db, c)
  {
  }

  lemma ListsListingIsExact(db: Db, me: Option<UserId>, u: UserId, l: ListId)
    requires KnownViewer(db, me)
    ensures ListsListingAdmits(db, me, u, l) <==> ListShown(db, me, l) && db.lists[l].owner == u
  {
  }

  /** An admin may view a row no tier grants them; the bookmark queries alone leave it out. */
  predicate GrantedByTier(db: Db, me: UserId, owner: UserId, visibility: Visibility) {
    visibility.Public? || owner == me || (visibility.CloseFriends? && (owner, me) in db.closeFriends)
  }

  lemma BookmarkedCheckinsAreExact(db: Db, me: UserId, c: CheckinId)
    requires me in db.users
    ensures BookmarkedCheckinAdmits(db, me, c) <==>
            && (me, c) in db.checkinBookmarks && CheckinShown(db, Some(me), c)
            && GrantedByTier(db, me, db.checkins[c].owner, db.checkins[c].visibility)
    ensures db.users[me].role.Member? ==>
            (BookmarkedCheckinAdmits(db, me, c) <==> (me, c) in db.checkinBookmarks && CheckinShown(db, Some(me), c))
  {
  }

  lemma BookmarkedListsAreExact(db: Db, me: UserId, l: ListId)
    requires me in db.users
    ensures BookmarkedListAdmits(db, me, l) <==>
            && (me, l) in db.listBookmarks && ListShown(db, Some(me), l)
            && GrantedByTier(db, me, db.lists[l].owner, db.lists[l].visibility)
    ensures db.users[me].role.Member? ==>
            (BookmarkedListAdmits(db, me, l) <==> (me, l) in db.listBookmarks && ListShown(db, Some(me), l))
  {
  }

  // --- page by page ----------------------------------------------------------------

  /** `list_checkins_for_venue`; `newestFirst` is the table in the order asked for. */
  function CheckinsForVenue(db: Db, me: Option<UserId>, v: VenueId, newestFirst: seq<CheckinId>, offset: nat, limit: nat)
    : seq<CheckinId>
    requires KnownViewer(db, me)
  {
    Page(newestFirst, c => VenueListingAdmits(db, me, v, c), offset, limit)
  }

  function CheckinsForUser(db: Db, me: Option<UserId>, u: UserId, newestFirst: seq<CheckinId>, offset: nat, limit: nat)
    : seq<CheckinId>
    requires KnownViewer(db, me)
  {
    Page(newestFirst, c => UserListingAdmits(db, me, u, c), offset, limit)
  }

  function ListsForUser(db: Db, me: Option<UserId>, u: UserId, newestFirst: seq<ListId>, offset: nat, limit: nat)
    : seq<ListId>
    requires KnownViewer(db, me)
  {
    Page(newestFirst, l => ListsListingAdmits(db, me, u, l), offset, limit)
  }

  function BookmarkedCheckins(db: Db, me: UserId, newestFirst: seq<CheckinId>, offset: nat, limit: nat): seq<CheckinId> {
    Page(newestFirst, c => BookmarkedCheckinAdmits(db, me, c), offset, limit)
  }

  function BookmarkedLists(db: Db, me: UserId, newestFirst: seq<ListId>, offset: nat, limit: nat): seq<ListId> {
    Page(newestFirst, l => BookmarkedListAdmits(db, me, l), offset, limit)
  }

  /** Filtering happens inside the query, so offset and limit count only rows the reader may
      see: no page comes back short, repeats a row of another or leaves one out. */
  lemma VenuePagesAreExact(db: Db, me: Option<UserId>, v: VenueId, newestFirst: seq<CheckinId>, offset: nat, limit: nat)
    requires ForeignKeys(db) && KnownViewer(db, me)
    ensures IsPage(newestFirst, c => CheckinShown(db, me, c) && db.checkins[c].venue == v && ActiveOwner(db, c),
                   offset, limit, CheckinsForVenue(db, me, v, newestFirst, offset, limit))
  {
    forall c { VenueListingIsExact(db, me, v, c); }
    PageCongruent(newestFirst, c => VenueListingAdmits(db, me, v, c),
                  c => CheckinShown(db, me, c) && db.checkins[c].venue == v && ActiveOwner(db, c), offset, limit);
  }

  lemma UserPagesAreExact(db: Db, me: Option<UserId>, u: UserId, newestFirst: seq<CheckinId>, offset: nat, limit: nat)
    requires ForeignKeys(db) && KnownViewer(db, me)
    ensures IsPage(newestFirst, c => CheckinShown(db, me, c) && db.checkins[c].owner == u && ActiveOwner(db, c),
                   offset, limit, CheckinsForUser(db, me, u, newestFirst, offset, limit))
  {
    forall c { UserListingIsExact(db, me, u, c); }
    PageCongruent(newestFirst, c => UserListingAdmits(db, me, u, c),
                  c => CheckinShown(db, me, c) && db.checkins[c].owner == u && ActiveOwner(db, c), offset, limit);
  }

  lemma ListPagesAreExact(db: Db, me: Option<UserId>, u: UserId, newestFirst: seq<ListId>, offset: nat, limit: nat)
    requires KnownViewer(db, me)
    ensures IsPage(newestFirst, l => ListShown(db, me, l) && db.lists[l].owner == u,
                   offset, limit, ListsForUser(db, me, u, newestFirst, offset, limit))
  {
    forall l { ListsListingIsExact(db, me, u, l); }
    PageCongruent(newestFirst, l => ListsListingAdmits(db, me, u, l),
                  l => ListShown(db, me, l) && db.lists[l].owner == u, offset, limit);
  }

  predicate BookmarkedCheckinShown(db: Db, me: UserId, c: CheckinId)
    requires me in db.users
  {
    && (me, c) in db.checkinBookmarks && CheckinShown(db, Some(me), c)
    && (db.users[me].role.Admin? ==> GrantedByTier(db, me, db.checkins[c].owner, db.checkins[c].visibility))
  }

  lemma BookmarkedCheckinPagesAreExact(db: Db, me: UserId, newestFirst: seq<CheckinId>, offset: nat, limit: nat)
    requires me in db.users
    ensures IsPage(newestFirst, c => BookmarkedCheckinShown(db, me, c), offset, limit,
                   BookmarkedCheckins(db, me, newestFirst, offset, limit))
  {
    forall c { BookmarkedCheckinsAreExact(db, me, c); }
    PageCongruent(newestFirst, c => BookmarkedCheckinAdmits(db, me, c), c => BookmarkedCheckinShown(db, me, c), offset, limit);
  }

  predicate BookmarkedListShown(db: Db, me: UserId, l: ListId)
    requires me in db.users
  {
    && (me, l) in db.listBookmarks && ListShown(db, Some(me), l)
    && (db.users[me].role.Admin? ==> GrantedByTier(db, me, db.lists[l].owner, db.lists[l].visibility))
  }

  lemma BookmarkedListPagesAreExact(db: Db, me: UserId, newestFirst: seq<ListId>, offset: nat, limit: nat)
    requires me in db.users
    ensures IsPage(newestFirst, l => BookmarkedListShown(db, me, l), offset, limit,
                   BookmarkedLists(db, me, newestFirst, offset, limit))
  {
    forall l { BookmarkedListsAreExact(db, me, l); }
    PageCongruent(newestFirst, l => BookmarkedListAdmits(db, me, l), l => BookmarkedListShown(db, me, l), offset, limit);
  }
}
