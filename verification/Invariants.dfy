/** What every committed state satisfies: the schema's constraints, distinct list rows,
    and isolation of blocked pairs. One lemma per service call, then all runs. */
module Invariants {
  import opened Wrappers
  import opened Schema
  import opened Ordering
  import opened Content
  import opened Social
  import opened ListItems
  import opened ListEditing
  import opened Accounts
  import opened Venues
  import opened Requests

  // --- isolation, table by table -----------------------------------------------

  predicate Apart(blocks: set<(UserId, UserId)>, a: UserId, b: UserId) {
    (a, b) !in blocks && (b, a) !in blocks
  }

  ghost predicate PairsApart(blocks: set<(UserId, UserId)>, pairs: set<(UserId, UserId)>) {
    forall p <- pairs :: Apart(blocks, p.0, p.1)
  }

  ghost predicate LikesApart(blocks: set<(UserId, UserId)>, checkins: map<CheckinId, Checkin>,
                             likes: set<(UserId, CheckinId)>) {
    forall p <- likes | p.1 in checkins :: Apart(blocks, p.0, checkins[p.1].owner)
  }

  ghost predicate ListLikesApart(blocks: set<(UserId, UserId)>, lists: map<ListId, VenueList>,
                                 likes: set<(UserId, ListId)>) {
    forall p <- likes | p.1 in lists :: Apart(blocks, p.0, lists[p.1].owner)
  }

  predicate IsMember(users: map<UserId, User>, u: UserId) {
    u in users && users[u].role.Member?
  }

  ghost predicate BookmarksApart(blocks: set<(UserId, UserId)>, users: map<UserId, User>,
                                 checkins: map<CheckinId, Checkin>, bookmarks: set<(UserId, CheckinId)>) {
    forall p <- bookmarks | p.1 in checkins && IsMember(users, p.0) :: Apart(blocks, p.0, checkins[p.1].owner)
  }

  ghost predicate ListBookmarksApart(blocks: set<(UserId, UserId)>, users: map<UserId, User>,
                                     lists: map<ListId, VenueList>, bookmarks: set<(UserId, ListId)>) {
    forall p <- bookmarks | p.1 in lists && IsMember(users, p.0) :: Apart(blocks, p.0, lists[p.1].owner)
  }

  ghost predicate NotificationsApart(blocks: set<(UserId, UserId)>, ns: map<NotificationId, Notification>) {
    forall n <- ns | ns[n].actor.Some? :: Apart(blocks, ns[n].recipient, ns[n].actor.value)
  }

  /** Where either of two accounts blocks the other, nothing links them in either
      direction: no follow, close friendship, like, notification or member's bookmark. */
  ghost predicate Isolated(db: Db) {
    && PairsApart(db.blocks, db.follows)
    && PairsApart(db.blocks, db.closeFriends)
    && LikesApart(db.blocks, db.checkins, db.checkinLikes)
    && ListLikesApart(db.blocks, db.lists, db.listLikes)
    && BookmarksApart(db.blocks, db.users, db.checkins, db.checkinBookmarks)
    && ListBookmarksApart(db.blocks, db.users, db.lists, db.listBookmarks)
    && NotificationsApart(db.blocks, db.notifications)
  }

  ghost predicate Invariant(db: Db) {
    Constraints(db) && DistinctRows(db.items) && Isolated(db)
  }

  lemma FollowKeeps(db: Db, me: Option<UserId>, follower: UserId, following: UserId, id: NotificationId)
    requires Invariant(db)
    ensures Invariant(After(db, FollowUser(db, me, follower, following, id)))
  {
  }

  lemma UnfollowKeeps(db: Db, me: Option<UserId>, follower: UserId, following: UserId)
    requires Invariant(db)
    ensures Invariant(After(db, UnfollowUser(db, me, follower, following)))
  {
  }

  lemma AddCloseFriendKeeps(db: Db, me: Option<UserId>, owner: UserId, friend: UserId)
    requires Invariant(db)
    ensures Invariant(After(db, AddCloseFriend(db, me, owner, friend)))
  {
  }

  lemma RemoveCloseFriendKeeps(db: Db, me: Option<UserId>, owner: UserId, friend: UserId)
    requires Invariant(db)
    ensures Invariant(After(db, RemoveCloseFriend(db, me, owner, friend)))
  {
  }

  /** Removing rows, and the rows resting on them, never breaks a foreign key. */
  lemma WithoutFollowsKeeps(db: Db, gone: set<(UserId, UserId)>)
    requires ForeignKeys(db)
    ensures ForeignKeys(WithoutFollows(db, gone))
  {
  }

  lemma PurgeKeepsKeys(db: Db, a: UserId, b: UserId)
    requires ForeignKeys(db)
    ensures ForeignKeys(PurgeInteractionsBetween(db, a, b))
  {
  }

  /** Blocking: what was apart stays apart, and the purge has taken everything between the two. */
  lemma BlockSeparates(db: Db, a: UserId, b: UserId)
    requires Isolated(db)
    ensures var added := db.(blocks := db.blocks + {(a, b)});
            Isolated(PurgeInteractionsBetween(WithoutFollows(added, {(a, b), (b, a)}), a, b))
  {
    var added := db.(blocks := db.blocks + {(a, b)});
    var d := PurgeInteractionsBetween(WithoutFollows(added, {(a, b), (b, a)}), a, b);
    forall x, y | Apart(db.blocks, x, y) && !Joins(a, b, x, y) ensures Apart(d.blocks, x, y) {}
  }

  lemma CreateBlockKeeps(db: Db, me: Option<UserId>, blocker: UserId, blocked: UserId)
    requires Invariant(db)
    ensures Invariant(After(db, CreateBlock(db, me, blocker, blocked)))
  {
    if CreateBlock(db, me, blocker, blocked).Committed? {
      var added := db.(blocks := db.blocks + {(blocker, blocked)});
      var gone := {(blocker, blocked), (blocked, blocker)};
      WithoutFollowsKeeps(added, gone);
      PurgeKeepsKeys(WithoutFollows(added, gone), blocker, blocked);
      BlockSeparates(db, blocker, blocked);
    }
  }

  lemma RemoveBlockKeeps(db: Db, me: Option<UserId>, blocker: UserId, blocked: UserId)
    requires Invariant(db)
    ensures Invariant(After(db, RemoveBlock(db, me, blocker, blocked)))
  {
  }

  /** A notification the policies admit names two accounts that are apart. */
  lemma NotifyKeeps(db: Db, me: Option<UserId>, id: NotificationId, n: Notification)
    requires Invariant(db) && NotificationInsertable(db, me, id, n)
    ensures NotificationKeys(db.users.Keys, db.notifications[id := n])
    ensures NotificationsApart(db.blocks, db.notifications[id := n])
    ensures n.actor.Some? ==> Apart(db.blocks, n.recipient, n.actor.value)
  {
  }

  lemma AddedLikeKeeps(db: Db, me: UserId, c: CheckinId)
    requires Invariant(db) && me in db.users && c in db.checkins && Apart(db.blocks, me, db.checkins[c].owner)
    ensures Invariant(db.(checkinLikes := db.checkinLikes + {(me, c)}))
  {
  }

  lemma AddedListLikeKeeps(db: Db, me: UserId, l: ListId)
    requires Invariant(db) && me in db.users && l in db.lists && Apart(db.blocks, me, db.lists[l].owner)
    ensures Invariant(db.(listLikes := db.listLikes + {(me, l)}))
  {
  }

  /** Python lets an admin like across a block; the notification's insert policy then
      aborts the whole call, so the like does not survive either. */
  lemma LikeCheckinKeeps(db: Db, me: UserId, c: CheckinId, id: NotificationId)
    requires me in db.users && Invariant(db)
    ensures Invariant(After(db, LikeCheckin(db, me, c, id)))
  {
    if LikeCheckin(db, me, c, id).Committed? {
      var owner := db.checkins[c].owner;
      if owner != me {
        NotifyKeeps(db, Some(me), id, Notification(owner, Some(me), CheckinTarget(c), false));
      }
      AddedLikeKeeps(db, me, c);
    }
  }

  lemma LikeListKeeps(db: Db, me: UserId, l: ListId, id: NotificationId)
    requires me in db.users && Invariant(db)
    ensures Invariant(After(db, LikeList(db, me, l, id)))
  {
    if LikeList(db, me, l, id).Committed? {
      var owner := db.lists[l].owner;
      if owner != me {
        NotifyKeeps(db, Some(me), id, Notification(owner, Some(me), ListTarget(l), false));
      }
      AddedListLikeKeeps(db, me, l);
    }
  }

  lemma FewerLikesKeep(db: Db, checkinLikes: set<(UserId, CheckinId)>, listLikes: set<(UserId, ListId)>)
    requires Invariant(db) && checkinLikes <= db.checkinLikes && listLikes <= db.listLikes
    ensures Invariant(db.(checkinLikes := checkinLikes, listLikes := listLikes))
  {
  }

  lemma UnlikeCheckinKeeps(db: Db, me: UserId, c: CheckinId)
    requires Invariant(db)
    ensures Invariant(After(db, UnlikeCheckin(db, me, c)))
  {
    FewerLikesKeep(db, db.checkinLikes - {(me, c)}, db.listLikes);
  }

  lemma UnlikeListKeeps(db: Db, me: UserId, l: ListId)
    requires Invariant(db)
    ensures Invariant(After(db, UnlikeList(db, me, l)))
  {
    FewerLikesKeep(db, db.checkinLikes, db.listLikes - {(me, l)});
  }

  lemma BookmarkCheckinKeeps(db: Db, me: UserId, c: CheckinId)
    requires me in db.users && Invariant(db)
    ensures Invariant(After(db, BookmarkCheckin(db, me, c)))
  {
  }

  lemma BookmarkListKeeps(db: Db, me: UserId, l: ListId)
    requires me in db.users && Invariant(db)
    ensures Invariant(After(db, BookmarkList(db, me, l)))
  {
  }

  lemma UnbookmarkCheckinKeeps(db: Db, me: UserId, c: CheckinId)
    requires Invariant(db)
    ensures Invariant(After(db, UnbookmarkCheckin(db, me, c)))
  {
  }

  lemma UnbookmarkListKeeps(db: Db, me: UserId, l: ListId)
    requires Invariant(db)
    ensures Invariant(After(db, UnbookmarkList(db, me, l)))
  {
  }

  lemma MarkReadKeeps(db: Db, me: Option<UserId>, user: UserId)
    requires Invariant(db)
    ensures Invariant(After(db, MarkAllNotificationsRead(db, me, user)))
  {
  }

  // --- check-ins and lists -----------------------------------------------------

  /** Check-ins may be added and edited freely as long as none disappears or changes owner:
      whatever reacts to a check-in reacts to one that was there before. */
  lemma CheckinsRewritten(db: Db, checkins: map<CheckinId, Checkin>)
    requires Invariant(db) && CheckinKeys(db.users.Keys, db.venues.Keys, checkins)
    requires forall c <- db.checkins :: c in checkins && checkins[c].owner == db.checkins[c].owner
    ensures Invariant(db.(checkins := checkins))
  {
    assert db.checkins.Keys <= checkins.Keys by {
      forall c | c in db.checkins.Keys ensures c in checkins.Keys { assert c in db.checkins; }
    }
  }

  lemma ListsRewritten(db: Db, lists: map<ListId, VenueList>)
    requires Invariant(db) && ListKeys(db.users.Keys, lists)
    requires forall l <- db.lists :: l in lists && lists[l].owner == db.lists[l].owner
    ensures Invariant(db.(lists := lists))
  {
  }

  lemma CreateCheckinKeeps(db: Db, me: Option<UserId>, c: CheckinId, row: Checkin)
    requires Invariant(db)
    ensures Invariant(After(db, CreateCheckin(db, me, c, row)))
  {
    if CreateCheckin(db, me, c, row).Committed? {
      CheckinsRewritten(db, CreateCheckin(db, me, c, row).db.checkins);
    }
  }

  lemma UpdateCheckinKeeps(db: Db, me: UserId, c: CheckinId, shown: Option<Visibility>, text: Option<string>)
    requires me in db.users && Invariant(db)
    ensures Invariant(After(db, UpdateCheckin(db, me, c, shown, text)))
  {
    if UpdateCheckin(db, me, c, shown, text).Committed? {
      CheckinsRewritten(db, UpdateCheckin(db, me, c, shown, text).db.checkins);
    }
  }

  lemma SoftDeleteCheckinKeeps(db: Db, me: UserId, c: CheckinId)
    requires me in db.users && Invariant(db)
    ensures Invariant(After(db, SoftDeleteCheckin(db, me, c)))
  {
    if SoftDeleteCheckin(db, me, c).Committed? {
      CheckinsRewritten(db, SoftDeleteCheckin(db, me, c).db.checkins);
    }
  }

  lemma CreateListKeeps(db: Db, me: Option<UserId>, l: ListId, row: VenueList)
    requires Invariant(db)
    ensures Invariant(After(db, CreateList(db, me, l, row)))
  {
  }

  lemma UpdateListKeeps(db: Db, me: UserId, l: ListId, shown: Option<Visibility>, text: Option<string>)
    requires me in db.users && Invariant(db)
    ensures Invariant(After(db, UpdateList(db, me, l, shown, text)))
  {
    if UpdateList(db, me, l, shown, text).Committed? {
      ListsRewritten(db, UpdateList(db, me, l, shown, text).db.lists);
    }
  }

  lemma WithoutCheckinsKeeps(db: Db, gone: set<CheckinId>)
    requires Invariant(db)
    ensures Invariant(WithoutCheckins(db, gone))
  {
  }

  lemma {:induction false} OutsideMembers(items: seq<ListItem>, gone: set<ListId>, i: ListItem)
    ensures i in ItemsOutside(items, gone) <==> i in items && i.list !in gone
  {
    if items != [] { OutsideMembers(items[1..], gone, i); }
  }

  lemma {:induction false} OutsideKeepsDistinct(items: seq<ListItem>, gone: set<ListId>)
    requires DistinctRows(items)
    ensures DistinctRows(ItemsOutside(items, gone))
  {
    if items != [] {
      OutsideKeepsDistinct(items[1..], gone);
      var rest := ItemsOutside(items[1..], gone);
      if items[0].list !in gone {
        forall x <- rest
          ensures x.id != items[0].id
          ensures x.list == items[0].list ==> x.position != items[0].position && x.venue != items[0].venue
        {
          OutsideMembers(items[1..], gone, x);
          var k :| 0 <= k < |items[1..]| && items[1..][k] == x;
          assert items[k + 1] == x;
        }
        assert ItemsOutside(items, gone) == [items[0]] + rest;
      }
    }
  }

  lemma WithoutListsKeeps(db: Db, gone: set<ListId>)
    requires Invariant(db)
    ensures Invariant(WithoutLists(db, gone))
  {
    OutsideKeepsDistinct(db.items, gone);
    forall i { OutsideMembers(db.items, gone, i); }
  }

  // --- list items --------------------------------------------------------------

  lemma ItemsRewritten(db: Db, items: seq<ListItem>)
    requires Invariant(db) && ItemKeys(db.lists.Keys, db.venues.Keys, items) && DistinctRows(items)
    ensures Invariant(db.(items := items))
  {
  }

  lemma AddItemWrites(db: Db, me: UserId, l: ListId, v: VenueId, after: Option<ItemId>, id: ItemId)
    requires me in db.users
    ensures var out, e := AddItem(db, me, l, v, after, id), AddRow(db.items, l, v, after, id);
            out.Committed? ==> e.Written? && out.db == db.(items := e.items) && l in db.lists && v in db.venues
  {
    hide AddRow;
  }

  lemma AddItemKeeps(db: Db, me: UserId, l: ListId, v: VenueId, after: Option<ItemId>, id: ItemId)
    requires me in db.users && Invariant(db)
    ensures Invariant(After(db, AddItem(db, me, l, v, after, id)))
  {
    AddItemWrites(db, me, l, v, after, id);
    AddIsInsertion(db.items, l, v, after, id);
    AddWritesOneRow(db.items, l, v, after, id);
    hide AddItem, AddRow, Contents, Reaches, VenueOnList, IndexOf;
    if AddItem(db, me, l, v, after, id).Committed? {
      var items := AddRow(db.items, l, v, after, id).items;
      assert forall i <- items :: i in db.items || i == AddedRow(db.items, l, v, after, id);
      ItemsRewritten(db, items);
    }
  }

  lemma MoveItemKeeps(db: Db, me: UserId, l: ListId, id: ItemId, after: Option<ItemId>)
    requires me in db.users && Invariant(db)
    ensures Invariant(After(db, MoveItem(db, me, l, id, after)))
  {
    MoveIsReinsertion(db.items, l, id, after);
    if MoveItem(db, me, l, id, after).Committed? {
      ItemsRewritten(db, ItemsAfter(db.items, MoveRow(db.items, l, id, after)));
    }
  }

  lemma RemoveItemKeeps(db: Db, me: UserId, l: ListId, id: ItemId)
    requires me in db.users && Invariant(db)
    ensures Invariant(After(db, RemoveItem(db, me, l, id)))
  {
    RemoveIsRemoval(db.items, l, id);
    var items := ItemsAfter(db.items, RemoveRow(db.items, l, id));
    if RemoveItem(db, me, l, id).Committed? {
      assert ItemKeys(db.lists.Keys, db.venues.Keys, items);
      ItemsRewritten(db, items);
    }
  }

  // --- accounts ----------------------------------------------------------------

  /** Accounts may be added and edited as long as none disappears, roles stay and handles stay unique. */
  lemma UsersRewritten(db: Db, users: map<UserId, User>)
    requires Invariant(db) && UniqueUsernames(users)
    requires forall u <- db.users :: u in users && users[u].role == db.users[u].role
    ensures Invariant(db.(users := users))
  {
    var d := db.(users := users);
    assert db.users.Keys <= users.Keys by {
      forall u | u in db.users.Keys ensures u in users.Keys { assert u in db.users; }
    }
    UsersGrow(db, users);
    assert BookmarksApart(d.blocks, d.users, d.checkins, d.checkinBookmarks) by {
      forall p <- d.checkinBookmarks ensures p.0 in db.users.Keys {}
    }
    assert ListBookmarksApart(d.blocks, d.users, d.lists, d.listBookmarks) by {
      forall p <- d.listBookmarks ensures p.0 in db.users.Keys {}
    }
  }

  lemma UsersGrow(db: Db, users: map<UserId, User>)
    requires ForeignKeys(db) && db.users.Keys <= users.Keys
    ensures ForeignKeys(db.(users := users))
  {
  }

  lemma UpdateProfileKeeps(db: Db, me: UserId, username: Option<string>, profile: Option<string>, now: int)
    requires me in db.users && Invariant(db)
    ensures Invariant(After(db, UpdateProfile(db, me, username, profile, now)))
  {
    if UpdateProfile(db, me, username, profile, now).Committed? {
      UsersRewritten(db, UpdateProfile(db, me, username, profile, now).db.users);
    }
  }

  lemma FreezeAccountKeeps(db: Db, me: UserId)
    requires me in db.users && Invariant(db)
    ensures Invariant(After(db, FreezeAccount(db, me)))
  {
    if FreezeAccount(db, me).Committed? {
      UsersRewritten(db, FreezeAccount(db, me).db.users);
    }
  }

  lemma SuspendAccountKeeps(db: Db, me: UserId, u: UserId)
    requires me in db.users && Invariant(db)
    ensures Invariant(After(db, SuspendAccount(db, me, u)))
  {
    if SuspendAccount(db, me, u).Committed? {
      UsersRewritten(db, SuspendAccount(db, me, u).db.users);
    }
  }

  lemma ReactivateAccountKeeps(db: Db, me: UserId)
    requires me in db.users && Invariant(db)
    ensures Invariant(After(db, ReactivateAccount(db, me)))
  {
    if ReactivateAccount(db, me).Committed? {
      UsersRewritten(db, ReactivateAccount(db, me).db.users);
    }
  }

  lemma ProvisionKeeps(db: Db, id: UserId, username: string)
    requires Invariant(db)
    ensures Invariant(After(db, Provision(db, id, username)))
  {
    if Provision(db, id, username).Committed? {
      UsersRewritten(db, Provision(db, id, username).db.users);
    }
  }

  // --- venues ------------------------------------------------------------------

  lemma VenuesRewritten(db: Db, venues: map<VenueId, Venue>)
    requires Invariant(db) && VenueKeys(db.users.Keys, db.categories, venues) && UniqueGoogleIds(venues)
    requires db.venues.Keys <= venues.Keys
    ensures Invariant(db.(venues := venues))
  {
  }

  lemma VerifyVenueKeeps(db: Db, me: UserId, v: VenueId)
    requires me in db.users && Invariant(db)
    ensures Invariant(After(db, VerifyVenueByAdmin(db, me, v)))
  {
    if VerifyVenueByAdmin(db, me, v).Committed? {
      VenuesRewritten(db, VerifyVenueByAdmin(db, me, v).db.venues);
    }
  }

  lemma CloseVenueKeeps(db: Db, me: UserId, v: VenueId)
    requires me in db.users && Invariant(db)
    ensures Invariant(After(db, CloseVenue(db, me, v)))
  {
    if CloseVenue(db, me, v).Committed? {
      VenuesRewritten(db, CloseVenue(db, me, v).db.venues);
    }
  }

  lemma SuspendVenueKeeps(db: Db, me: UserId, v: VenueId)
    requires me in db.users && Invariant(db)
    ensures Invariant(After(db, SuspendVenue(db, me, v)))
  {
  }

  lemma CreateVenueKeeps(db: Db, me: UserId, near: Near, id: VenueId, category: CategoryId, g: Option<string>,
                         place: Place, confirmed: bool)
    requires Invariant(db)
    ensures Invariant(After(db, CreateVenue(db, me, near, id, category, g, place, confirmed)))
  {
    VenuesRewritten(db, After(db, CreateVenue(db, me, near, id, category, g, place, confirmed)).venues);
  }

  // --- account deletion --------------------------------------------------------

  lemma WithoutFollowsKeepsAll(db: Db, gone: set<(UserId, UserId)>)
    requires Invariant(db)
    ensures Invariant(WithoutFollows(db, gone))
  {
  }

  /** Nothing that outlives an account still needs it. */
  ghost predicate Unneeded(db: Db, u: UserId) {
    && (forall c <- db.checkins :: db.checkins[c].owner != u)
    && (forall l <- db.lists :: db.lists[l].owner != u)
    && (forall p <- db.follows :: p.0 != u && p.1 != u)
  }

  lemma WithoutAccountKeepsSocialKeys(db: Db, u: UserId)
    requires ForeignKeys(db) && Unneeded(db, u)
    ensures var d := WithoutAccount(db, u);
            && PairKeys(d.users.Keys, d.follows) && PairKeys(d.users.Keys, d.blocks) && PairKeys(d.users.Keys, d.mutes)
            && NotificationKeys(d.users.Keys, d.notifications)
            && VenueKeys(d.users.Keys, d.categories, d.venues)
            && ContentReportKeys(d.users.Keys, d.contentReports)
            && VenueReportKeys(d.users.Keys, d.venues.Keys, d.venueReports)
  {
  }

  lemma WithoutAccountKeepsKeys(db: Db, u: UserId)
    requires ForeignKeys(db) && Unneeded(db, u)
    ensures ForeignKeys(WithoutAccount(db, u))
  {
    WithoutAccountKeepsSocialKeys(db, u);
    assert WithoutAccount(db, u).venues.Keys == db.venues.Keys;
  }

  lemma WithoutAccountKeepsApart(db: Db, u: UserId)
    requires Isolated(db)
    ensures Isolated(WithoutAccount(db, u))
  {
    var d := WithoutAccount(db, u);
    forall x, y | Apart(db.blocks, x, y) ensures Apart(d.blocks, x, y) {}
  }

  lemma WithoutAccountKeepsUnique(db: Db, u: UserId)
    requires UniqueUsernames(db.users) && UniqueGoogleIds(db.venues)
    ensures UniqueUsernames(WithoutAccount(db, u).users) && UniqueGoogleIds(WithoutAccount(db, u).venues)
  {
  }

  lemma PurgeUserKeeps(db: Db, u: UserId)
    requires Invariant(db)
    ensures Invariant(PurgeUser(db, u))
  {
    var c := WithoutCheckins(db, OwnedBy(db, u));
    var d := WithoutLists(c, ListsOwnedBy(db, u));
    var e := WithoutFollows(d, FollowsTouching(db, u));
    WithoutCheckinsKeeps(db, OwnedBy(db, u));
    WithoutListsKeeps(c, ListsOwnedBy(db, u));
    WithoutFollowsKeepsAll(d, FollowsTouching(db, u));
    assert Unneeded(e, u);
    WithoutAccountKeepsKeys(e, u);
    WithoutAccountKeepsApart(e, u);
    WithoutAccountKeepsUnique(e, u);
  }

  // --- every request -----------------------------------------------------------

  lemma SocialCallsKeep(db: Db, me: UserId, call: SocialCall)
    requires Invariant(db)
    ensures Invariant(After(db, ServeSocial(db, me, call)))
  {
    match call {
      case Follow(u, n) => FollowKeeps(db, Some(me), me, u, n);
      case Unfollow(u) => UnfollowKeeps(db, Some(me), me, u);
      case RemoveFollower(u) => UnfollowKeeps(db, Some(me), u, me);
      case AddFriend(u) => AddCloseFriendKeeps(db, Some(me), me, u);
      case RemoveFriend(u) => RemoveCloseFriendKeeps(db, Some(me), me, u);
      case Block(u) => CreateBlockKeeps(db, Some(me), me, u);
      case Unblock(u) => RemoveBlockKeeps(db, Some(me), me, u);
      case ReadNotifications => MarkReadKeeps(db, Some(me), me);
    }
  }

  lemma CheckinCallsKeep(db: Db, me: UserId, call: CheckinCall)
    requires me in db.users && Invariant(db)
    ensures Invariant(After(db, ServeCheckin(db, me, call)))
  {
    match call {
      case NewCheckin(c, v, shown, text) => CreateCheckinKeeps(db, Some(me), c, Checkin(me, v, shown, false, text));
      case EditCheckin(c, shown, text) => UpdateCheckinKeeps(db, me, c, shown, text);
      case DropCheckin(c) => SoftDeleteCheckinKeeps(db, me, c);
      case PurgeCheckin(c) => WithoutCheckinsKeeps(db, {c});
    }
  }

  lemma ListCallsKeep(db: Db, me: UserId, call: ListCall)
    requires me in db.users && Invariant(db)
    ensures Invariant(After(db, ServeList(db, me, call)))
  {
    match call {
      case NewList(l, shown, text) => CreateListKeeps(db, Some(me), l, VenueList(me, shown, text));
      case EditList(l, shown, text) => UpdateListKeeps(db, me, l, shown, text);
      case DropList(l) => WithoutListsKeeps(db, {l});
      case NewItem(l, v, after, i) => AddItemKeeps(db, me, l, v, after, i);
      case ShiftItem(l, i, after) => MoveItemKeeps(db, me, l, i, after);
      case DropItem(l, i) => RemoveItemKeeps(db, me, l, i);
    }
  }

  lemma LikeCallsKeep(db: Db, me: UserId, call: LikeCall)
    requires me in db.users && Invariant(db)
    ensures Invariant(After(db, ServeLike(db, me, call)))
  {
    match call {
      case Like(c, n) => LikeCheckinKeeps(db, me, c, n);
      case Unlike(c) => UnlikeCheckinKeeps(db, me, c);
      case LikeOfList(l, n) => LikeListKeeps(db, me, l, n);
      case UnlikeOfList(l) => UnlikeListKeeps(db, me, l);
    }
  }

  lemma BookmarkCallsKeep(db: Db, me: UserId, call: BookmarkCall)
    requires me in db.users && Invariant(db)
    ensures Invariant(After(db, ServeBookmark(db, me, call)))
  {
    match call {
      case Bookmark(c) => BookmarkCheckinKeeps(db, me, c);
      case Unbookmark(c) => UnbookmarkCheckinKeeps(db, me, c);
      case BookmarkOfList(l) => BookmarkListKeeps(db, me, l);
      case UnbookmarkOfList(l) => UnbookmarkListKeeps(db, me, l);
    }
  }

  lemma AccountCallsKeep(db: Db, me: UserId, call: AccountCall)
    requires me in db.users && Invariant(db)
    ensures Invariant(After(db, ServeAccount(db, me, call)))
  {
    match call {
      case Edit(name, text, now) => UpdateProfileKeeps(db, me, name, text, now);
      case Freeze => FreezeAccountKeeps(db, me);
      case Suspend(u) => SuspendAccountKeeps(db, me, u);
      case DeleteMe => PurgeUserKeeps(db, me);
    }
  }

  lemma VenueCallsKeep(db: Db, me: UserId, near: Near, call: VenueCall)
    requires me in db.users && Invariant(db)
    ensures Invariant(After(db, ServeVenue(db, me, near, call)))
  {
    match call {
      case NewVenue(v, category, g, place, confirm) => CreateVenueKeeps(db, me, near, v, category, g, place, confirm);
      case Verify(v) => VerifyVenueKeeps(db, me, v);
      case Close(v) => CloseVenueKeeps(db, me, v);
      case Hide(v) => SuspendVenueKeeps(db, me, v);
    }
  }

  lemma ServeKeeps(db: Db, me: UserId, near: Near, call: Call)
    requires me in db.users && Invariant(db)
    ensures Invariant(After(db, Serve(db, me, near, call)))
  {
    match call {
      case ForSocial(c) => SocialCallsKeep(db, me, c);
      case ForCheckin(c) => CheckinCallsKeep(db, me, c);
      case ForList(c) => ListCallsKeep(db, me, c);
      case ForLike(c) => LikeCallsKeep(db, me, c);
      case ForBookmark(c) => BookmarkCallsKeep(db, me, c);
      case ForAccount(c) => AccountCallsKeep(db, me, c);
      case ForVenue(c) => VenueCallsKeep(db, me, near, c);
    }
  }

  lemma SignInKeeps(db: Db, me: UserId, fallback: string)
    requires Invariant(db)
    ensures Invariant(SignIn(db, me, fallback))
  {
    if me in db.users {
      ReactivateAccountKeeps(db, me);
    } else {
      ProvisionKeeps(db, me, fallback);
    }
  }

  lemma ExecKeeps(db: Db, near: Near, r: Request)
    requires Invariant(db)
    ensures Invariant(Exec(db, near, r))
  {
    match r {
      case SignedIn(me, fallback, call) =>
        if !GetCurrentUser(db, me, fallback).Raised? {
          SignInKeeps(db, me, fallback);
          ServeKeeps(SignIn(db, me, fallback), me, near, call);
        }
      case Provisioned(id, name) => ProvisionKeeps(db, id, name);
      case ProviderDeleted(id) => PurgeUserKeeps(db, id);
    }
  }

  /** Every reachable state keeps its foreign keys, its uniqueness constraints, its list
      order and the isolation of blocked pairs, whatever requests led to it. */
  lemma {:induction false} EveryRunKeeps(db: Db, near: Near, rs: seq<Request>)
    requires Invariant(db)
    ensures Invariant(Run(db, near, rs))
  {
    if rs != [] {
      EveryRunKeeps(db, near, rs[..|rs| - 1]);
      ExecKeeps(Run(db, near, rs[..|rs| - 1]), near, rs[|rs| - 1]);
    }
  }
}
