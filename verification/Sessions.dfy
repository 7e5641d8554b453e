/** A database session: one transaction's view beside what has been committed. Every write a
    service issues is a statement of the session. An insert must pass the table's policies
    (`WITH CHECK`, and the select policy, since the row is read back), keys and uniqueness,
    or it aborts the call. An update or delete touches a row only if the policies admit it
    and otherwise changes nothing; an updated row must pass them again. */
module Sessions {
  import opened Wrappers
  import opened Schema
  import opened Policies
  import opened Authz
  import opened Content
  import opened Social
  import opened Accounts
  import opened Venues

  /** How a service function comes back to its caller. */
  datatype Reply = Returned | Raises(error: Error)

  /** The call came back as its specification says, and left the session as it says: a commit
      is visible in both views, a return without one in neither, and an error commits nothing. */
  ghost predicate Ends(committed: Db, working: Db, out: Outcome, committed': Db, working': Db, reply: Reply) {
    match out
    case Raised(e) => reply == Raises(e) && committed' == committed
    case Unchanged => reply == Returned && committed' == committed && working' == working
    case Committed(d) => reply == Returned && committed' == d && working' == d
  }

  // --- which rows a caller may touch --------------------------------------------

  predicate UserWritable(db: Db, me: Option<UserId>, u: UserId) {
    UsersSelect(db, me, u).True? && UsersWrite(db, me, u).True?
  }

  predicate CheckinWritable(db: Db, me: Option<UserId>, row: Checkin) {
    CheckinsSelect(db, me, row).True? && ContentWrite(db, me, row.owner).True?
  }

  predicate ListWritable(db: Db, me: Option<UserId>, row: VenueList) {
    ListsSelect(db, me, row).True? && ContentWrite(db, me, row.owner).True?
  }

  /** Items have no owner of their own; their policies ask about the list. */
  predicate ItemWritable(db: Db, me: Option<UserId>, l: ListId) {
    CanViewList(db, me, l).True? && IsOwnerOrAdminOfList(db, me, l).True?
  }

  predicate VenueWritable(db: Db, me: Option<UserId>, row: Venue) {
    VenuesSelect(db, me, row).True? && VenuesUpdate(db, me).True?
  }

  predicate NotificationWritable(db: Db, me: Option<UserId>, n: Notification) {
    NotificationsSelect(db, me, n).True? && NotificationsUpdate(db, me, n).True?
  }

  predicate CloseFriendWritable(db: Db, me: Option<UserId>, owner: UserId, friend: UserId) {
    CloseFriendsSelect(db, me, owner, friend).True? && CloseFriendsWrite(db, me, owner).True?
  }

  // --- Python's gates against the database's ------------------------------------

  /** Owners and admins see a row whatever its tier, so an edit cannot hide it from its editor. */
  lemma OwnersSeeEveryTier(db: Db, me: Option<UserId>, owner: UserId, visibility: Visibility)
    requires IsOwnerOrAdmin(db, me, Some(owner)).True?
    ensures CanViewVisibility(db, me, owner, visibility).True?
  {
  }

  /** Whoever `ensure_visible_and_owned` lets through, the content policies let write, before
      the edit and after it; and they let nobody else. */
  lemma GuardMeetsContentPolicies(db: Db, me: UserId, owner: UserId, visibility: Visibility, edited: Visibility)
    requires me in db.users
    ensures EnsureVisibleAndOwned(db, me, owner, visibility).Allowed? <==>
            ContentWrite(db, Some(me), owner).True? && CanViewVisibility(db, Some(me), owner, visibility).True?
    ensures EnsureVisibleAndOwned(db, me, owner, visibility).Allowed? ==>
            CanViewVisibility(db, Some(me), owner, edited).True?
  {
    GuardRevealsOnlyTheVisible(db, me, owner, visibility);
  }

  /** Nobody is hidden from themselves: a block joins two different accounts. */
  lemma OwnRowIsWritable(db: Db, me: UserId)
    requires PairKeys(db.users.Keys, db.blocks)
    ensures UserWritable(db, Some(me), me)
  {
  }

  lemma AdminsWriteEveryUser(db: Db, me: UserId, u: UserId)
    requires me in db.users && db.users[me].role.Admin?
    ensures UserWritable(db, Some(me), u)
  {
  }

  /** `require_admin` on the route is exactly the venue policies' condition. */
  lemma AdminsWriteEveryVenue(db: Db, me: UserId, row: Venue)
    requires me in db.users
    ensures VenueWritable(db, Some(me), row) <==> db.users[me].role.Admin?
  {
    AdminMeetsVenuePolicy(db, me);
  }

  // --- the session ----------------------------------------------------------------

  class Session {
    const me: Option<UserId>
    var committed: Db
    var working: Db

    constructor (db: Db, me: Option<UserId>)
      ensures committed == working == db && this.me == me
    {
      committed, working, this.me := db, db, me;
    }

    method Commit()
      modifies this
      ensures committed == working == old(working)
    {
      committed := working;
    }

    /** Leaving `async with`: whatever is pending is rolled back. */
    method Close()
      modifies this
      ensures committed == working == old(committed)
    {
      working := committed;
    }

    // --- users -----------------------------------------------------------------

    method InsertUser(u: UserId, row: User) returns (ok: bool)
      modifies this`working
      ensures ok <==> u !in old(working).users && UsernameFree(old(working), row.username)
      ensures working == if ok then old(working).(users := old(working).users[u := row]) else old(working)
    {
      ok := u !in working.users && UsernameFree(working, row.username);
      if ok {
        working := working.(users := working.users[u := row]);
      }
    }

    method UpdateUser(u: UserId, row: User) returns (ok: bool)
      requires u in working.users
      modifies this`working
      ensures ok <==> !(UserWritable(old(working), me, u) && UsernameTakenByOther(old(working), u, row.username))
      ensures working == if ok && UserWritable(old(working), me, u)
                         then old(working).(users := old(working).users[u := row]) else old(working)
    {
      ok := true;
      if UserWritable(working, me, u) {
        ok := !UsernameTakenByOther(working, u, row.username);
        if ok {
          working := working.(users := working.users[u := row]);
        }
      }
    }

    /** With everything the foreign keys take along, past row security. */
    method DeleteUser(u: UserId)
      modifies this`working
      ensures working == if u in old(working).users && UserWritable(old(working), me, u)
                         then PurgeUser(old(working), u) else old(working)
    {
      if u in working.users && UserWritable(working, me, u) {
        var owned, lists, follows := OwnedBy(working, u), ListsOwnedBy(working, u), FollowsTouching(working, u);
        working := WithoutCheckins(working, owned);
        working := WithoutLists(working, lists);
        working := WithoutFollows(working, follows);
        working := WithoutAccount(working, u);
      }
    }

    // --- follows, close friends, blocks ------------------------------------------

    method InsertFollow(follower: UserId, following: UserId) returns (ok: bool)
      requires follower != following
      modifies this`working
      ensures ok <==> (follower, following) !in old(working).follows
                      && follower in old(working).users && following in old(working).users
                      && FollowsInsert(old(working), me, follower).True?
      ensures working == if ok then old(working).(follows := old(working).follows + {(follower, following)}) else old(working)
    {
      ok := (follower, following) !in working.follows && follower in working.users && following in working.users
            && FollowsInsert(working, me, follower).True?;
      if ok {
        working := working.(follows := working.follows + {(follower, following)});
      }
    }

    method DeleteFollow(follower: UserId, following: UserId)
      modifies this`working
      ensures working == if FollowsDelete(old(working), me, follower, following).True?
                         then WithoutFollows(old(working), {(follower, following)}) else old(working)
    {
      if FollowsDelete(working, me, follower, following).True? {
        working := WithoutFollows(working, {(follower, following)});
      }
    }

    method InsertCloseFriend(owner: UserId, friend: UserId) returns (ok: bool)
      modifies this`working
      ensures ok <==> (owner, friend) !in old(working).closeFriends && (friend, owner) in old(working).follows
                      && CloseFriendWritable(old(working), me, owner, friend)
      ensures working == if ok then old(working).(closeFriends := old(working).closeFriends + {(owner, friend)}) else old(working)
    {
      ok := (owner, friend) !in working.closeFriends && (friend, owner) in working.follows
            && CloseFriendWritable(working, me, owner, friend);
      if ok {
        working := working.(closeFriends := working.closeFriends + {(owner, friend)});
      }
    }

    method DeleteCloseFriend(owner: UserId, friend: UserId)
      modifies this`working
      ensures working == if CloseFriendWritable(old(working), me, owner, friend)
                         then old(working).(closeFriends := old(working).closeFriends - {(owner, friend)}) else old(working)
    {
      if CloseFriendWritable(working, me, owner, friend) {
        working := working.(closeFriends := working.closeFriends - {(owner, friend)});
      }
    }

    method InsertBlock(blocker: UserId, blocked: UserId) returns (ok: bool)
      requires blocker != blocked
      modifies this`working
      ensures ok <==> (blocker, blocked) !in old(working).blocks && blocker in old(working).users
                      && blocked in old(working).users && BlocksAccess(old(working), me, blocker).True?
      ensures working == if ok then old(working).(blocks := old(working).blocks + {(blocker, blocked)}) else old(working)
    {
      ok := (blocker, blocked) !in working.blocks && blocker in working.users && blocked in working.users
            && BlocksAccess(working, me, blocker).True?;
      if ok {
        working := working.(blocks := working.blocks + {(blocker, blocked)});
      }
    }

    method DeleteBlock(blocker: UserId, blocked: UserId)
      modifies this`working
      ensures working == if BlocksAccess(old(working), me, blocker).True?
                         then old(working).(blocks := old(working).blocks - {(blocker, blocked)}) else old(working)
    {
      if BlocksAccess(working, me, blocker).True? {
        working := working.(blocks := working.blocks - {(blocker, blocked)});
      }
    }

    /** `rls_purge_interactions_between`: five deletes, one table after another, past row security. */
    method PurgeInteractions(a: UserId, b: UserId)
      modifies this`working
      ensures working == PurgeInteractionsBetween(old(working), a, b)
    {
      ghost var before := working;
      working := working.(checkinLikes := (set p <- working.checkinLikes | !LikeJoins(working, a, b, p)));
      working := working.(listLikes := (set p <- working.listLikes | !ListLikeJoins(working, a, b, p)));
      working := working.(checkinBookmarks := (set p <- working.checkinBookmarks | !LikeJoins(working, a, b, p)));
      working := working.(listBookmarks := (set p <- working.listBookmarks | !ListLikeJoins(working, a, b, p)));
      working := working.(notifications :=
        map id <- working.notifications | !NotificationJoins(working.notifications[id], a, b) :: working.notifications[id]);
      var purged := PurgeInteractionsBetween(before, a, b);
      assert working.listLikes == purged.listLikes;
      assert working.checkinBookmarks == purged.checkinBookmarks;
      assert working.listBookmarks == purged.listBookmarks;
      assert working.notifications == purged.notifications;
    }

    // --- notifications ------------------------------------------------------------

    method InsertNotification(id: NotificationId, n: Notification) returns (ok: bool)
      modifies this`working
      ensures ok <==> NotificationInsertable(old(working), me, id, n)
      ensures working == if ok then old(working).(notifications := old(working).notifications[id := n]) else old(working)
    {
      ok := NotificationInsertable(working, me, id, n);
      if ok {
        working := working.(notifications := working.notifications[id := n]);
      }
    }

    /** `read_at` is no policy's business, so the row passes again once it has passed. */
    method MarkNotificationRead(id: NotificationId)
      requires id in working.notifications
      modifies this`working
      ensures var n := old(working).notifications[id];
              working == if NotificationWritable(old(working), me, n)
                         then old(working).(notifications := old(working).notifications[id := n.(read := true)])
                         else old(working)
    {
      var n := working.notifications[id];
      if NotificationWritable(working, me, n) {
        working := working.(notifications := working.notifications[id := n.(read := true)]);
      }
    }

    // --- check-ins ------------------------------------------------------------------

    method InsertCheckin(c: CheckinId, row: Checkin) returns (ok: bool)
      modifies this`working
      ensures ok <==> c !in old(working).checkins && row.owner in old(working).users && row.venue in old(working).venues
                      && CheckinWritable(old(working), me, row)
      ensures working == if ok then old(working).(checkins := old(working).checkins[c := row]) else old(working)
    {
      ok := c !in working.checkins && row.owner in working.users && row.venue in working.venues
            && CheckinWritable(working, me, row);
      if ok {
        working := working.(checkins := working.checkins[c := row]);
      }
    }

    method UpdateCheckin(c: CheckinId, row: Checkin) returns (ok: bool)
      requires c in working.checkins && row.owner == working.checkins[c].owner && row.venue == working.checkins[c].venue
      modifies this`working
      ensures ok <==> (CheckinWritable(old(working), me, old(working).checkins[c]) ==> CheckinWritable(old(working), me, row))
      ensures working == if ok && CheckinWritable(old(working), me, old(working).checkins[c])
                         then old(working).(checkins := old(working).checkins[c := row]) else old(working)
    {
      ok := true;
      if CheckinWritable(working, me, working.checkins[c]) {
        ok := CheckinWritable(working, me, row);
        if ok {
          working := working.(checkins := working.checkins[c := row]);
        }
      }
    }

    method DeleteCheckin(c: CheckinId)
      requires c in working.checkins
      modifies this`working
      ensures working == if CheckinWritable(old(working), me, old(working).checkins[c])
                         then WithoutCheckins(old(working), {c}) else old(working)
    {
      if CheckinWritable(working, me, working.checkins[c]) {
        working := WithoutCheckins(working, {c});
      }
    }

    // --- lists and their items -------------------------------------------------------

    method InsertList(l: ListId, row: VenueList) returns (ok: bool)
      modifies this`working
      ensures ok <==> l !in old(working).lists && row.owner in old(working).users && ListWritable(old(working), me, row)
      ensures working == if ok then old(working).(lists := old(working).lists[l := row]) else old(working)
    {
      ok := l !in working.lists && row.owner in working.users && ListWritable(working, me, row);
      if ok {
        working := working.(lists := working.lists[l := row]);
      }
    }

    method UpdateList(l: ListId, row: VenueList) returns (ok: bool)
      requires l in working.lists && row.owner == working.lists[l].owner
      modifies this`working
      ensures ok <==> (ListWritable(old(working), me, old(working).lists[l]) ==> ListWritable(old(working), me, row))
      ensures working == if ok && ListWritable(old(working), me, old(working).lists[l])
                         then old(working).(lists := old(working).lists[l := row]) else old(working)
    {
      ok := true;
      if ListWritable(working, me, working.lists[l]) {
        ok := ListWritable(working, me, row);
        if ok {
          working := working.(lists := working.lists[l := row]);
        }
      }
    }

    method DeleteList(l: ListId)
      requires l in working.lists
      modifies this`working
      ensures working == if ListWritable(old(working), me, old(working).lists[l])
                         then WithoutLists(old(working), {l}) else old(working)
    {
      if ListWritable(working, me, working.lists[l]) {
        working := WithoutLists(working, {l});
      }
    }

    method InsertItem(row: ListItem) returns (ok: bool)
      modifies this`working
      ensures ok <==> (forall i <- old(working).items :: i.id != row.id && !(i.list == row.list && i.venue == row.venue))
                      && row.list in old(working).lists && row.venue in old(working).venues
                      && ItemWritable(old(working), me, row.list)
      ensures working == if ok then old(working).(items := old(working).items + [row]) else old(working)
    {
      ok := (forall i <- working.items :: i.id != row.id && !(i.list == row.list && i.venue == row.venue))
            && row.list in working.lists && row.venue in working.venues && ItemWritable(working, me, row.list);
      if ok {
        working := working.(items := working.items + [row]);
      }
    }

    /** Only the position changes, which no policy or key looks at. */
    method RepositionItem(k: nat, row: ListItem)
      requires k < |working.items| && row == working.items[k].(position := row.position)
      modifies this`working
      ensures working == if ItemWritable(old(working), me, row.list)
                         then old(working).(items := old(working).items[k := row]) else old(working)
    {
      if ItemWritable(working, me, working.items[k].list) {
        working := working.(items := working.items[k := row]);
      }
    }

    method DeleteItem(k: nat)
      requires k < |working.items|
      modifies this`working
      ensures working == if ItemWritable(old(working), me, old(working).items[k].list)
                         then old(working).(items := old(working).items[..k] + old(working).items[k + 1..]) else old(working)
    {
      if ItemWritable(working, me, working.items[k].list) {
        working := working.(items := working.items[..k] + working.items[k + 1..]);
      }
    }

    // --- likes and bookmarks ------------------------------------------------------------

    method InsertCheckinLike(u: UserId, c: CheckinId) returns (ok: bool)
      modifies this`working
      ensures ok <==> (u, c) !in old(working).checkinLikes && u in old(working).users
                      && CheckinLikesInsert(old(working), me, u, c).True?
      ensures working == if ok then old(working).(checkinLikes := old(working).checkinLikes + {(u, c)}) else old(working)
    {
      ok := (u, c) !in working.checkinLikes && u in working.users && CheckinLikesInsert(working, me, u, c).True?;
      if ok {
        working := working.(checkinLikes := working.checkinLikes + {(u, c)});
      }
    }

    method DeleteCheckinLike(u: UserId, c: CheckinId)
      modifies this`working
      ensures working == if CanViewCheckin(old(working), me, c).True? && ReactionOwner(old(working), me, u).True?
                         then old(working).(checkinLikes := old(working).checkinLikes - {(u, c)}) else old(working)
    {
      if CanViewCheckin(working, me, c).True? && ReactionOwner(working, me, u).True? {
        working := working.(checkinLikes := working.checkinLikes - {(u, c)});
      }
    }

    method InsertListLike(u: UserId, l: ListId) returns (ok: bool)
      modifies this`working
      ensures ok <==> (u, l) !in old(working).listLikes && u in old(working).users
                      && ListLikesInsert(old(working), me, u, l).True?
      ensures working == if ok then old(working).(listLikes := old(working).listLikes + {(u, l)}) else old(working)
    {
      ok := (u, l) !in working.listLikes && u in working.users && ListLikesInsert(working, me, u, l).True?;
      if ok {
        working := working.(listLikes := working.listLikes + {(u, l)});
      }
    }

    method DeleteListLike(u: UserId, l: ListId)
      modifies this`working
      ensures working == if CanViewList(old(working), me, l).True? && ReactionOwner(old(working), me, u).True?
                         then old(working).(listLikes := old(working).listLikes - {(u, l)}) else old(working)
    {
      if CanViewList(working, me, l).True? && ReactionOwner(working, me, u).True? {
        working := working.(listLikes := working.listLikes - {(u, l)});
      }
    }

    /** Bookmarks are read by their own user alone, so the read-back asks for no more. */
    method InsertCheckinBookmark(u: UserId, c: CheckinId) returns (ok: bool)
      modifies this`working
      ensures ok <==> (u, c) !in old(working).checkinBookmarks && u in old(working).users
                      && CheckinLikesInsert(old(working), me, u, c).True?
      ensures working == if ok then old(working).(checkinBookmarks := old(working).checkinBookmarks + {(u, c)}) else old(working)
    {
      ok := (u, c) !in working.checkinBookmarks && u in working.users && CheckinLikesInsert(working, me, u, c).True?;
      if ok {
        working := working.(checkinBookmarks := working.checkinBookmarks + {(u, c)});
      }
    }

    method DeleteCheckinBookmark(u: UserId, c: CheckinId)
      modifies this`working
      ensures working == if ReactionOwner(old(working), me, u).True?
                         then old(working).(checkinBookmarks := old(working).checkinBookmarks - {(u, c)}) else old(working)
    {
      if ReactionOwner(working, me, u).True? {
        working := working.(checkinBookmarks := working.checkinBookmarks - {(u, c)});
      }
    }

    method InsertListBookmark(u: UserId, l: ListId) returns (ok: bool)
      modifies this`working
      ensures ok <==> (u, l) !in old(working).listBookmarks && u in old(working).users
                      && ListLikesInsert(old(working), me, u, l).True?
      ensures working == if ok then old(working).(listBookmarks := old(working).listBookmarks + {(u, l)}) else old(working)
    {
      ok := (u, l) !in working.listBookmarks && u in working.users && ListLikesInsert(working, me, u, l).True?;
      if ok {
        working := working.(listBookmarks := working.listBookmarks + {(u, l)});
      }
    }

    method DeleteListBookmark(u: UserId, l: ListId)
      modifies this`working
      ensures working == if ReactionOwner(old(working), me, u).True?
                         then old(working).(listBookmarks := old(working).listBookmarks - {(u, l)}) else old(working)
    {
      if ReactionOwner(working, me, u).True? {
        working := working.(listBookmarks := working.listBookmarks - {(u, l)});
      }
    }

    // --- venues ---------------------------------------------------------------------------

    method InsertVenue(v: VenueId, row: Venue) returns (ok: bool)
      modifies this`working
      ensures ok <==> v !in old(working).venues && row.category in old(working).categories
                      && KnownOrNull(old(working).users.Keys, row.addedBy)
                      && !GoogleIdTaken(old(working), row.googleId)
                      && VenuesInsert(me).True? && VenuesSelect(old(working), me, row).True?
      ensures working == if ok then old(working).(venues := old(working).venues[v := row]) else old(working)
    {
      ok := v !in working.venues && row.category in working.categories && KnownOrNull(working.users.Keys, row.addedBy)
            && !GoogleIdTaken(working, row.googleId) && VenuesInsert(me).True? && VenuesSelect(working, me, row).True?;
      if ok {
        working := working.(venues := working.venues[v := row]);
      }
    }

    /** Flags only: neither key nor Google id is edited anywhere. */
    method UpdateVenue(v: VenueId, row: Venue) returns (ok: bool)
      requires v in working.venues
      requires var was := working.venues[v];
               row == was.(verified := row.verified, active := row.active, suspended := row.suspended)
      modifies this`working
      ensures ok <==> (VenueWritable(old(working), me, old(working).venues[v]) ==> VenueWritable(old(working), me, row))
      ensures working == if ok && VenueWritable(old(working), me, old(working).venues[v])
                         then old(working).(venues := old(working).venues[v := row]) else old(working)
    {
      ok := true;
      if VenueWritable(working, me, working.venues[v]) {
        ok := VenueWritable(working, me, row);
        if ok {
          working := working.(venues := working.venues[v := row]);
        }
      }
    }

    /** `rls_verify_venue_if_eligible`: a guarded update past row security. */
    method VerifyVenue(v: VenueId, minCheckins: nat)
      modifies this`working
      ensures working == VerifyIfEligible(old(working), v, minCheckins)
    {
      if v in working.venues && !working.venues[v].verified && working.venues[v].googleId.Some? {
        var visitors := PublicVisitors(working, v);
        if |visitors| >= minCheckins {
          working := working.(venues := working.venues[v := working.venues[v].(verified := true)]);
        }
      }
    }
  }
}
