/** Properties of whole runs: what a venue or an account carries from one request to the
    next, and what its present state says about its past. */
module Histories {
  import opened Wrappers
  import opened Schema
  import opened Content
  import opened Social
  import opened Accounts
  import opened Venues
  import opened Requests

  // --- who touches accounts and venues -------------------------------------------

  ghost predicate Untouched(db: Db, out: Outcome) {
    After(db, out).users == db.users && After(db, out).venues == db.venues
  }

  lemma FollowLeaves(db: Db, me: Option<UserId>, follower: UserId, following: UserId, n: NotificationId)
    ensures Untouched(db, FollowUser(db, me, follower, following, n))
  {
  }

  lemma BlockLeaves(db: Db, me: Option<UserId>, blocker: UserId, blocked: UserId)
    ensures Untouched(db, CreateBlock(db, me, blocker, blocked))
  {
  }

  lemma BefriendingLeaves(db: Db, me: Option<UserId>, owner: UserId, friend: UserId)
    ensures Untouched(db, AddCloseFriend(db, me, owner, friend))
  {
  }

  lemma UnfriendingLeaves(db: Db, me: Option<UserId>, owner: UserId, friend: UserId)
    ensures Untouched(db, RemoveCloseFriend(db, me, owner, friend))
  {
  }

  lemma UnfollowingLeaves(db: Db, me: Option<UserId>, a: UserId, b: UserId)
    ensures Untouched(db, UnfollowUser(db, me, a, b))
  {
  }

  lemma UnblockingLeaves(db: Db, me: Option<UserId>, a: UserId, b: UserId)
    ensures Untouched(db, RemoveBlock(db, me, a, b))
  {
  }

  lemma ReadingLeaves(db: Db, me: Option<UserId>, u: UserId)
    ensures Untouched(db, MarkAllNotificationsRead(db, me, u))
  {
  }

  lemma SocialLeaves(db: Db, me: UserId, call: SocialCall)
    ensures Untouched(db, ServeSocial(db, me, call))
  {
    match call {
      case Follow(u, n) => FollowLeaves(db, Some(me), me, u, n);
      case Unfollow(u) => UnfollowingLeaves(db, Some(me), me, u);
      case RemoveFollower(u) => UnfollowingLeaves(db, Some(me), u, me);
      case AddFriend(u) => BefriendingLeaves(db, Some(me), me, u);
      case RemoveFriend(u) => UnfriendingLeaves(db, Some(me), me, u);
      case Block(u) => BlockLeaves(db, Some(me), me, u);
      case Unblock(u) => UnblockingLeaves(db, Some(me), me, u);
      case ReadNotifications => ReadingLeaves(db, Some(me), me);
    }
  }

  lemma CheckinsLeave(db: Db, me: UserId, call: CheckinCall)
    requires me in db.users
    ensures Untouched(db, ServeCheckin(db, me, call))
  {
  }

  lemma ListsLeave(db: Db, me: UserId, call: ListCall)
    requires me in db.users
    ensures Untouched(db, ServeList(db, me, call))
  {
  }

  lemma NotifyingLeaves(db: Db, me: Option<UserId>, id: NotificationId, n: Notification)
    ensures Untouched(db, NotifyAndCommit(db, me, id, n))
  {
  }

  lemma LikeLeaves(db: Db, me: UserId, c: CheckinId, n: NotificationId)
    requires me in db.users
    ensures Untouched(db, LikeCheckin(db, me, c, n))
  {
    NotifyingLeaves(db.(checkinLikes := db.checkinLikes + {(me, c)}), Some(me), n,
                    Notification(if c in db.checkins then db.checkins[c].owner else me, Some(me), CheckinTarget(c), false));
  }

  lemma ListLikeLeaves(db: Db, me: UserId, l: ListId, n: NotificationId)
    requires me in db.users
    ensures Untouched(db, LikeList(db, me, l, n))
  {
    NotifyingLeaves(db.(listLikes := db.listLikes + {(me, l)}), Some(me), n,
                    Notification(if l in db.lists then db.lists[l].owner else me, Some(me), ListTarget(l), false));
  }

  lemma LikesLeave(db: Db, me: UserId, call: LikeCall)
    requires me in db.users
    ensures Untouched(db, ServeLike(db, me, call))
  {
    match call {
      case Like(c, n) => LikeLeaves(db, me, c, n);
      case Unlike(_) =>
      case LikeOfList(l, n) => ListLikeLeaves(db, me, l, n);
      case UnlikeOfList(_) =>
    }
  }

  lemma BookmarksLeave(db: Db, me: UserId, call: BookmarkCall)
    requires me in db.users
    ensures Untouched(db, ServeBookmark(db, me, call))
  {
  }

  /** Only account and venue calls write accounts or venues. */
  lemma OtherCallsLeave(db: Db, me: UserId, near: Near, call: Call)
    requires me in db.users && !call.ForAccount? && !call.ForVenue?
    ensures Untouched(db, Serve(db, me, near, call))
  {
    match call {
      case ForSocial(c) => SocialLeaves(db, me, c);
      case ForCheckin(c) => CheckinsLeave(db, me, c);
      case ForList(c) => ListsLeave(db, me, c);
      case ForLike(c) => LikesLeave(db, me, c);
      case ForBookmark(c) => BookmarksLeave(db, me, c);
    }
  }

  lemma VenueCallsLeaveAccounts(db: Db, me: UserId, near: Near, call: VenueCall)
    requires me in db.users
    ensures After(db, ServeVenue(db, me, near, call)).users == db.users
  {
  }

  /** Account calls touch a venue's attribution at most. */
  lemma AccountCallsCarry(db: Db, me: UserId, call: AccountCall, v: VenueId)
    requires me in db.users
    ensures var d := After(db, ServeAccount(db, me, call));
            && (v in d.venues <==> v in db.venues)
            && (v in db.venues ==>
                  d.venues[v] == db.venues[v].(addedBy := d.venues[v].addedBy))
  {
  }

  /** Signing in writes at most the caller's own account, and makes nobody an admin. */
  lemma SigningInLeaves(db: Db, me: UserId, fallback: string)
    ensures var d := SignIn(db, me, fallback);
            && d == db.(users := d.users)
            && (me in d.users && d.users[me].role.Admin? ==> me in db.users && db.users[me].role.Admin?)
  {
  }

  // --- venues are never taken back -----------------------------------------------

  /** What no request undoes about a venue. */
  predicate Carries(before: Db, after: Db, v: VenueId)
    requires v in before.venues
  {
    && v in after.venues
    && after.venues[v].place == before.venues[v].place
    && after.venues[v].googleId == before.venues[v].googleId
    && (before.venues[v].verified ==> after.venues[v].verified)
    && (before.venues[v].suspended ==> after.venues[v].suspended)
  }

  lemma ExecCarries(db: Db, near: Near, r: Request, v: VenueId)
    requires v in db.venues
    ensures Carries(db, Exec(db, near, r), v)
  {
    hide Serve;
    if r.SignedIn? && !GetCurrentUser(db, r.me, r.fallback).Raised? {
      SigningInLeaves(db, r.me, r.fallback);
      ServeCarries(SignIn(db, r.me, r.fallback), r.me, near, r.call, v);
    }
  }

  lemma VenueCallsCarry(db: Db, me: UserId, near: Near, call: VenueCall, v: VenueId)
    requires me in db.users && v in db.venues
    ensures Carries(db, After(db, ServeVenue(db, me, near, call)), v)
  {
    hide SeesNearby, SeesGoogleId, GoogleIdTaken, SeenPublicVisitors;
  }

  lemma ServeCarries(db: Db, me: UserId, near: Near, call: Call, v: VenueId)
    requires me in db.users && v in db.venues
    ensures Carries(db, After(db, Serve(db, me, near, call)), v)
  {
    match call {
      case ForAccount(c) => AccountCallsCarry(db, me, c, v);
      case ForVenue(c) => VenueCallsCarry(db, me, near, c, v);
      case _ => OtherCallsLeave(db, me, near, call);
    }
  }

  lemma {:induction false} RunCarries(db: Db, near: Near, rs: seq<Request>, k: nat, v: VenueId)
    requires k <= |rs| && v in Run(db, near, rs[..k]).venues
    ensures Carries(Run(db, near, rs[..k]), Run(db, near, rs), v)
  {
    if k == |rs| {
      assert rs[..k] == rs;
    } else {
      var front := rs[..|rs| - 1];
      assert front[..k] == rs[..k];
      RunCarries(db, near, front, k, v);
      ExecCarries(Run(db, near, front), near, rs[|rs| - 1], v);
    }
  }

  // --- verification ----------------------------------------------------------------

  /** An admin's own count misses nobody. */
  lemma AdminSeesEveryVisitor(db: Db, me: UserId, v: VenueId)
    requires me in db.users && db.users[me].role.Admin?
    ensures SeenPublicVisitors(db, Some(me), v) == PublicVisitors(db, v)
  {
  }

  lemma ServeVerifies(db: Db, me: UserId, near: Near, call: Call, v: VenueId)
    requires me in db.users
    requires var d := After(db, Serve(db, me, near, call)); v in d.venues && d.venues[v].verified
    requires v in db.venues ==> !db.venues[v].verified
    ensures v in db.venues && |PublicVisitors(db, v)| >= MIN_CHECKINS_FOR_ADMIN_VERIFICATION
    ensures call == ForVenue(Verify(v)) && db.users[me].role.Admin?
  {
    match call {
      case ForAccount(c) => AccountCallsCarry(db, me, c, v);
      case ForVenue(c) => VenueCallVerifies(db, me, near, c, v);
      case _ => OtherCallsLeave(db, me, near, call);
    }
  }

  lemma DeletionVerifiesNothing(db: Db, u: UserId, v: VenueId)
    ensures var d := After(db, DeleteAccount(db, Some(u), u));
            && (v in d.venues <==> v in db.venues)
            && (v in db.venues ==> d.venues[v].verified == db.venues[v].verified)
  {
  }

  /** Only an admin's confirmation makes a committed venue verified, at five visitors or more. */
  lemma OnlyAdminsCommitVerification(db: Db, near: Near, r: Request, v: VenueId)
    requires v in Exec(db, near, r).venues && Exec(db, near, r).venues[v].verified
    requires v in db.venues ==> !db.venues[v].verified
    ensures v in db.venues && |PublicVisitors(db, v)| >= MIN_CHECKINS_FOR_ADMIN_VERIFICATION
    ensures r.SignedIn? && r.call == ForVenue(Verify(v)) && r.me in db.users && db.users[r.me].role.Admin?
  {
    hide Serve;
    match r {
      case SignedIn(me, fallback, call) =>
        SigningInLeaves(db, me, fallback);
        ServeVerifies(SignIn(db, me, fallback), me, near, call, v);
      case Provisioned(_, _) => assert false;
      case ProviderDeleted(id) => DeletionVerifiesNothing(db, id, v);
    }
  }

  lemma VenueCallVerifies(db: Db, me: UserId, near: Near, call: VenueCall, v: VenueId)
    requires me in db.users
    requires var d := After(db, ServeVenue(db, me, near, call)); v in d.venues && d.venues[v].verified
    requires v in db.venues ==> !db.venues[v].verified
    ensures v in db.venues && |PublicVisitors(db, v)| >= MIN_CHECKINS_FOR_ADMIN_VERIFICATION
    ensures call == Verify(v) && db.users[me].role.Admin?
  {
    if call == Verify(v) && db.users[me].role.Admin? { AdminSeesEveryVisitor(db, me, v); }
  }

  /** In any run, a venue that ends up verified had five distinct public visitors in some
      earlier committed state. */
  lemma {:induction false} VerifiedHadVisitors(db: Db, near: Near, rs: seq<Request>, v: VenueId)
    requires v in Run(db, near, rs).venues && Run(db, near, rs).venues[v].verified
    requires v in db.venues ==> !db.venues[v].verified
    ensures exists k :: 0 <= k < |rs|
              && |PublicVisitors(Run(db, near, rs[..k]), v)| >= MIN_CHECKINS_FOR_ADMIN_VERIFICATION
  {
    hide Exec;
    assert rs != [];
    var front := rs[..|rs| - 1];
    var before := Run(db, near, front);
    if v in before.venues && before.venues[v].verified {
      VerifiedHadVisitors(db, near, front, v);
      var k :| 0 <= k < |front| && |PublicVisitors(Run(db, near, front[..k]), v)| >= MIN_CHECKINS_FOR_ADMIN_VERIFICATION;
      assert rs[..k] == front[..k];
    } else {
      OnlyAdminsCommitVerification(before, near, rs[|rs| - 1], v);
    }
  }

  /** A session's transaction beside what it has committed. */
  datatype Views = Views(committed: Db, working: Db)

  /** `create_checkin` in a fresh session: the check-in is committed, then the venue is
      evaluated in the transaction that follows. */
  function CreateCheckinInSession(db: Db, me: Option<UserId>, id: CheckinId, row: Checkin): Views {
    match CreateCheckin(db, me, id, row)
    case Committed(d) => Views(d, EvaluateAfterCheckin(d, row))
    case _ => Views(db, db)
  }

  /** `get_session` closes the session without committing: whatever is pending is rolled back. */
  function Closed(v: Views): Db { v.committed }

  /** Inside the session, right after a public check-in, the venue is verified exactly when it
      already was or it has a Google id and three distinct public visitors. */
  lemma VerifiedInSession(db: Db, me: Option<UserId>, id: CheckinId, row: Checkin)
    requires CreateCheckin(db, me, id, row).Committed? && row.visibility.Public?
    ensures var s := CreateCheckinInSession(db, me, id, row);
            && row.owner in PublicVisitors(s.committed, row.venue)
            && row.venue in db.venues
            && (s.working.venues[row.venue].verified <==>
                || db.venues[row.venue].verified
                || (&& db.venues[row.venue].googleId.Some?
                    && |PublicVisitors(s.committed, row.venue)| >= 3))
  {
    var d := CreateCheckinInSession(db, me, id, row).committed;
    assert id in d.checkins && d.checkins[id] == row;
  }

  /** Once the request is over that verification is gone: whoever signs in to check in, newly
      created and reactivated accounts included, leaves the venue verified exactly when it was
      verified before. */
  lemma VerificationIsNotCommitted(db: Db, near: Near, me: UserId, fallback: string, id: CheckinId, v: VenueId,
                                   shown: Visibility, text: string)
    requires !GetCurrentUser(db, me, fallback).Raised? && v in db.venues
    ensures var s := CreateCheckinInSession(SignIn(db, me, fallback), Some(me), id, Checkin(me, v, shown, false, text));
            && Closed(s) == Exec(db, near, SignedIn(me, fallback, ForCheckin(NewCheckin(id, v, shown, text))))
            && v in Closed(s).venues && Closed(s).venues[v].verified == db.venues[v].verified
  {
    var d := SignIn(db, me, fallback);
    SigningInLeaves(db, me, fallback);
    CheckinsLeave(d, me, NewCheckin(id, v, shown, text));
  }

  /** A Google-matched venue with two public visitors and a third account about to visit. */
  function TwoVisitors(): Db {
    var user := User(Member, Active, "a", None, "");
    Db(map[1 := user, 2 := user.(username := "b"), 3 := user.(username := "c")], {}, {}, {}, {},
       map[1 := Checkin(1, 7, Public, false, ""), 2 := Checkin(2, 7, Public, false, "")], map[], [], {}, {}, {}, {}, map[],
       {9}, map[7 := Venue(9, None, Some("place"), Place(0.0, 0.0), false, true, false)], map[], map[], map[])
  }

  /** The third visit verifies the venue for its own session only. */
  lemma ThirdVisitIsForgotten()
    ensures var s := CreateCheckinInSession(TwoVisitors(), Some(3), 3, Checkin(3, 7, Public, false, ""));
            && s.working.venues[7].verified
            && !Closed(s).venues[7].verified
            && |PublicVisitors(Closed(s), 7)| == MIN_CHECKINS_FOR_AUTO_VERIFICATION
  {
    var row := Checkin(3, 7, Public, false, "");
    var s := CreateCheckinInSession(TwoVisitors(), Some(3), 3, row);
    var d := s.committed;
    assert CreateCheckin(TwoVisitors(), Some(3), 3, row).Committed?;
    assert PublicVisitors(d, 7) == {1, 2, 3} by {
      assert d.checkins[1].owner == 1 && d.checkins[2].owner == 2 && d.checkins[3].owner == 3;
    }
    VerifiedInSession(TwoVisitors(), Some(3), 3, row);
  }

  // --- duplicates --------------------------------------------------------------------

  /** Request `k` of the run brought venue `w` into being, with this confirmation. */
  ghost predicate CreatedAt(db: Db, near: Near, rs: seq<Request>, k: nat, w: VenueId, confirmed: bool)
    requires k < |rs|
  {
    && w !in Run(db, near, rs[..k]).venues
    && w in Run(db, near, rs[..k + 1]).venues
    && rs[k].SignedIn? && rs[k].call.ForVenue? && rs[k].call.venue.NewVenue?
    && rs[k].call.venue.confirmDuplicate == confirmed
  }

  lemma NewVenueHasNoNeighbour(db: Db, me: UserId, near: Near, call: VenueCall, v: VenueId, w: VenueId)
    requires me in db.users
    requires var d := After(db, ServeVenue(db, me, near, call));
             w !in db.venues && w in d.venues && v in db.venues && near(db.venues[v].place, d.venues[w].place)
    requires v in db.venues && !db.venues[v].suspended
    ensures call.NewVenue? && call.confirmDuplicate
  {
  }

  lemma ServeHasNoNeighbour(db: Db, me: UserId, near: Near, call: Call, v: VenueId, w: VenueId)
    requires me in db.users
    requires var d := After(db, Serve(db, me, near, call));
             w !in db.venues && w in d.venues && v in db.venues && near(db.venues[v].place, d.venues[w].place)
    requires v in db.venues && !db.venues[v].suspended
    ensures call.ForVenue? && call.venue.NewVenue? && call.venue.confirmDuplicate
  {
    match call {
      case ForAccount(c) => AccountCallsCarry(db, me, c, w);
      case ForVenue(c) => NewVenueHasNoNeighbour(db, me, near, c, v, w);
      case _ => OtherCallsLeave(db, me, near, call);
    }
  }

  lemma UnconfirmedHasNoNeighbour(db: Db, near: Near, r: Request, v: VenueId, w: VenueId)
    requires w !in db.venues && w in Exec(db, near, r).venues
    requires v in db.venues && !db.venues[v].suspended
    requires near(db.venues[v].place, Exec(db, near, r).venues[w].place)
    ensures r.SignedIn? && r.call.ForVenue? && r.call.venue.NewVenue? && r.call.venue.confirmDuplicate
  {
    hide Serve;
    match r {
      case SignedIn(me, fallback, call) =>
        SigningInLeaves(db, me, fallback);
        ServeHasNoNeighbour(SignIn(db, me, fallback), me, near, call, v, w);
      case Provisioned(_, _) => assert false;
      case ProviderDeleted(id) => DeletionVerifiesNothing(db, id, w);
    }
  }

  /** Of two venues in reach of each other and both unsuspended now, the later was created
      with an explicit confirmation. The check cannot see a suspended venue; that
      suspension is never undone is what closes the gap. */
  lemma LaterNeighbourWasConfirmed(db: Db, near: Near, rs: seq<Request>, k: nat, v: VenueId, w: VenueId)
    requires k < |rs| && v in Run(db, near, rs[..k]).venues
    requires w !in Run(db, near, rs[..k]).venues && w in Run(db, near, rs[..k + 1]).venues
    requires var last := Run(db, near, rs);
             && v in last.venues && w in last.venues
             && !last.venues[v].suspended && !last.venues[w].suspended
             && near(last.venues[v].place, last.venues[w].place)
    ensures CreatedAt(db, near, rs, k, w, true)
  {
    var before, after := Run(db, near, rs[..k]), Run(db, near, rs[..k + 1]);
    RunCarries(db, near, rs, k, v);
    RunCarries(db, near, rs, k + 1, w);
    assert after == Exec(before, near, rs[k]) by { assert rs[..k + 1][..k] == rs[..k]; }
    UnconfirmedHasNoNeighbour(before, near, rs[k], v, w);
  }

  // --- accounts ----------------------------------------------------------------------

  /** A suspended account's request changes nothing at all. */
  lemma SuspendedCannotWrite(db: Db, near: Near, u: UserId, fallback: string, call: Call)
    requires u in db.users && db.users[u].status.Suspended?
    ensures Exec(db, near, SignedIn(u, fallback, call)) == db
  {
  }

  /** The id belongs to one account only: once the account is gone, no other gets the id. */
  ghost predicate IssuedOnce(db: Db, near: Near, rs: seq<Request>, u: UserId) {
    forall i, j, k | 0 <= i <= j <= k <= |rs| && u in Run(db, near, rs[..i]).users && u in Run(db, near, rs[..k]).users ::
      u in Run(db, near, rs[..j]).users
  }

  lemma FrontIssuedOnce(db: Db, near: Near, rs: seq<Request>, u: UserId)
    requires rs != [] && IssuedOnce(db, near, rs, u)
    ensures IssuedOnce(db, near, rs[..|rs| - 1], u)
  {
    hide Exec;
    var front := rs[..|rs| - 1];
    forall i, j, k | 0 <= i <= j <= k <= |front| && u in Run(db, near, front[..i]).users && u in Run(db, near, front[..k]).users
      ensures u in Run(db, near, front[..j]).users
    {
      assert front[..i] == rs[..i] && front[..j] == rs[..j] && front[..k] == rs[..k];
    }
  }

  /** What a signed-in caller's call may do to an account that exists before and after it. */
  ghost predicate AccountStep(before: User, after: User, me: UserId, call: Call, u: UserId) {
    && (before.status.Suspended? ==> after.status.Suspended?)
    && (if after.username != before.username then
          && me == u && call.ForAccount? && call.account.Edit?
          && !TooSoon(before, call.account.now)
          && after.usernameChangedAt == Some(call.account.now)
        else after.usernameChangedAt == before.usernameChangedAt)
  }

  /** The provider's events leave a lasting account alone. */
  ghost predicate RequestStep(before: User, after: User, r: Request, u: UserId) {
    if r.SignedIn? then AccountStep(before, after, r.me, r.call, u) else after == before
  }

  lemma EditSteps(db: Db, me: UserId, name: Option<string>, text: Option<string>, now: int, u: UserId)
    requires me in db.users
    ensures var d := After(db, UpdateProfile(db, me, name, text, now));
            u in d.users ==>
              u in db.users && AccountStep(db.users[u], d.users[u], me, ForAccount(Edit(name, text, now)), u)
  {
    var d := After(db, UpdateProfile(db, me, name, text, now));
    if u == me {
      EditedRow(db, me, name, text, now);
    } else {
      assert u in d.users ==> u in db.users && d.users[u] == db.users[u];
    }
  }

  lemma EditedRow(db: Db, me: UserId, name: Option<string>, text: Option<string>, now: int)
    requires me in db.users
    ensures var d := After(db, UpdateProfile(db, me, name, text, now));
            && me in d.users && d.users[me].status == db.users[me].status
            && (if d.users[me].username != db.users[me].username
                then !TooSoon(db.users[me], now) && d.users[me].usernameChangedAt == Some(now)
                else d.users[me].usernameChangedAt == db.users[me].usernameChangedAt)
  {
    var out := UpdateProfile(db, me, name, text, now);
    if out.Committed? {
      var row := out.db.users[me];
      assert out.db.users == db.users[me := row];
    }
  }

  lemma SuspendSteps(db: Db, me: UserId, other: UserId, u: UserId)
    requires me in db.users
    ensures var d := After(db, SuspendAccount(db, me, other));
            u in d.users ==> u in db.users && AccountStep(db.users[u], d.users[u], me, ForAccount(Suspend(other)), u)
  {
  }

  lemma DeletionSteps(db: Db, me: UserId, u: UserId)
    ensures var d := After(db, DeleteAccount(db, Some(me), me));
            u in d.users ==> u in db.users && d.users[u] == db.users[u]
  {
  }

  lemma AccountCallSteps(db: Db, me: UserId, call: AccountCall, u: UserId)
    requires me in db.users && !db.users[me].status.Suspended?
    ensures var d := After(db, ServeAccount(db, me, call));
            && (u in d.users ==> u in db.users && AccountStep(db.users[u], d.users[u], me, ForAccount(call), u))
  {
    match call {
      case Edit(name, text, now) => EditSteps(db, me, name, text, now, u);
      case Freeze =>
      case Suspend(other) => SuspendSteps(db, me, other, u);
      case DeleteMe => DeletionSteps(db, me, u);
    }
  }

  lemma SigningInSteps(db: Db, me: UserId, fallback: string, u: UserId)
    requires u in db.users
    ensures var d := SignIn(db, me, fallback);
            && u in d.users
            && (d.users[u].status.Suspended? <==> db.users[u].status.Suspended?)
            && d.users[u] == db.users[u].(status := d.users[u].status)
  {
    if u != me || !db.users[u].status.Frozen? {
      assert u in SignIn(db, me, fallback).users && SignIn(db, me, fallback).users[u] == db.users[u];
    }
  }

  lemma ServeSteps(db: Db, me: UserId, near: Near, call: Call, u: UserId)
    requires me in db.users && !db.users[me].status.Suspended?
    ensures var d := After(db, Serve(db, me, near, call));
            u in d.users ==> u in db.users && AccountStep(db.users[u], d.users[u], me, call, u)
  {
    match call {
      case ForAccount(c) => AccountCallSteps(db, me, c, u);
      case ForVenue(c) => VenueCallsLeaveAccounts(db, me, near, c);
      case _ => OtherCallsLeave(db, me, near, call);
    }
  }

  lemma SignedInSteps(db: Db, near: Near, me: UserId, fallback: string, call: Call, u: UserId)
    requires u in db.users
    ensures var d := Exec(db, near, SignedIn(me, fallback, call));
            u in d.users ==> AccountStep(db.users[u], d.users[u], me, call, u)
  {
    hide Serve;
    if !GetCurrentUser(db, me, fallback).Raised? {
      SigningInSteps(db, me, fallback, u);
      ServeSteps(SignIn(db, me, fallback), me, near, call, u);
    }
  }

  lemma ProvisionSteps(db: Db, id: UserId, name: string, u: UserId)
    requires u in db.users
    ensures var d := After(db, Provision(db, id, name));
            u in d.users && d.users[u] == db.users[u]
  {
  }

  lemma ExecSteps(db: Db, near: Near, r: Request, u: UserId)
    requires u in db.users
    ensures var d := Exec(db, near, r);
            u in d.users ==> RequestStep(db.users[u], d.users[u], r, u)
  {
    match r {
      case SignedIn(me, fallback, call) => SignedInSteps(db, near, me, fallback, call, u);
      case Provisioned(id, name) => ProvisionSteps(db, id, name, u);
      case ProviderDeleted(id) => DeletionSteps(db, id, u);
    }
  }

  /** Suspension is final: whatever follows, the account is suspended or deleted. */
  lemma {:induction false} SuspendedForGood(db: Db, near: Near, rs: seq<Request>, k: nat, u: UserId)
    requires k <= |rs| && IssuedOnce(db, near, rs, u)
    requires u in Run(db, near, rs[..k]).users && Run(db, near, rs[..k]).users[u].status.Suspended?
    ensures u in Run(db, near, rs).users ==> Run(db, near, rs).users[u].status.Suspended?
  {
    hide Exec;
    if k == |rs| {
      assert rs[..k] == rs;
    } else {
      var n := |rs| - 1;
      assert rs[..n][..k] == rs[..k] && rs[..|rs|] == rs;
      FrontIssuedOnce(db, near, rs, u);
      SuspendedForGood(db, near, rs[..n], k, u);
      if u in Run(db, near, rs).users {
        assert u in Run(db, near, rs[..n]).users;
        ExecSteps(Run(db, near, rs[..n]), near, rs[n], u);
      }
    }
  }

  /** The request changed the account's handle. */
  predicate Renames(db: Db, near: Near, r: Request, u: UserId) {
    && u in db.users && u in Exec(db, near, r).users
    && Exec(db, near, r).users[u].username != db.users[u].username
  }

  /** When the account's handle changed over a run, by the service's own clock. */
  ghost function RenameTimes(db: Db, near: Near, rs: seq<Request>, u: UserId): seq<int> {
    if rs == [] then []
    else
      var front, last := rs[..|rs| - 1], rs[|rs| - 1];
      RenameTimes(db, near, front, u)
      + (if Renames(Run(db, near, front), near, last, u) && last.SignedIn? && last.call.ForAccount? && last.call.account.Edit?
         then [last.call.account.now] else [])
  }

  /** How many requests of the run changed the account's handle. */
  ghost function RenameCount(db: Db, near: Near, rs: seq<Request>, u: UserId): nat {
    if rs == [] then 0
    else
      var front := rs[..|rs| - 1];
      RenameCount(db, near, front, u) + (if Renames(Run(db, near, front), near, rs[|rs| - 1], u) then 1 else 0)
  }

  /** No handle changes but through the account's own profile edits. */
  lemma {:induction false} EveryRenameIsTimed(db: Db, near: Near, rs: seq<Request>, u: UserId)
    ensures |RenameTimes(db, near, rs, u)| == RenameCount(db, near, rs, u)
  {
    if rs != [] {
      var front, last := rs[..|rs| - 1], rs[|rs| - 1];
      EveryRenameIsTimed(db, near, front, u);
      if u in Run(db, near, front).users { ExecSteps(Run(db, near, front), near, last, u); }
    }
  }

  ghost predicate Spaced(ts: seq<int>) {
    forall i | 0 <= i < |ts| - 1 :: ts[i] + USERNAME_CHANGE_INTERVAL <= ts[i + 1]
  }

  /** The account's own stamp is the time of its last handle change. */
  predicate Stamped(d: Db, u: UserId, ts: seq<int>) {
    ts != [] && u in d.users ==> d.users[u].usernameChangedAt == Some(ts[|ts| - 1])
  }

  lemma OneMoreRename(db: Db, near: Near, r: Request, u: UserId, ts: seq<int>)
    requires Spaced(ts) && Stamped(db, u, ts)
    requires ts != [] && u in Exec(db, near, r).users ==> u in db.users
    ensures if Renames(db, near, r, u)
            then
              && r.SignedIn? && r.call.ForAccount? && r.call.account.Edit?
              && Spaced(ts + [r.call.account.now]) && Stamped(Exec(db, near, r), u, ts + [r.call.account.now])
            else Stamped(Exec(db, near, r), u, ts)
  {
    if u in db.users { ExecSteps(db, near, r, u); }
  }

  /** A handle that has changed belonged to an account at some point of the run. */
  lemma {:induction false} RenamedExisted(db: Db, near: Near, rs: seq<Request>, u: UserId) returns (i: nat)
    requires RenameTimes(db, near, rs, u) != []
    ensures i < |rs| && u in Run(db, near, rs[..i]).users
  {
    hide Exec;
    i := |rs| - 1;
    var front := rs[..i];
    if RenameTimes(db, near, front, u) != [] {
      i := RenamedExisted(db, near, front, u);
      assert front[..i] == rs[..i];
    }
  }

  lemma {:induction false} RenamesAreSpaced(db: Db, near: Near, rs: seq<Request>, u: UserId)
    requires IssuedOnce(db, near, rs, u)
    ensures Spaced(RenameTimes(db, near, rs, u)) && Stamped(Run(db, near, rs), u, RenameTimes(db, near, rs, u))
  {
    hide Exec;
    if rs != [] {
      var n := |rs| - 1;
      var ts := RenameTimes(db, near, rs[..n], u);
      FrontIssuedOnce(db, near, rs, u);
      RenamesAreSpaced(db, near, rs[..n], u);
      if ts != [] && u in Run(db, near, rs).users {
        var i := RenamedExisted(db, near, rs[..n], u);
        assert rs[..n][..i] == rs[..i] && rs[..|rs|] == rs;
        assert u in Run(db, near, rs[..n]).users;
      }
      assert ts + [] == ts;
      OneMoreRename(Run(db, near, rs[..n]), near, rs[n], u, ts);
    }
  }

  /** `k` handle changes by one account take at least `k - 1` times thirty days, whatever the
      clock does. */
  lemma RenamesTakeTime(db: Db, near: Near, rs: seq<Request>, u: UserId)
    requires IssuedOnce(db, near, rs, u) && RenameTimes(db, near, rs, u) != []
    ensures var ts := RenameTimes(db, near, rs, u);
            ts[|ts| - 1] - ts[0] >= (RenameCount(db, near, rs, u) - 1) * 2592000
  {
    hide Exec, Run, RenameTimes, RenameCount, Spaced;
    EveryRenameIsTimed(db, near, rs, u);
    RenamesAreSpaced(db, near, rs, u);
    SpacedSpan(RenameTimes(db, near, rs, u));
  }

  lemma {:induction false} SpacedSpan(ts: seq<int>)
    requires ts != [] && Spaced(ts)
    ensures ts[|ts| - 1] - ts[0] >= (|ts| - 1) * USERNAME_CHANGE_INTERVAL
  {
    if |ts| > 1 {
      var front := ts[..|ts| - 1];
      SpacedSpan(front);
      assert ts[|ts| - 2] + USERNAME_CHANGE_INTERVAL <= ts[|ts| - 2 + 1];
    }
  }
}
