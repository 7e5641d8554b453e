/** The tables the services share, as one immutable database state, and the
    constraints the schema declares on them. */
module Schema {
  import opened Wrappers
  import opened FractionalKeys

  type UserId = int
  type VenueId = int
  type CheckinId = int
  type ListId = int
  type ItemId = int
  type NotificationId = int
  type CategoryId = int
  type ReportId = int
  type SaveId = int

  datatype Role = Member | Admin
  datatype Status = Active | Frozen | Suspended

  /** The three tiers a `visibility` column allows. `Unrecognised` stands for any
      other string reaching the code, which both layers treat as hidden. */
  datatype Visibility = Public | CloseFriends | Private | Unrecognised

  datatype User = User(role: Role, status: Status, username: string,
                       usernameChangedAt: Option<int>, profile: string)

  /** `deleted` is `deleted_at IS NOT NULL`; `content` stands for the other editable columns. */
  datatype Checkin = Checkin(owner: UserId, venue: VenueId, visibility: Visibility,
                             deleted: bool, content: string)

  datatype VenueList = VenueList(owner: UserId, visibility: Visibility, content: string)

  datatype ListItem = ListItem(id: ItemId, list: ListId, venue: VenueId, position: Key)

  datatype Place = Place(lat: real, lng: real)

  datatype Venue = Venue(category: CategoryId, addedBy: Option<UserId>, googleId: Option<string>,
                         place: Place, verified: bool, active: bool, suspended: bool)

  datatype Target = CheckinTarget(checkin: CheckinId) | ListTarget(list: ListId) | UserTarget(user: UserId)

  datatype Notification = Notification(recipient: UserId, actor: Option<UserId>, target: Target, read: bool)

  datatype Save = Save(owner: UserId, venue: VenueId)

  datatype ContentReport = ContentReport(reporter: Option<UserId>, resolvedBy: Option<UserId>, target: Target)

  datatype VenueReport = VenueReport(reporter: Option<UserId>, resolvedBy: Option<UserId>, venue: VenueId)

  /** Pairs are (follower, following), (owner, friend), (blocker, blocked), (muter, muted),
      (user, check-in) and (user, list). */
  datatype Db = Db(
    users: map<UserId, User>,
    follows: set<(UserId, UserId)>,
    closeFriends: set<(UserId, UserId)>,
    blocks: set<(UserId, UserId)>,
    mutes: set<(UserId, UserId)>,
    checkins: map<CheckinId, Checkin>,
    lists: map<ListId, VenueList>,
    items: seq<ListItem>,
    checkinLikes: set<(UserId, CheckinId)>,
    listLikes: set<(UserId, ListId)>,
    checkinBookmarks: set<(UserId, CheckinId)>,
    listBookmarks: set<(UserId, ListId)>,
    notifications: map<NotificationId, Notification>,
    categories: set<CategoryId>,
    venues: map<VenueId, Venue>,
    saves: map<SaveId, Save>,
    contentReports: map<ReportId, ContentReport>,
    venueReports: map<ReportId, VenueReport>)

  // --- foreign keys, table by table --------------------------------------------

  /** A `users.id` foreign key that may be `NULL`. */
  predicate KnownOrNull(users: set<UserId>, u: Option<UserId>) {
    u.Some? ==> u.value in users
  }

  /** Follows, blocks and mutes: two distinct accounts. */
  ghost predicate PairKeys(users: set<UserId>, pairs: set<(UserId, UserId)>) {
    forall p <- pairs :: p.0 in users && p.1 in users && p.0 != p.1
  }

  /** A close friend rests on the follow in the other direction. */
  ghost predicate CloseFriendKeys(follows: set<(UserId, UserId)>, closeFriends: set<(UserId, UserId)>) {
    forall p <- closeFriends :: (p.1, p.0) in follows
  }

  ghost predicate CheckinKeys(users: set<UserId>, venues: set<VenueId>, checkins: map<CheckinId, Checkin>) {
    forall c <- checkins :: checkins[c].owner in users && checkins[c].venue in venues
  }

  ghost predicate ListKeys(users: set<UserId>, lists: map<ListId, VenueList>) {
    forall l <- lists :: lists[l].owner in users
  }

  ghost predicate ItemKeys(lists: set<ListId>, venues: set<VenueId>, items: seq<ListItem>) {
    forall i <- items :: i.list in lists && i.venue in venues
  }

  /** Likes and bookmarks: an account and the row reacted to. */
  ghost predicate ReactionKeys(users: set<UserId>, targets: set<int>, pairs: set<(UserId, int)>) {
    forall p <- pairs :: p.0 in users && p.1 in targets
  }

  ghost predicate NotificationKeys(users: set<UserId>, notifications: map<NotificationId, Notification>) {
    forall n <- notifications :: notifications[n].recipient in users && KnownOrNull(users, notifications[n].actor)
  }

  ghost predicate VenueKeys(users: set<UserId>, categories: set<CategoryId>, venues: map<VenueId, Venue>) {
    forall v <- venues :: venues[v].category in categories && KnownOrNull(users, venues[v].addedBy)
  }

  ghost predicate SaveKeys(users: set<UserId>, venues: set<VenueId>, saves: map<SaveId, Save>) {
    forall s <- saves :: saves[s].owner in users && saves[s].venue in venues
  }

  ghost predicate ContentReportKeys(users: set<UserId>, reports: map<ReportId, ContentReport>) {
    forall r <- reports :: KnownOrNull(users, reports[r].reporter) && KnownOrNull(users, reports[r].resolvedBy)
  }

  ghost predicate VenueReportKeys(users: set<UserId>, venues: set<VenueId>, reports: map<ReportId, VenueReport>) {
    forall r <- reports ::
      && KnownOrNull(users, reports[r].reporter) && KnownOrNull(users, reports[r].resolvedBy)
      && reports[r].venue in venues
  }

  /** Every foreign key points at a row, and no follow, block or mute is reflexive. */
  ghost predicate ForeignKeys(db: Db) {
    && PairKeys(db.users.Keys, db.follows)
    && CloseFriendKeys(db.follows, db.closeFriends)
    && PairKeys(db.users.Keys, db.blocks)
    && PairKeys(db.users.Keys, db.mutes)
    && CheckinKeys(db.users.Keys, db.venues.Keys, db.checkins)
    && ListKeys(db.users.Keys, db.lists)
    && ItemKeys(db.lists.Keys, db.venues.Keys, db.items)
    && ReactionKeys(db.users.Keys, db.checkins.Keys, db.checkinLikes)
    && ReactionKeys(db.users.Keys, db.lists.Keys, db.listLikes)
    && ReactionKeys(db.users.Keys, db.checkins.Keys, db.checkinBookmarks)
    && ReactionKeys(db.users.Keys, db.lists.Keys, db.listBookmarks)
    && NotificationKeys(db.users.Keys, db.notifications)
    && VenueKeys(db.users.Keys, db.categories, db.venues)
    && SaveKeys(db.users.Keys, db.venues.Keys, db.saves)
    && ContentReportKeys(db.users.Keys, db.contentReports)
    && VenueReportKeys(db.users.Keys, db.venues.Keys, db.venueReports)
  }

  /** No two accounts share a handle. */
  ghost predicate UniqueUsernames(users: map<UserId, User>) {
    forall u, v | u in users && v in users && users[u].username == users[v].username :: u == v
  }

  /** `uq_venues_google_places_id`: at most one venue carries any Google id. */
  ghost predicate UniqueGoogleIds(venues: map<VenueId, Venue>) {
    forall v, w | v in venues && w in venues && venues[v].googleId.Some? && venues[v].googleId == venues[w].googleId ::
      v == w
  }

  /** What the schema's constraints promise of every committed state, list positions aside. */
  ghost predicate Constraints(db: Db) {
    ForeignKeys(db) && UniqueUsernames(db.users) && UniqueGoogleIds(db.venues)
  }

  /** What a service call does to its transaction: it raises and nothing of it survives,
      it returns without writing, or it commits a new state. */
  datatype Outcome = Raised(error: Error) | Unchanged | Committed(db: Db)

  datatype Error =
    | SelfFollow | FollowNotFound | NotAFollower | CloseFriendNotFound
    | SelfBlock | BlockNotFound
    | CheckinNotFound | NotCheckinOwner | ListNotFound | NotListOwner
    | ListItemNotFound | DuplicateListItem
    | LikeNotFound | BookmarkNotFound
    | VenueNotFound | VenueCategoryNotFound | DuplicateVenueNearby | VenueNotEligible
    | UserNotFound | UsernameTaken | UsernameChangedTooRecently | AccountNotFrozen | AccountSuspended
    | AdminRequired
    | Refused  // the database itself aborts: a policy, key or uniqueness violation

  /** The committed state once the call is over. */
  function After(db: Db, out: Outcome): Db {
    if out.Committed? then out.db else db
  }
}
