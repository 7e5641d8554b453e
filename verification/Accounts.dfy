/** Account services (`app/services/user.py`) and the status gate every authenticated
    request passes (`app/core/auth.py`). Times are whole seconds. */
module Accounts {
  import opened Wrappers
  import opened Schema
  import opened Policies
  import opened Content
  import opened Social

  const USERNAME_CHANGE_INTERVAL := 30 * 24 * 3600

  // --- signing in --------------------------------------------------------------

  predicate UsernameFree(db: Db, username: string) {
    forall u <- db.users :: db.users[u].username != username
  }

  /** A row created by the provider's webhook or on a first request. Where the account
      already exists, created by whoever came first, that row is used; the webhook refreshes
      only columns nothing here depends on. */
  function Provision(db: Db, id: UserId, username: string): Outcome {
    if id in db.users then Unchanged
    else if !UsernameFree(db, username) then Raised(Refused)
    else Committed(db.(users := db.users[id := FreshUser(username)]))
  }

  function FreshUser(username: string): User {
    User(Member, Active, username, None, "")
  }

  function WithStatus(db: Db, u: UserId, status: Status): Db
    requires u in db.users
  {
    db.(users := db.users[u := db.users[u].(status := status)])
  }

  function ReactivateAccount(db: Db, u: UserId): Outcome
    requires u in db.users
  {
    match db.users[u].status
    case Active => Unchanged
    case Suspended => Raised(AccountNotFrozen)
    case Frozen => Committed(WithStatus(db, u, Active))
  }

  /** `get_current_user`: an account the provider knows and the database does not yet is
      created under its fallback handle, a suspended one is turned away, a frozen one
      reactivated. */
  function GetCurrentUser(db: Db, u: UserId, fallback: string): Outcome {
    if u !in db.users then Provision(db, u, fallback)
    else if db.users[u].status.Suspended? then Raised(AccountSuspended)
    else if db.users[u].status.Frozen? then ReactivateAccount(db, u)
    else Unchanged
  }

  // --- profile -----------------------------------------------------------------

  /** `_ensure_username_available`: the query sees only rows `users_select` admits. */
  predicate SeesUsernameTaken(db: Db, me: UserId, username: string) {
    exists u <- db.users :: u != me && db.users[u].username == username && UsersSelect(db, Some(me), u).True?
  }

  /** The uniqueness constraint sees every row. */
  predicate UsernameTakenByOther(db: Db, me: UserId, username: string) {
    exists u <- db.users :: u != me && db.users[u].username == username
  }

  predicate TooSoon(user: User, now: int) {
    user.usernameChangedAt.Some? && now < user.usernameChangedAt.value + USERNAME_CHANGE_INTERVAL
  }

  function UpdateProfile(db: Db, me: UserId, username: Option<string>, profile: Option<string>, now: int): Outcome
    requires me in db.users
  {
    var user := db.users[me];
    var renaming := username.Some? && username.value != user.username;
    if renaming && TooSoon(user, now) then Raised(UsernameChangedTooRecently)
    else if renaming && SeesUsernameTaken(db, me, username.value) then Raised(UsernameTaken)
    else if renaming && UsernameTakenByOther(db, me, username.value) then Raised(Refused)
    else
      var renamed := if renaming then user.(username := username.value, usernameChangedAt := Some(now)) else user;
      var edited := if profile.Some? then renamed.(profile := profile.value) else renamed;
      Committed(db.(users := db.users[me := edited]))
  }

  // --- status ------------------------------------------------------------------

  function FreezeAccount(db: Db, me: UserId): Outcome
    requires me in db.users
  {
    if db.users[me].status.Active? then Committed(WithStatus(db, me, Frozen)) else Unchanged
  }

  /** Behind `require_admin`. */
  function SuspendAccount(db: Db, me: UserId, u: UserId): Outcome
    requires me in db.users
  {
    if !db.users[me].role.Admin? then Raised(AdminRequired)
    else if u !in db.users then Raised(UserNotFound)
    else if db.users[u].status.Suspended? then Unchanged
    else Committed(WithStatus(db, u, Suspended))
  }

  // --- deletion ----------------------------------------------------------------

  function OwnedBy(db: Db, u: UserId): set<CheckinId> {
    set c <- db.checkins | db.checkins[c].owner == u
  }

  function ListsOwnedBy(db: Db, u: UserId): set<ListId> {
    set l <- db.lists | db.lists[l].owner == u
  }

  function Cleared(who: Option<UserId>, u: UserId): Option<UserId> {
    if who == Some(u) then None else who
  }

  function PairsOutside(pairs: set<(UserId, UserId)>, u: UserId): set<(UserId, UserId)> {
    set p <- pairs | p.0 != u && p.1 != u
  }

  /** Dropping the `users` row itself, with the rows that name it directly: each foreign
      key either deletes its row or sets the attribution to null. */
  function WithoutAccount(db: Db, u: UserId): Db {
    db.(users := db.users - {u},
        blocks := PairsOutside(db.blocks, u),
        mutes := PairsOutside(db.mutes, u),
        checkinLikes := (set p <- db.checkinLikes | p.0 != u),
        listLikes := (set p <- db.listLikes | p.0 != u),
        checkinBookmarks := (set p <- db.checkinBookmarks | p.0 != u),
        listBookmarks := (set p <- db.listBookmarks | p.0 != u),
        notifications := (map n <- db.notifications
          | db.notifications[n].recipient != u && db.notifications[n].actor != Some(u) :: db.notifications[n]),
        saves := (map s <- db.saves | db.saves[s].owner != u :: db.saves[s]),
        venues := (map v <- db.venues :: db.venues[v].(addedBy := Cleared(db.venues[v].addedBy, u))),
        contentReports := (map r <- db.contentReports ::
          db.contentReports[r].(reporter := Cleared(db.contentReports[r].reporter, u),
                                resolvedBy := Cleared(db.contentReports[r].resolvedBy, u))),
        venueReports := (map r <- db.venueReports ::
          db.venueReports[r].(reporter := Cleared(db.venueReports[r].reporter, u),
                              resolvedBy := Cleared(db.venueReports[r].resolvedBy, u))))
  }

  function FollowsTouching(db: Db, u: UserId): set<(UserId, UserId)> {
    set p <- db.follows | p.0 == u || p.1 == u
  }

  /** What one `DELETE FROM users` leaves behind. */
  function PurgeUser(db: Db, u: UserId): Db {
    WithoutAccount(
      WithoutFollows(WithoutLists(WithoutCheckins(db, OwnedBy(db, u)), ListsOwnedBy(db, u)), FollowsTouching(db, u)), u)
  }

  /** `delete_account` and the webhook's `_delete_user`. */
  function DeleteAccount(db: Db, me: Option<UserId>, u: UserId): Outcome {
    if u in db.users && UsersSelect(db, me, u).True? && UsersWrite(db, me, u).True? then Committed(PurgeUser(db, u))
    else Committed(db)
  }
}
