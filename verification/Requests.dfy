/** The application as a state machine over committed database states: each request
    authenticates, runs one service call in its own session, and ends. */
module Requests {
  import opened Wrappers
  import opened Schema
  import opened Content
  import opened Social
  import opened ListItems
  import opened Accounts
  import opened Venues

  datatype SocialCall =
    | Follow(user: UserId, notification: NotificationId)
    | Unfollow(user: UserId)
    | RemoveFollower(user: UserId)
    | AddFriend(user: UserId)
    | RemoveFriend(user: UserId)
    | Block(user: UserId)
    | Unblock(user: UserId)
    | ReadNotifications

  datatype CheckinCall =
    | NewCheckin(checkin: CheckinId, venue: VenueId, visibility: Visibility, content: string)
    | EditCheckin(checkin: CheckinId, shown: Option<Visibility>, text: Option<string>)
    | DropCheckin(checkin: CheckinId)
    | PurgeCheckin(checkin: CheckinId)

  datatype ListCall =
    | NewList(list: ListId, visibility: Visibility, content: string)
    | EditList(list: ListId, shown: Option<Visibility>, text: Option<string>)
    | DropList(list: ListId)
    | NewItem(list: ListId, venue: VenueId, after: Option<ItemId>, item: ItemId)
    | ShiftItem(list: ListId, item: ItemId, after: Option<ItemId>)
    | DropItem(list: ListId, item: ItemId)

  datatype LikeCall =
    | Like(checkin: CheckinId, notification: NotificationId)
    | Unlike(checkin: CheckinId)
    | LikeOfList(list: ListId, notification: NotificationId)
    | UnlikeOfList(list: ListId)

  datatype BookmarkCall =
    | Bookmark(checkin: CheckinId)
    | Unbookmark(checkin: CheckinId)
    | BookmarkOfList(list: ListId)
    | UnbookmarkOfList(list: ListId)

  datatype AccountCall =
    | Edit(username: Option<string>, profile: Option<string>, now: int)
    | Freeze
    | Suspend(user: UserId)
    | DeleteMe

  datatype VenueCall =
    | NewVenue(venue: VenueId, category: CategoryId, googleId: Option<string>, place: Place, confirmDuplicate: bool)
    | Verify(venue: VenueId)
    | Close(venue: VenueId)
    | Hide(venue: VenueId)

  datatype Call =
    | ForSocial(social: SocialCall)
    | ForCheckin(checkin: CheckinCall)
    | ForList(list: ListCall)
    | ForLike(like: LikeCall)
    | ForBookmark(bookmark: BookmarkCall)
    | ForAccount(account: AccountCall)
    | ForVenue(venue: VenueCall)

  /** A signed-in caller's service call, with the handle the account would be given if this
      were its first; the provider announcing an account; or announcing its deletion. */
  datatype Request =
    | SignedIn(me: UserId, fallback: string, call: Call)
    | Provisioned(id: UserId, name: string)
    | ProviderDeleted(id: UserId)

  function ServeSocial(db: Db, me: UserId, call: SocialCall): Outcome {
    match call
    case Follow(u, n) => FollowUser(db, Some(me), me, u, n)
    case Unfollow(u) => UnfollowUser(db, Some(me), me, u)
    case RemoveFollower(u) => UnfollowUser(db, Some(me), u, me)
    case AddFriend(u) => AddCloseFriend(db, Some(me), me, u)
    case RemoveFriend(u) => RemoveCloseFriend(db, Some(me), me, u)
    case Block(u) => CreateBlock(db, Some(me), me, u)
    case Unblock(u) => RemoveBlock(db, Some(me), me, u)
    case ReadNotifications => MarkAllNotificationsRead(db, Some(me), me)
  }

  function ServeCheckin(db: Db, me: UserId, call: CheckinCall): Outcome
    requires me in db.users
  {
    match call
    case NewCheckin(c, v, shown, text) => CreateCheckin(db, Some(me), c, Checkin(me, v, shown, false, text))
    case EditCheckin(c, shown, text) => UpdateCheckin(db, me, c, shown, text)
    case DropCheckin(c) => SoftDeleteCheckin(db, me, c)
    case PurgeCheckin(c) => HardDeleteCheckin(db, me, c)
  }

  function ServeList(db: Db, me: UserId, call: ListCall): Outcome
    requires me in db.users
  {
    match call
    case NewList(l, shown, text) => CreateList(db, Some(me), l, VenueList(me, shown, text))
    case EditList(l, shown, text) => UpdateList(db, me, l, shown, text)
    case DropList(l) => DeleteList(db, me, l)
    case NewItem(l, v, after, i) => AddItem(db, me, l, v, after, i)
    case ShiftItem(l, i, after) => MoveItem(db, me, l, i, after)
    case DropItem(l, i) => RemoveItem(db, me, l, i)
  }

  function ServeLike(db: Db, me: UserId, call: LikeCall): Outcome
    requires me in db.users
  {
    match call
    case Like(c, n) => LikeCheckin(db, me, c, n)
    case Unlike(c) => UnlikeCheckin(db, me, c)
    case LikeOfList(l, n) => LikeList(db, me, l, n)
    case UnlikeOfList(l) => UnlikeList(db, me, l)
  }

  function ServeBookmark(db: Db, me: UserId, call: BookmarkCall): Outcome
    requires me in db.users
  {
    match call
    case Bookmark(c) => BookmarkCheckin(db, me, c)
    case Unbookmark(c) => UnbookmarkCheckin(db, me, c)
    case BookmarkOfList(l) => BookmarkList(db, me, l)
    case UnbookmarkOfList(l) => UnbookmarkList(db, me, l)
  }

  function ServeAccount(db: Db, me: UserId, call: AccountCall): Outcome
    requires me in db.users
  {
    match call
    case Edit(name, text, now) => UpdateProfile(db, me, name, text, now)
    case Freeze => FreezeAccount(db, me)
    case Suspend(u) => SuspendAccount(db, me, u)
    case DeleteMe => DeleteAccount(db, Some(me), me)
  }

  function ServeVenue(db: Db, me: UserId, near: Near, call: VenueCall): Outcome
    requires me in db.users
  {
    match call
    case NewVenue(v, category, g, place, confirm) => CreateVenue(db, me, near, v, category, g, place, confirm)
    case Verify(v) => VerifyVenueByAdmin(db, me, v)
    case Close(v) => CloseVenue(db, me, v)
    case Hide(v) => SuspendVenue(db, me, v)
  }

  function Serve(db: Db, me: UserId, near: Near, call: Call): Outcome
    requires me in db.users
  {
    match call
    case ForSocial(c) => ServeSocial(db, me, c)
    case ForCheckin(c) => ServeCheckin(db, me, c)
    case ForList(c) => ServeList(db, me, c)
    case ForLike(c) => ServeLike(db, me, c)
    case ForBookmark(c) => ServeBookmark(db, me, c)
    case ForAccount(c) => ServeAccount(db, me, c)
    case ForVenue(c) => ServeVenue(db, me, near, c)
  }

  /** The state a signed-in caller's service call starts from. */
  function SignIn(db: Db, me: UserId, fallback: string): (d: Db)
    ensures !GetCurrentUser(db, me, fallback).Raised? ==> me in d.users
  {
    After(db, GetCurrentUser(db, me, fallback))
  }

  /** What a request leaves committed once its session is closed. */
  function Exec(db: Db, near: Near, r: Request): Db {
    match r
    case SignedIn(me, fallback, call) =>
      if GetCurrentUser(db, me, fallback).Raised? then db
      else After(SignIn(db, me, fallback), Serve(SignIn(db, me, fallback), me, near, call))
    case Provisioned(id, name) => After(db, Provision(db, id, name))
    case ProviderDeleted(id) => After(db, DeleteAccount(db, Some(id), id))
  }

  /** The error a request is answered with, if any. */
  function ErrorOf(db: Db, near: Near, r: Request): Option<Error> {
    match r
    case SignedIn(me, fallback, call) =>
      var start := GetCurrentUser(db, me, fallback);
      Failure(if start.Raised? then start else Serve(SignIn(db, me, fallback), me, near, call))
    case Provisioned(id, name) => Failure(Provision(db, id, name))
    case ProviderDeleted(id) => Failure(DeleteAccount(db, Some(id), id))
  }

  function Failure(out: Outcome): Option<Error> {
    if out.Raised? then Some(out.error) else None
  }

  function Run(db: Db, near: Near, rs: seq<Request>): Db {
    if rs == [] then db else Exec(Run(db, near, rs[..|rs| - 1]), near, rs[|rs| - 1])
  }
}
