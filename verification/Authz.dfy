/** The Python half of authorization (`app/core/authz.py`). A request's viewer object
    and its transaction's identity are the same account, so one `me` serves both; what
    Python reads from a table it reads through that table's policies. */
module Authz {
  import opened Wrappers
  import opened Schema
  import opened Policies

  /** The viewer is signed in as a row of `users`, or anonymous. */
  predicate KnownViewer(db: Db, me: Option<UserId>) {
    me.Some? ==> me.value in db.users
  }

  predicate OwnsOrAdmin(db: Db, me: UserId, owner: UserId)
    requires me in db.users
  {
    me == owner || db.users[me].role.Admin?
  }

  /** The lookup in `is_close_friend`, run under `close_friends_select`. */
  predicate SeesCloseFriendRow(db: Db, me: Option<UserId>, owner: UserId, friend: UserId) {
    (owner, friend) in db.closeFriends && CloseFriendsSelect(db, me, owner, friend).True?
  }

  predicate CanView(db: Db, me: Option<UserId>, owner: UserId, visibility: Visibility)
    requires KnownViewer(db, me)
  {
    if me.Some? && OwnsOrAdmin(db, me.value, owner) then true
    else if me.Some? && IsBlockedPair(db, Some(owner), me).True? then false
    else match visibility
      case Public => true
      case Private => false
      case CloseFriends => me.Some? && SeesCloseFriendRow(db, me, owner, me.value)
      case Unrecognised => false
  }

  datatype Guard = Allowed | NotFound | NotOwner

  function EnsureVisibleAndOwned(db: Db, me: UserId, owner: UserId, visibility: Visibility): Guard
    requires me in db.users
  {
    if OwnsOrAdmin(db, me, owner) then Allowed
    else if !CanView(db, Some(me), owner, visibility) then NotFound
    else NotOwner
  }

  /** Python's rule and the database's rule admit the same rows, in every state, for
      every owner, tier and viewer. */
  lemma PythonAgreesWithSql(db: Db, me: Option<UserId>, owner: UserId, visibility: Visibility)
    requires KnownViewer(db, me)
    ensures CanView(db, me, owner, visibility) <==> CanViewVisibility(db, me, owner, visibility).True?
  {
  }

  /** What the rule amounts to: the owner and admins always; past them a block in either
      direction hides everything; then the tier decides. */
  lemma WhoCanView(db: Db, me: Option<UserId>, owner: UserId, visibility: Visibility)
    requires KnownViewer(db, me)
    ensures CanView(db, me, owner, visibility) <==>
            || me == Some(owner)
            || HasAdminRow(db, me)
            || (&& (me.Some? ==> !Blocked(db, me.value, owner))
                && (|| visibility.Public?
                    || (visibility.CloseFriends? && me.Some? && (owner, me.value) in db.closeFriends)))
  {
  }

  /** A not-owner answer is only ever given about something the caller may see, and a
      not-found answer only about something hidden. */
  lemma GuardRevealsOnlyTheVisible(db: Db, me: UserId, owner: UserId, visibility: Visibility)
    requires me in db.users
    ensures EnsureVisibleAndOwned(db, me, owner, visibility).NotOwner? ==> CanView(db, Some(me), owner, visibility)
    ensures EnsureVisibleAndOwned(db, me, owner, visibility).NotFound? <==> !CanView(db, Some(me), owner, visibility)
    ensures EnsureVisibleAndOwned(db, me, owner, visibility).Allowed? <==>
            IsOwnerOrAdmin(db, Some(me), Some(owner)).True?
  {
  }
}
