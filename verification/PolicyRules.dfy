/** Which rows each policy admits, in two-valued terms. A policy admits a row only when its
    expression is `True`, so `NULL`, which is what an anonymous caller's id makes of most
    comparisons, never admits one. */
module PolicyRules {
  import opened Wrappers
  import opened ThreeValued
  import opened Schema
  import opened Policies

  /** What the connectives leave of three truth values once only `True` counts. */
  lemma OnlyTrueCounts(s: Truth, t: Truth)
    ensures And(s, t).True? <==> s.True? && t.True?
    ensures And(s, t).False? <==> s.False? || t.False?
    ensures Or(s, t).True? <==> s.True? || t.True?
    ensures Or(s, t).False? <==> s.False? && t.False?
    ensures Not(s).True? <==> s.False?
    ensures Not(s).False? <==> s.True?
  {
  }

  /** The caller is this account, or an admin. Nobody, when anonymous. */
  predicate ActsFor(db: Db, me: Option<UserId>, u: UserId) {
    me == Some(u) || ActsAsAdmin(db, me)
  }

  predicate ActsAsAdmin(db: Db, me: Option<UserId>) {
    me.Some? && me.value in db.users && db.users[me.value].role == Admin
  }

  /** No block between the two accounts, in either direction. */
  predicate Unblocked(db: Db, a: UserId, b: UserId) {
    (a, b) !in db.blocks && (b, a) !in db.blocks
  }

  lemma OwnerOrAdmin(db: Db, me: Option<UserId>, u: UserId)
    ensures IsOwnerOrAdmin(db, me, Some(u)).True? <==> ActsFor(db, me, u)
    ensures IsAdmin(db, me).True? <==> ActsAsAdmin(db, me)
    ensures me.None? ==> !ActsFor(db, me, u)
  {
  }

  /** Accounts are visible to anyone they share no block with, and to admins; each is written
      by itself and by admins. */
  lemma UsersPolicies(db: Db, me: Option<UserId>, u: UserId)
    ensures UsersSelect(db, me, u).True? <==> ActsAsAdmin(db, me) || (me.Some? ==> Unblocked(db, u, me.value))
    ensures UsersWrite(db, me, u).True? <==> ActsFor(db, me, u)
  {
  }

  lemma FollowsPolicies(db: Db, me: Option<UserId>, follower: UserId, following: UserId)
    ensures FollowsInsert(db, me, follower).True? <==> ActsFor(db, me, follower)
    ensures FollowsDelete(db, me, follower, following).True? <==> ActsFor(db, me, follower) || ActsFor(db, me, following)
  {
  }

  /** Both parties may know of a close friendship; only the owner decides it. */
  lemma CloseFriendsPolicies(db: Db, me: Option<UserId>, owner: UserId, friend: UserId)
    ensures CloseFriendsSelect(db, me, owner, friend).True? <==> ActsFor(db, me, owner) || ActsFor(db, me, friend)
    ensures CloseFriendsWrite(db, me, owner).True? <==> ActsFor(db, me, owner)
  {
  }

  /** A block is the blocker's own business: the blocked account can neither see nor undo it. */
  lemma BlocksPolicies(db: Db, me: Option<UserId>, blocker: UserId)
    ensures BlocksAccess(db, me, blocker).True? <==> ActsFor(db, me, blocker)
  {
  }

  /** Seeing a row is not being able to change it. */
  lemma ContentPolicies(db: Db, me: Option<UserId>, owner: UserId, visibility: Visibility)
    ensures ContentWrite(db, me, owner).True? <==> ActsFor(db, me, owner)
    ensures CanViewVisibility(db, me, owner, visibility).True? <==>
            || ActsFor(db, me, owner)
            || (&& (me.Some? ==> Unblocked(db, owner, me.value))
                && (|| visibility == Public
                    || (visibility == CloseFriends && me.Some? && (owner, me.value) in db.closeFriends)))
  {
  }

  /** A reaction is its own user's to add and take back, on what that caller can see. */
  lemma ReactionPolicies(db: Db, me: Option<UserId>, u: UserId, c: CheckinId, l: ListId)
    ensures CheckinLikesInsert(db, me, u, c).True? <==>
            ActsFor(db, me, u) && c in db.checkins
            && CanViewVisibility(db, me, db.checkins[c].owner, db.checkins[c].visibility).True?
    ensures ListLikesInsert(db, me, u, l).True? <==>
            ActsFor(db, me, u) && l in db.lists
            && CanViewVisibility(db, me, db.lists[l].owner, db.lists[l].visibility).True?
    ensures ReactionOwner(db, me, u).True? <==> ActsFor(db, me, u)
  {
  }

  lemma ItemPolicies(db: Db, me: Option<UserId>, l: ListId)
    ensures IsOwnerOrAdminOfList(db, me, l).True? <==> l in db.lists && ActsFor(db, me, db.lists[l].owner)
    ensures CanViewList(db, me, l).True? <==>
            l in db.lists && CanViewVisibility(db, me, db.lists[l].owner, db.lists[l].visibility).True?
  {
  }

  /** Notifications are read by their two parties while no block stands between them, by
      admins regardless; written under the same block rule by anyone signed in; and marked
      read by their recipient. */
  lemma NotificationsPolicies(db: Db, me: Option<UserId>, n: Notification)
    ensures NotificationsSelect(db, me, n).True? <==>
            || ActsAsAdmin(db, me)
            || (&& (me == Some(n.recipient) || (me.Some? && me == n.actor))
                && (n.actor.Some? ==> Unblocked(db, n.recipient, n.actor.value)))
    ensures NotificationsInsert(db, me, n).True? <==>
            me.Some? && (n.actor.Some? ==> Unblocked(db, n.recipient, n.actor.value))
    ensures NotificationsUpdate(db, me, n).True? <==> ActsFor(db, me, n.recipient)
  {
  }

  /** A suspended venue exists for admins only; any signed-in caller may add one. */
  lemma VenuesPolicies(db: Db, me: Option<UserId>, row: Venue)
    ensures VenuesSelect(db, me, row).True? <==> !row.suspended || ActsAsAdmin(db, me)
    ensures VenuesInsert(me).True? <==> me.Some?
    ensures VenuesUpdate(db, me).True? <==> ActsAsAdmin(db, me)
  {
  }
}
