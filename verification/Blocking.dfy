/** What a block means over whole runs, and exactly what creating and removing one does. */
module Blocking {
  import opened Wrappers
  import opened Schema
  import opened Policies
  import opened Social
  import opened Venues
  import opened Requests
  import opened Invariants

  /** No row links the two accounts in either direction, members' bookmarks included. */
  ghost predicate Strangers(db: Db, a: UserId, b: UserId) {
    && (forall p <- db.follows :: !Joins(a, b, p.0, p.1))
    && (forall p <- db.closeFriends :: !Joins(a, b, p.0, p.1))
    && (forall p <- db.checkinLikes :: !LikeJoins(db, a, b, p))
    && (forall p <- db.listLikes :: !ListLikeJoins(db, a, b, p))
    && (forall p <- db.checkinBookmarks | IsMember(db.users, p.0) :: !LikeJoins(db, a, b, p))
    && (forall p <- db.listBookmarks | IsMember(db.users, p.0) :: !ListLikeJoins(db, a, b, p))
    && (forall n <- db.notifications :: !NotificationJoins(db.notifications[n], a, b))
  }

  /** A deployment's first state: the seeded categories, and accounts with whatever roles
      their operators gave them. */
  function Seeded(categories: set<CategoryId>, users: map<UserId, User>): Db {
    Db(users, {}, {}, {}, {}, map[], map[], [], {}, {}, {}, {}, map[], categories, map[], map[], map[], map[])
  }

  lemma SeededIsValid(categories: set<CategoryId>, users: map<UserId, User>)
    requires UniqueUsernames(users)
    ensures Invariant(Seeded(categories, users))
  {
  }

  /** Whatever requests the application serves, starting from any state that keeps the
      invariant, two accounts with a block between them, in either direction, are strangers.
      Admins are no exception but for their bookmarks. */
  lemma BlockedPairsAreStrangers(db: Db, near: Near, rs: seq<Request>, a: UserId, b: UserId)
    requires Invariant(db) && Blocked(Run(db, near, rs), a, b)
    ensures Strangers(Run(db, near, rs), a, b)
  {
    EveryRunKeeps(db, near, rs);
    IsolationSeparates(Run(db, near, rs), a, b);
  }

  lemma IsolationSeparates(db: Db, a: UserId, b: UserId)
    requires Isolated(db) && Blocked(db, a, b)
    ensures Strangers(db, a, b)
  {
  }

  /** What is left once every row linking the two is gone: nothing else goes with them. */
  ghost predicate Severed(before: Db, after: Db, a: UserId, b: UserId) {
    && after == before.(follows := after.follows, closeFriends := after.closeFriends,
                        checkinLikes := after.checkinLikes, listLikes := after.listLikes,
                        checkinBookmarks := after.checkinBookmarks, listBookmarks := after.listBookmarks,
                        notifications := after.notifications)
    && (forall p :: p in after.follows <==> p in before.follows && !Joins(a, b, p.0, p.1))
    && (forall p :: p in after.closeFriends <==> p in before.closeFriends && !Joins(a, b, p.0, p.1))
    && (forall p :: p in after.checkinLikes <==> p in before.checkinLikes && !LikeJoins(before, a, b, p))
    && (forall p :: p in after.listLikes <==> p in before.listLikes && !ListLikeJoins(before, a, b, p))
    && (forall p :: p in after.checkinBookmarks <==> p in before.checkinBookmarks && !LikeJoins(before, a, b, p))
    && (forall p :: p in after.listBookmarks <==> p in before.listBookmarks && !ListLikeJoins(before, a, b, p))
    && (forall n :: n in after.notifications <==>
          n in before.notifications && !NotificationJoins(before.notifications[n], a, b))
    && (forall n <- after.notifications :: after.notifications[n] == before.notifications[n])
  }

  /** A block that goes through severs the pair, adds its one row, and touches nothing else. */
  lemma BlockSevers(db: Db, me: Option<UserId>, a: UserId, b: UserId)
    requires CreateBlock(db, me, a, b).Committed?
    ensures var d := After(db, CreateBlock(db, me, a, b));
            Severed(db.(blocks := db.blocks + {(a, b)}), d, a, b)
  {
  }

  /** Unblocking gives nothing back: block, then unblock, and the pair is still severed. */
  lemma UnblockRestoresNothing(db: Db, me: Option<UserId>, a: UserId, b: UserId)
    requires CreateBlock(db, me, a, b).Committed?
    ensures var d := After(db, CreateBlock(db, me, a, b));
            && RemoveBlock(d, me, a, b).Committed?
            && Severed(db, After(d, RemoveBlock(d, me, a, b)), a, b)
  {
    BlockSevers(db, me, a, b);
    var d := After(db, CreateBlock(db, me, a, b));
    assert SeesBlock(d, me, a, b);
    assert d.blocks - {(a, b)} == db.blocks;
  }
}
