/** Concrete states behind what the code does otherwise than a reader would expect. The states meet
    the invariant that every run keeps. */
module Witnesses {
  import opened Wrappers
  import opened Schema
  import opened Social
  import opened Listings
  import opened Invariants
  import opened Histories
  import opened RouteMatch
  import opened RouterPrefix

  /** Account 2 has liked account 1's check-in and list, which account 1 has since made private. */
  function LikedThenHidden(): Db {
    var user := User(Member, Active, "a", None, "");
    Db(map[1 := user, 2 := user.(username := "b")], {}, {}, {}, {},
       map[1 := Checkin(1, 7, Private, false, "")], map[1 := VenueList(1, Private, "")], [],
       {(2, 1)}, {(2, 1)}, {}, {}, map[],
       {9}, map[7 := Venue(9, None, None, Place(0.0, 0.0), false, true, false)], map[], map[], map[])
  }

  /** The likes are there, and taking them back answers that they are not. */
  lemma HiddenLikeCannotBeTakenBack()
    ensures var db := LikedThenHidden();
            && Invariant(db) && (2, 1) in db.checkinLikes && (2, 1) in db.listLikes
            && UnlikeCheckin(db, 2, 1) == Raised(LikeNotFound) && UnlikeList(db, 2, 1) == Raised(LikeNotFound)
  {
  }

  /** Admin 1, blocked by account 2, has bookmarked account 2's private check-in. */
  function AdminAcrossBlock(): Db {
    var user := User(Member, Active, "b", None, "");
    Db(map[1 := user.(role := Admin, username := "a"), 2 := user], {}, {}, {(2, 1)}, {},
       map[1 := Checkin(2, 7, Private, false, "")], map[], [], {}, {}, {(1, 1)}, {}, map[],
       {9}, map[7 := Venue(9, None, None, Place(0.0, 0.0), false, true, false)], map[], map[], map[])
  }

  /** The admin sees the check-in and may not like it; the bookmark stays and its listing
      leaves it out. */
  lemma AdminAcrossBlockIsTurnedAway()
    ensures var db := AdminAcrossBlock();
            && Invariant(db) && CheckinShown(db, Some(1), 1)
            && LikeCheckin(db, 1, 1, 5) == Raised(Refused)
            && (1, 1) in db.checkinBookmarks && !BookmarkedCheckinAdmits(db, 1, 1)
  {
  }

  /** The state of `Histories.ThirdVisitIsForgotten` meets the invariant too. */
  lemma TwoVisitorsMeetsTheInvariant()
    ensures Invariant(TwoVisitors())
  {
  }

  /** A template with a trailing slash under the application's own prefix: the prefix is lost. */
  lemma TrailingSlashIsNotRestored()
    ensures Matches(CompileTemplate("/a/"), "/a/") && WithRouterPrefix("/api/v1" + "/a/", "/a/") != "/api/v1" + "/a/"
  {
    LiteralsMatchThemselves("/a/", "/a/");
    TrailingSlashLosesPrefix("/api/v1", "/a/", "/a/");
  }
}
