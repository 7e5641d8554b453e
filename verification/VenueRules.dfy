/** What each venue call answers and leaves behind, who counts as a visitor, and what
    suspension hides. */
module VenueRules {
  import opened Wrappers
  import opened Schema
  import opened Authz
  import opened Content
  import opened Venues
  import opened Requests
  import opened ContentRules

  /** A venue in reach of the place that the caller can see. */
  predicate NeighbourOpen(db: Db, me: UserId, near: Near, place: Place)
    requires me in db.users
  {
    exists v <- db.venues :: VenueOpen(db, me, v) && near(db.venues[v].place, place)
  }

  predicate MatchOpen(db: Db, me: UserId, g: string)
    requires me in db.users
  {
    exists v <- db.venues :: VenueOpen(db, me, v) && db.venues[v].googleId == Some(g)
  }

  predicate MatchExists(db: Db, g: string) {
    exists v <- db.venues :: db.venues[v].googleId == Some(g)
  }

  /** A Google match the caller can see is the venue, confirmed or not; one it cannot see
      makes the insert fail; only past that does nearness count, unless confirmed. A new venue
      starts unverified, open and unsuspended, attributed to its creator. */
  lemma NewVenueExactly(db: Db, me: UserId, near: Near, id: VenueId, category: CategoryId, g: Option<string>,
                        place: Place, confirmed: bool)
    requires me in db.users
    ensures ServeVenue(db, me, near, NewVenue(id, category, g, place, confirmed)) ==
            if category !in db.categories then Raised(VenueCategoryNotFound)
            else if g.Some? && MatchOpen(db, me, g.value) then Unchanged
            else if !confirmed && NeighbourOpen(db, me, near, place) then Raised(DuplicateVenueNearby)
            else if id in db.venues || (g.Some? && MatchExists(db, g.value)) then Raised(Refused)
            else Committed(db.(venues := db.venues[id := Venue(category, Some(me), g, place, false, true, false)]))
  {
    NeighbourIsPolicy(db, me, near, place);
    if g.Some? { MatchIsPolicy(db, me, g.value); }
  }

  lemma NeighbourIsPolicy(db: Db, me: UserId, near: Near, place: Place)
    requires me in db.users
    ensures SeesNearby(db, Some(me), near, place) <==> NeighbourOpen(db, me, near, place)
  {
  }

  lemma MatchIsPolicy(db: Db, me: UserId, g: string)
    requires me in db.users
    ensures SeesGoogleId(db, Some(me), g) <==> MatchOpen(db, me, g)
    ensures GoogleIdTaken(db, Some(g)) <==> MatchExists(db, g)
  {
  }

  /** A suspended venue is there for admins only. */
  lemma SuspensionHides(db: Db, me: UserId, v: VenueId)
    requires me in db.users
    ensures SelectVenue(db, Some(me), v) == if VenueOpen(db, me, v) then Some(db.venues[v]) else None
    ensures SelectVenue(db, None, v) == if v in db.venues && !db.venues[v].suspended then Some(db.venues[v]) else None
  {
  }

  // --- visitors and verification ---------------------------------------------------

  /** Who counts towards verification: exactly the accounts one of whose check-ins at the
      venue anyone at all, signed in or not, may read. */
  lemma VisitorsAreThoseAnyoneMaySee(db: Db, v: VenueId, u: UserId)
    ensures u in PublicVisitors(db, v) <==>
            exists c :: c in db.checkins && db.checkins[c].venue == v && db.checkins[c].owner == u
                        && GetCheckin(db, None, c).Found?
  {
    forall c | c in db.checkins ensures GetCheckin(db, None, c).Found? <==>
                                        db.checkins[c].visibility.Public? && !db.checkins[c].deleted {
      ReadCheckinExactly(db, None, c);
      WhoCanView(db, None, db.checkins[c].owner, db.checkins[c].visibility);
    }
  }

  /** The guarded update verifies exactly a Google-matched venue with enough visitors, and
      writes that one flag. */
  lemma VerifyIfEligibleExactly(db: Db, v: VenueId, min: nat)
    ensures VerifyIfEligible(db, v, min) ==
            if v in db.venues && db.venues[v].googleId.Some? && |PublicVisitors(db, v)| >= min
            then db.(venues := db.venues[v := db.venues[v].(verified := true)]) else db
  {
    if v in db.venues && db.venues[v].verified {
      assert db.venues[v := db.venues[v].(verified := true)] == db.venues;
    }
  }

  /** An admin confirms a venue at five distinct visitors, with or without a Google match. */
  lemma VerifyExactly(db: Db, me: UserId, near: Near, v: VenueId)
    requires me in db.users
    ensures ServeVenue(db, me, near, Verify(v)) ==
            if db.users[me].role == Member then Raised(AdminRequired)
            else if v !in db.venues then Raised(VenueNotFound)
            else if db.venues[v].verified then Unchanged
            else if |PublicVisitors(db, v)| < 5 then Raised(VenueNotEligible)
            else Committed(db.(venues := db.venues[v := db.venues[v].(verified := true)]))
  {
    if db.users[me].role == Admin { AdminCountsEveryone(db, me, v); }
  }

  lemma AdminCountsEveryone(db: Db, me: UserId, v: VenueId)
    requires me in db.users && db.users[me].role == Admin
    ensures SeenPublicVisitors(db, Some(me), v) == PublicVisitors(db, v)
  {
  }

  // --- closing and suspending --------------------------------------------------------

  lemma CloseExactly(db: Db, me: UserId, near: Near, v: VenueId)
    requires me in db.users
    ensures ServeVenue(db, me, near, VenueCall.Close(v)) ==
            if db.users[me].role == Member then Raised(AdminRequired)
            else if v !in db.venues then Raised(VenueNotFound)
            else if !db.venues[v].active then Unchanged
            else Committed(db.(venues := db.venues[v := db.venues[v].(active := false)]))
  {
  }

  lemma HideExactly(db: Db, me: UserId, near: Near, v: VenueId)
    requires me in db.users
    ensures ServeVenue(db, me, near, VenueCall.Hide(v)) ==
            if db.users[me].role == Member then Raised(AdminRequired)
            else if v !in db.venues then Raised(VenueNotFound)
            else if db.venues[v].suspended then Unchanged
            else Committed(db.(venues := db.venues[v := db.venues[v].(suspended := true)]))
  {
  }
}
