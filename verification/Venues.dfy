/** Venue services (`app/services/venue.py`) and the guarded update they verify through. */
module Venues {
  import opened Wrappers
  import opened Schema
  import opened Policies
  import opened Content

  const MIN_CHECKINS_FOR_AUTO_VERIFICATION := 3
  const MIN_CHECKINS_FOR_ADMIN_VERIFICATION := 5

  /** Whether two places lie within the 50 metres of `ST_DWithin`. */
  type Near = (Place, Place) -> bool

  /** `Place` of an existing venue within reach of a new one, as the caller sees it. */
  predicate SeesNearby(db: Db, me: Option<UserId>, near: Near, place: Place) {
    exists v <- db.venues :: near(db.venues[v].place, place) && VenuesSelect(db, me, db.venues[v]).True?
  }

  predicate SeesGoogleId(db: Db, me: Option<UserId>, g: string) {
    exists v <- db.venues :: db.venues[v].googleId == Some(g) && VenuesSelect(db, me, db.venues[v]).True?
  }

  predicate GoogleIdTaken(db: Db, g: Option<string>) {
    g.Some? && exists v <- db.venues :: db.venues[v].googleId == g
  }

  /** A fresh venue row: unverified, active, not suspended. */
  function FreshVenue(category: CategoryId, me: UserId, googleId: Option<string>, place: Place): Venue {
    Venue(category, Some(me), googleId, place, false, true, false)
  }

  function CreateVenue(db: Db, me: UserId, near: Near, id: VenueId, category: CategoryId, googleId: Option<string>,
                       place: Place, confirmDuplicate: bool): Outcome {
    if category !in db.categories then Raised(VenueCategoryNotFound)
    else if googleId.Some? && SeesGoogleId(db, Some(me), googleId.value) then Unchanged
    else if !confirmDuplicate && SeesNearby(db, Some(me), near, place) then Raised(DuplicateVenueNearby)
    else if id in db.venues || me !in db.users || GoogleIdTaken(db, googleId) || !VenuesInsert(Some(me)).True?
    then Raised(Refused)
    else Committed(db.(venues := db.venues[id := FreshVenue(category, me, googleId, place)]))
  }

  // --- verification ------------------------------------------------------------

  /** `COUNT(DISTINCT user_id)` over the venue's public, undeleted check-ins. */
  function PublicVisitors(db: Db, v: VenueId): set<UserId> {
    set c <- db.checkins
      | db.checkins[c].venue == v && db.checkins[c].visibility.Public? && !db.checkins[c].deleted
      :: db.checkins[c].owner
  }

  /** The same count as a caller's own query sees it. */
  function SeenPublicVisitors(db: Db, me: Option<UserId>, v: VenueId): set<UserId> {
    set c <- db.checkins
      | db.checkins[c].venue == v && db.checkins[c].visibility.Public? && !db.checkins[c].deleted
        && CheckinsSelect(db, me, db.checkins[c]).True?
      :: db.checkins[c].owner
  }

  /** `rls_verify_venue_if_eligible`: one guarded update, past row security. */
  function VerifyIfEligible(db: Db, v: VenueId, minCheckins: nat): Db {
    if v in db.venues && !db.venues[v].verified && db.venues[v].googleId.Some?
       && |PublicVisitors(db, v)| >= minCheckins
    then db.(venues := db.venues[v := db.venues[v].(verified := true)])
    else db
  }

  /** What `create_checkin` leaves in the session once it has committed the check-in: a
      public one triggers the evaluation, whose update nothing commits afterwards. */
  function EvaluateAfterCheckin(db: Db, row: Checkin): Db {
    if row.visibility.Public? then VerifyIfEligible(db, row.venue, MIN_CHECKINS_FOR_AUTO_VERIFICATION) else db
  }

  /** `require_admin` and `venues_update` let the same callers through. */
  lemma AdminMeetsVenuePolicy(db: Db, me: UserId)
    requires me in db.users
    ensures db.users[me].role.Admin? <==> VenuesUpdate(db, Some(me)).True?
  {
  }

  /** Behind `require_admin`. */
  function VerifyVenueByAdmin(db: Db, me: UserId, v: VenueId): Outcome
    requires me in db.users
  {
    if !db.users[me].role.Admin? then Raised(AdminRequired)
    else if SelectVenue(db, Some(me), v).None? then Raised(VenueNotFound)
    else if db.venues[v].verified then Unchanged
    else if |SeenPublicVisitors(db, Some(me), v)| < MIN_CHECKINS_FOR_ADMIN_VERIFICATION then Raised(VenueNotEligible)
    else Committed(db.(venues := db.venues[v := db.venues[v].(verified := true)]))
  }

  function CloseVenue(db: Db, me: UserId, v: VenueId): Outcome
    requires me in db.users
  {
    if !db.users[me].role.Admin? then Raised(AdminRequired)
    else if SelectVenue(db, Some(me), v).None? then Raised(VenueNotFound)
    else if !db.venues[v].active then Unchanged
    else Committed(db.(venues := db.venues[v := db.venues[v].(active := false)]))
  }

  function SuspendVenue(db: Db, me: UserId, v: VenueId): Outcome
    requires me in db.users
  {
    if !db.users[me].role.Admin? then Raised(AdminRequired)
    else if SelectVenue(db, Some(me), v).None? then Raised(VenueNotFound)
    else if db.venues[v].suspended then Unchanged
    else Committed(db.(venues := db.venues[v := db.venues[v].(suspended := true)]))
  }
}
