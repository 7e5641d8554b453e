/** What signing in and each account call answer and leave behind, in terms a caller can
    check beforehand. */
module AccountRules {
  import opened Wrappers
  import opened Schema
  import opened Policies
  import opened Authz
  import opened Accounts
  import opened Venues
  import opened Listings
  import opened Sessions
  import opened Requests
  import opened Invariants
  import opened ContentRules

  /** Thirty days, in seconds. */
  const THIRTY_DAYS := 2592000

  predicate HandleHeld(db: Db, name: string) {
    exists u <- db.users :: db.users[u].username == name
  }

  predicate HeldByOther(db: Db, me: UserId, name: string) {
    exists u <- db.users :: u != me && db.users[u].username == name
  }

  /** By an account the caller can see: a block hides the holder from all but admins. */
  predicate HeldInSight(db: Db, me: UserId, name: string)
    requires me in db.users
  {
    exists u <- db.users ::
      u != me && db.users[u].username == name && (db.users[me].role == Admin || !Blocked(db, me, u))
  }

  function With(db: Db, u: UserId, row: User): Db {
    db.(users := db.users[u := row])
  }

  // --- signing in ----------------------------------------------------------------

  /** A new account is an active member under its fallback handle; a suspended one is turned
      away; a frozen one is active again; an active one is as it was. */
  lemma SignInExactly(db: Db, u: UserId, fallback: string)
    ensures GetCurrentUser(db, u, fallback) ==
            if u !in db.users then
              if HandleHeld(db, fallback) then Raised(Refused)
              else Committed(With(db, u, User(Member, Active, fallback, None, "")))
            else match db.users[u].status
              case Suspended => Raised(AccountSuspended)
              case Frozen => Committed(With(db, u, db.users[u].(status := Active)))
              case Active => Unchanged
  {
  }

  /** A caller turned away changes nothing; a call that fails after sign-in changes nothing
      more than the sign-in; one that commits leaves what it commits. */
  lemma RequestExactly(db: Db, near: Near, me: UserId, fallback: string, call: Call)
    ensures var start := GetCurrentUser(db, me, fallback);
            var d := if start.Committed? then start.db else db;
            var after := Exec(db, near, SignedIn(me, fallback, call));
            if start.Raised? then after == db
            else
              && me in d.users && d.users[me].status == Active
              && var out := Serve(d, me, near, call); after == if out.Committed? then out.db else d
  {
    hide Serve;
  }

  /** Which service a call reaches. */
  lemma CallReachesItsService(db: Db, me: UserId, near: Near, call: Call)
    requires me in db.users
    ensures Serve(db, me, near, call) ==
            match call
            case ForSocial(c) => ServeSocial(db, me, c)
            case ForCheckin(c) => ServeCheckin(db, me, c)
            case ForList(c) => ServeList(db, me, c)
            case ForLike(c) => ServeLike(db, me, c)
            case ForBookmark(c) => ServeBookmark(db, me, c)
            case ForAccount(c) => ServeAccount(db, me, c)
            case ForVenue(c) => ServeVenue(db, me, near, c)
  {
  }

  /** What a caller turned away is told is why; past the gate, what the call raised, if anything. */
  lemma AnswerExactly(db: Db, near: Near, me: UserId, fallback: string, call: Call)
    ensures var start := GetCurrentUser(db, me, fallback);
            var answer := ErrorOf(db, near, SignedIn(me, fallback, call));
            if start.Raised? then answer == Some(start.error)
            else
              var d := if start.Committed? then start.db else db;
              && me in d.users
              && var out := Serve(d, me, near, call); answer == if out.Raised? then Some(out.error) else None
  {
    hide Serve;
  }

  /** A run is its requests one after the other. */
  lemma RunIsInOrder(db: Db, near: Near, rs: seq<Request>, r: Request)
    ensures Run(db, near, []) == db
    ensures Run(db, near, rs + [r]) == Exec(Run(db, near, rs), near, r)
  {
    hide Exec;
    assert (rs + [r])[..|rs|] == rs;
  }

  /** The provider's announcement creates the account once; where it exists, or its handle is
      taken, nothing changes. */
  lemma ProvisionedExactly(db: Db, near: Near, id: UserId, name: string)
    ensures Exec(db, near, Provisioned(id, name)) ==
            if id in db.users || HandleHeld(db, name) then db
            else With(db, id, User(Member, Active, name, None, ""))
  {
  }

  lemma ProviderDeletionExactly(db: Db, near: Near, id: UserId)
    requires Invariant(db)
    ensures Exec(db, near, ProviderDeleted(id)) == if id in db.users then PurgeUser(db, id) else db
  {
    OwnRowIsWritable(db, id);
  }

  // --- profile --------------------------------------------------------------------

  /** A handle may change thirty days after it last did, to one nobody else holds; whose it is
      is only told when the caller can see them. The change is stamped, and the other fields
      are written as asked. */
  lemma EditExactly(db: Db, me: UserId, near: Near, name: Option<string>, text: Option<string>, now: int)
    requires me in db.users
    ensures ServeAccount(db, me, Edit(name, text, now)) ==
            var was := db.users[me];
            var renamed := name.Some? && name.value != was.username;
            if renamed && was.usernameChangedAt.Some? && now < was.usernameChangedAt.value + THIRTY_DAYS
            then Raised(UsernameChangedTooRecently)
            else if renamed && HeldInSight(db, me, name.value) then Raised(UsernameTaken)
            else if renamed && HeldByOther(db, me, name.value) then Raised(Refused)
            else Committed(With(db, me,
              User(was.role, was.status, Or(name, was.username),
                   if renamed then Some(now) else was.usernameChangedAt, Or(text, was.profile))))
  {
    SightIsPolicy(db, me, Or(name, ""));
  }

  lemma SightIsPolicy(db: Db, me: UserId, name: string)
    requires me in db.users
    ensures SeesUsernameTaken(db, me, name) <==> HeldInSight(db, me, name)
  {
  }

  // --- status ----------------------------------------------------------------------

  lemma FreezeExactly(db: Db, me: UserId)
    requires me in db.users
    ensures ServeAccount(db, me, Freeze) ==
            if db.users[me].status == Active then Committed(With(db, me, db.users[me].(status := Frozen))) else Unchanged
  {
  }

  /** Freezing is undone, to the letter, by signing in again. */
  lemma FreezeIsUndoneBySigningIn(db: Db, me: UserId, fallback: string)
    requires me in db.users && db.users[me].status == Active
    ensures var out := ServeAccount(db, me, Freeze);
            out.Committed? && GetCurrentUser(out.db, me, fallback) == Committed(db)
  {
    var d := ServeAccount(db, me, Freeze).db;
    assert d.users[me := d.users[me].(status := Active)] == db.users;
  }

  /** Only admins suspend; suspending sets that one account's status and nothing else. */
  lemma SuspendExactly(db: Db, me: UserId, u: UserId)
    requires me in db.users
    ensures ServeAccount(db, me, AccountCall.Suspend(u)) ==
            if db.users[me].role == Member then Raised(AdminRequired)
            else if u !in db.users then Raised(UserNotFound)
            else if db.users[u].status == Suspended then Unchanged
            else Committed(With(db, u, db.users[u].(status := Suspended)))
  {
  }

  /** From then on none of the account's requests changes anything. */
  lemma SuspendedIsShutOut(db: Db, near: Near, me: UserId, u: UserId, fallback: string, call: Call)
    requires me in db.users && ServeAccount(db, me, AccountCall.Suspend(u)).Committed?
    ensures var d := ServeAccount(db, me, AccountCall.Suspend(u)).db;
            && u in d.users && d.users[u].status == Suspended
            && GetCurrentUser(d, u, fallback) == Raised(AccountSuspended)
            && Exec(d, near, SignedIn(u, fallback, call)) == d
  {
    SuspendExactly(db, me, u);
    var d := ServeAccount(db, me, AccountCall.Suspend(u)).db;
    SignInExactly(d, u, fallback);
    hide Serve;
  }

  /** A frozen or suspended account's check-ins leave every listing, for every reader. */
  lemma InactiveIsUnlisted(db: Db, reader: Option<UserId>, v: VenueId, c: CheckinId)
    requires ForeignKeys(db) && KnownViewer(db, reader)
    requires c in db.checkins && db.users[db.checkins[c].owner].status != Active
    ensures !VenueListingAdmits(db, reader, v, c) && !UserListingAdmits(db, reader, db.checkins[c].owner, c)
  {
  }

  // --- deletion -----------------------------------------------------------------------

  lemma DeleteMeExactly(db: Db, me: UserId)
    requires Invariant(db) && me in db.users
    ensures ServeAccount(db, me, DeleteMe) == Committed(PurgeUser(db, me))
  {
    OwnRowIsWritable(db, me);
  }
}
