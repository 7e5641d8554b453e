/** Account and venue services statement by statement (`app/services/user.py`,
    `app/services/venue.py`) and the sign-in gate (`app/core/auth.py`). */
module AccountServices {
  import opened Wrappers
  import opened Schema
  import opened Content
  import opened Accounts
  import opened Venues
  import opened Sessions
  import opened Requests

  // --- accounts ----------------------------------------------------------------

  /** Runs before the session has its identity, so this one write passes by the policies. */
  method Reactivate(session: Session, u: UserId) returns (reply: Reply)
    requires u in session.working.users
    modifies session
    ensures Ends(old(session.committed), old(session.working), ReactivateAccount(old(session.working), u),
                 session.committed, session.working, reply)
  {
    var user := session.working.users[u];
    if user.status.Active? {
      return Returned;
    }
    if !user.status.Frozen? {
      return Raises(AccountNotFrozen);
    }
    user := user.(status := Active);
    session.working := session.working.(users := session.working.users[u := user]);
    session.Commit();
    return Returned;
  }

  method AuthenticateUser(session: Session, u: UserId, fallback: string) returns (reply: Reply)
    modifies session
    ensures Ends(old(session.committed), old(session.working), GetCurrentUser(old(session.working), u, fallback),
                 session.committed, session.working, reply)
  {
    if u !in session.working.users {
      reply := ProvisionUser(session, u, fallback);
      return;
    }
    if session.working.users[u].status.Suspended? {
      return Raises(AccountSuspended);
    }
    if session.working.users[u].status.Frozen? {
      reply := Reactivate(session, u);
      return;
    }
    return Returned;
  }

  /** An insert that meets the row of a request or event that came first gives way to it. */
  method ProvisionUser(session: Session, id: UserId, username: string) returns (reply: Reply)
    modifies session
    ensures Ends(old(session.committed), old(session.working), Provision(old(session.working), id, username),
                 session.committed, session.working, reply)
  {
    var ok := session.InsertUser(id, FreshUser(username));
    if ok {
      session.Commit();
      return Returned;
    }
    if id in session.working.users {
      return Returned;
    }
    return Raises(Refused);
  }

  /** A row that keeps its handle never trips the unique constraint. */
  lemma HandleStaysOwn(db: Db, u: UserId)
    requires u in db.users && UniqueUsernames(db.users)
    ensures !UsernameTakenByOther(db, u, db.users[u].username)
  {
  }

  /** The handle is checked and stamped first; the remaining fields follow; the unique
      constraint speaks when the commit flushes the row. */
  method EditProfile(session: Session, me: UserId, username: Option<string>, profile: Option<string>, now: int)
    returns (reply: Reply)
    requires session.me == Some(me) && me in session.working.users
    requires PairKeys(session.working.users.Keys, session.working.blocks) && UniqueUsernames(session.working.users)
    modifies session
    ensures Ends(old(session.committed), old(session.working), UpdateProfile(old(session.working), me, username, profile, now),
                 session.committed, session.working, reply)
  {
    var user := session.working.users[me];
    if username.Some? && username.value != user.username {
      if user.usernameChangedAt.Some? && now < user.usernameChangedAt.value + USERNAME_CHANGE_INTERVAL {
        return Raises(UsernameChangedTooRecently);
      }
      if SeesUsernameTaken(session.working, me, username.value) {
        return Raises(UsernameTaken);
      }
      user := user.(username := username.value, usernameChangedAt := Some(now));
    }
    if profile.Some? {
      user := user.(profile := profile.value);
    }
    OwnRowIsWritable(session.working, me);
    HandleStaysOwn(session.working, me);
    var ok := session.UpdateUser(me, user);
    if !ok {
      return Raises(Refused);
    }
    session.Commit();
    return Returned;
  }

  method FreezeUser(session: Session, me: UserId) returns (reply: Reply)
    requires session.me == Some(me) && me in session.working.users
    requires PairKeys(session.working.users.Keys, session.working.blocks) && UniqueUsernames(session.working.users)
    modifies session
    ensures Ends(old(session.committed), old(session.working), FreezeAccount(old(session.working), me),
                 session.committed, session.working, reply)
  {
    var user := session.working.users[me];
    if user.status.Active? {
      OwnRowIsWritable(session.working, me);
      HandleStaysOwn(session.working, me);
      var ok := session.UpdateUser(me, user.(status := Frozen));
      session.Commit();
    }
    return Returned;
  }

  method SuspendUser(session: Session, me: UserId, u: UserId) returns (reply: Reply)
    requires session.me == Some(me) && me in session.working.users && UniqueUsernames(session.working.users)
    modifies session
    ensures Ends(old(session.committed), old(session.working), SuspendAccount(old(session.working), me, u),
                 session.committed, session.working, reply)
  {
    if !session.working.users[me].role.Admin? {
      return Raises(AdminRequired);
    }
    if u !in session.working.users {
      return Raises(UserNotFound);
    }
    var user := session.working.users[u];
    if !user.status.Suspended? {
      AdminsWriteEveryUser(session.working, me, u);
      HandleStaysOwn(session.working, u);
      var ok := session.UpdateUser(u, user.(status := Suspended));
      session.Commit();
    }
    return Returned;
  }

  method DeleteUser(session: Session, u: UserId) returns (reply: Reply)
    modifies session
    ensures Ends(old(session.committed), old(session.working), DeleteAccount(old(session.working), session.me, u),
                 session.committed, session.working, reply)
  {
    session.DeleteUser(u);
    session.Commit();
    return Returned;
  }

  // --- venues ------------------------------------------------------------------

  method AddVenue(session: Session, me: UserId, near: Near, id: VenueId, category: CategoryId, googleId: Option<string>,
                  place: Place, confirmDuplicate: bool) returns (reply: Reply)
    requires session.me == Some(me)
    modifies session
    ensures Ends(old(session.committed), old(session.working),
                 CreateVenue(old(session.working), me, near, id, category, googleId, place, confirmDuplicate),
                 session.committed, session.working, reply)
  {
    var db := session.working;
    if category !in db.categories {
      return Raises(VenueCategoryNotFound);
    }
    if googleId.Some? {
      if SeesGoogleId(db, session.me, googleId.value) {
        return Returned;
      }
    }
    if !confirmDuplicate {
      if SeesNearby(db, session.me, near, place) {
        return Raises(DuplicateVenueNearby);
      }
    }
    var ok := session.InsertVenue(id, FreshVenue(category, me, googleId, place));
    if !ok {
      return Raises(Refused);
    }
    session.Commit();
    return Returned;
  }

  method ConfirmVenue(session: Session, me: UserId, v: VenueId) returns (reply: Reply)
    requires session.me == Some(me) && me in session.working.users
    modifies session
    ensures Ends(old(session.committed), old(session.working), VerifyVenueByAdmin(old(session.working), me, v),
                 session.committed, session.working, reply)
  {
    if !session.working.users[me].role.Admin? {
      return Raises(AdminRequired);
    }
    var found := SelectVenue(session.working, session.me, v);
    if found.None? {
      return Raises(VenueNotFound);
    }
    if found.value.verified {
      return Returned;
    }
    var visitors := SeenPublicVisitors(session.working, session.me, v);
    if |visitors| < MIN_CHECKINS_FOR_ADMIN_VERIFICATION {
      return Raises(VenueNotEligible);
    }
    AdminsWriteEveryVenue(session.working, me, found.value);
    AdminsWriteEveryVenue(session.working, me, found.value.(verified := true));
    var ok := session.UpdateVenue(v, found.value.(verified := true));
    session.Commit();
    return Returned;
  }

  method ShutVenue(session: Session, me: UserId, v: VenueId) returns (reply: Reply)
    requires session.me == Some(me) && me in session.working.users
    modifies session
    ensures Ends(old(session.committed), old(session.working), CloseVenue(old(session.working), me, v),
                 session.committed, session.working, reply)
  {
    if !session.working.users[me].role.Admin? {
      return Raises(AdminRequired);
    }
    var found := SelectVenue(session.working, session.me, v);
    if found.None? {
      return Raises(VenueNotFound);
    }
    if found.value.active {
      AdminsWriteEveryVenue(session.working, me, found.value);
      AdminsWriteEveryVenue(session.working, me, found.value.(active := false));
      var ok := session.UpdateVenue(v, found.value.(active := false));
      session.Commit();
    }
    return Returned;
  }

  method HideVenue(session: Session, me: UserId, v: VenueId) returns (reply: Reply)
    requires session.me == Some(me) && me in session.working.users
    modifies session
    ensures Ends(old(session.committed), old(session.working), SuspendVenue(old(session.working), me, v),
                 session.committed, session.working, reply)
  {
    if !session.working.users[me].role.Admin? {
      return Raises(AdminRequired);
    }
    var found := SelectVenue(session.working, session.me, v);
    if found.None? {
      return Raises(VenueNotFound);
    }
    if !found.value.suspended {
      AdminsWriteEveryVenue(session.working, me, found.value);
      AdminsWriteEveryVenue(session.working, me, found.value.(suspended := true));
      var ok := session.UpdateVenue(v, found.value.(suspended := true));
      session.Commit();
    }
    return Returned;
  }

  // --- dispatch ----------------------------------------------------------------

  method HandleAccount(session: Session, me: UserId, call: AccountCall) returns (reply: Reply)
    requires session.me == Some(me) && me in session.working.users
    requires PairKeys(session.working.users.Keys, session.working.blocks) && UniqueUsernames(session.working.users)
    modifies session
    ensures Ends(old(session.committed), old(session.working), ServeAccount(old(session.working), me, call),
                 session.committed, session.working, reply)
  {
    match call {
      case Edit(name, text, now) => reply := EditProfile(session, me, name, text, now);
      case Freeze => reply := FreezeUser(session, me);
      case Suspend(u) => reply := SuspendUser(session, me, u);
      case DeleteMe => reply := DeleteUser(session, me);
    }
  }

  method HandleVenue(session: Session, me: UserId, near: Near, call: VenueCall) returns (reply: Reply)
    requires session.me == Some(me) && me in session.working.users
    modifies session
    ensures Ends(old(session.committed), old(session.working), ServeVenue(old(session.working), me, near, call),
                 session.committed, session.working, reply)
  {
    match call {
      case NewVenue(v, category, g, place, confirm) =>
        reply := AddVenue(session, me, near, v, category, g, place, confirm);
      case Verify(v) => reply := ConfirmVenue(session, me, v);
      case Close(v) => reply := ShutVenue(session, me, v);
      case Hide(v) => reply := HideVenue(session, me, v);
    }
  }
}
