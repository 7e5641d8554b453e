/** The running application: every request opens a session on the committed state, is
    served statement by statement, and is closed. What is left committed is exactly the
    state machine's next state, so what holds of every run holds of it. */
module Application {
  import opened Wrappers
  import opened Schema
  import opened Venues
  import opened Sessions
  import opened Requests
  import opened Invariants
  import opened SocialServices
  import opened ContentServices
  import opened AccountServices

  function Answer(error: Option<Error>): Reply {
    if error.Some? then Raises(error.value) else Returned
  }

  class Server {
    var db: Db

    ghost predicate Valid()
      reads this
    {
      Invariant(db)
    }

    /** Over a database that is already in use: accounts, admins among them, included. */
    constructor (db: Db)
      requires Invariant(db)
      ensures this.db == db && Valid()
    {
      this.db := db;
    }

    /** One request from start to finish. */
    method Handle(near: Near, r: Request) returns (reply: Reply)
      requires Valid()
      modifies this
      ensures db == Exec(old(db), near, r)
      ensures reply == Answer(ErrorOf(old(db), near, r))
      ensures Valid()
    {
      ExecKeeps(db, near, r);
      var session := new Session(db, Some(match r case SignedIn(me, _, _) => me
                                               case Provisioned(id, _) => id
                                               case ProviderDeleted(id) => id));
      match r {
        case SignedIn(me, fallback, call) => reply := ServeSignedIn(session, me, fallback, near, call);
        case Provisioned(id, name) => reply := ProvisionUser(session, id, name);
        case ProviderDeleted(id) => reply := DeleteUser(session, id);
      }
      session.Close();
      db := session.committed;
    }

    method ServeAll(near: Near, rs: seq<Request>)
      requires Valid()
      modifies this
      ensures db == Run(old(db), near, rs)
      ensures Valid()
    {
      var i := 0;
      while i < |rs|
        invariant 0 <= i <= |rs|
        invariant db == Run(old(db), near, rs[..i]) && Valid()
      {
        assert rs[..i + 1][..i] == rs[..i];
        var _ := Handle(near, rs[i]);
        i := i + 1;
      }
      assert rs[..i] == rs;
    }

    method ServeSignedIn(session: Session, me: UserId, fallback: string, near: Near, call: Call) returns (reply: Reply)
      requires session.me == Some(me) && session.committed == session.working && Invariant(session.working)
      modifies session
      ensures session.committed == Exec(old(session.committed), near, SignedIn(me, fallback, call))
      ensures reply == Answer(ErrorOf(old(session.committed), near, SignedIn(me, fallback, call)))
    {
      SignInKeeps(session.working, me, fallback);
      reply := AuthenticateUser(session, me, fallback);
      if !reply.Raises? {
        reply := ServeCall(session, me, near, call);
      }
    }

    method ServeCall(session: Session, me: UserId, near: Near, call: Call) returns (reply: Reply)
      requires session.me == Some(me) && session.committed == session.working
      requires me in session.working.users && Invariant(session.working)
      modifies session
      ensures session.committed == After(old(session.working), Serve(old(session.working), me, near, call))
      ensures reply == Answer(Failure(Serve(old(session.working), me, near, call)))
    {
      match call {
        case ForSocial(c) => reply := HandleSocial(session, me, c);
        case ForCheckin(c) => reply := HandleCheckin(session, me, c);
        case ForList(c) => reply := HandleList(session, me, c);
        case ForLike(c) => reply := HandleLike(session, me, c);
        case ForBookmark(c) => reply := HandleBookmark(session, me, c);
        case ForAccount(c) => reply := HandleAccount(session, me, c);
        case ForVenue(c) => reply := HandleVenue(session, me, near, c);
      }
    }
  }
}
