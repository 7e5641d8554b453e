/** Whose identity row security sees (`app/core/database.py`): a setting local to the
    transaction, applied when the caller becomes known and again by a hook whenever the
    session begins another transaction, over connections that sessions take turns on. */
module RlsIdentity {
  import opened Wrappers

  type UserId = int
  type SessionId = int
  type ConnectionId = int

  /** `current_setting('app.current_user_id', true)`. Once a transaction has touched the
      setting, the connection falls back to an empty string, never again to null. */
  datatype Setting = Unset | Empty | Value(user: UserId)

  /** `base` outlives transactions, `local` is what `SET LOCAL` put in the open one. */
  datatype Connection = Connection(base: Setting, local: Option<Setting>)

  /** Whether the open transaction already shows what the session has recorded. `Pending` is
      the moment between recording an identity and applying it, while the session's own
      coroutine waits and runs no query: the transaction still shows what it was begun with. */
  datatype Progress = Settled | Pending(shown: Option<UserId>)

  /** `info` is `session.info`, `tx` the connection whose transaction is open. */
  datatype Session = Session(info: Option<UserId>, tx: Option<ConnectionId>, progress: Progress)

  function Shown(session: Session): Option<UserId> {
    if session.progress.Pending? then session.progress.shown else session.info
  }

  /** `session.info` rewritten; the open transaction, if any, follows later. */
  function Rewritten(session: Session, info: Option<UserId>): Session {
    Session(info, session.tx, if session.tx.None? then Settled else Pending(Shown(session)))
  }

  datatype World = World(sessions: map<SessionId, Session>, connections: map<ConnectionId, Connection>)

  /** One event of one session. Several sessions' events may come in any order. */
  datatype Step =
    | Open(s: SessionId)
    | Begin(s: SessionId, c: ConnectionId)
    | Record(s: SessionId, user: UserId)
    | Forget(s: SessionId)
    | Apply(s: SessionId)
    | End(s: SessionId)  // commit or rollback
    | Close(s: SessionId)

  function Visible(c: Connection): Setting {
    if c.local.Some? then c.local.value else c.base
  }

  /** `rls_current_user_id()`: an empty setting is no identity. */
  function CurrentUserId(c: Connection): Option<UserId> {
    match Visible(c)
    case Value(u) => Some(u)
    case _ => None
  }

  function SettingFor(info: Option<UserId>): Setting {
    if info.Some? then Value(info.value) else Empty
  }

  function SetLocal(c: Connection, value: Setting): Connection {
    Connection(if c.base.Unset? then Empty else c.base, Some(value))
  }

  function Ended(c: Connection): Connection { c.(local := None) }

  ghost predicate Idle(w: World, c: ConnectionId) {
    c in w.connections && forall s <- w.sessions :: w.sessions[s].tx != Some(c)
  }

  /** The connection as `after_begin` leaves it. */
  function Entered(c: Connection, info: Option<UserId>): Connection {
    if info.Some? then SetLocal(c, Value(info.value)) else c
  }

  predicate InTransaction(w: World, s: SessionId) {
    s in w.sessions && w.sessions[s].tx.Some? && w.sessions[s].tx.value in w.connections
  }

  /** A step that is not possible in the world it meets does nothing. */
  ghost function Next(w: World, step: Step): World {
    match step
    case Open(s) =>
      if s in w.sessions then w else w.(sessions := w.sessions[s := Session(None, None, Settled)])
    case Begin(s, c) =>
      if s !in w.sessions || w.sessions[s].tx.Some? || !Idle(w, c) then w
      else World(w.sessions[s := Session(w.sessions[s].info, Some(c), Settled)],
                 w.connections[c := Entered(w.connections[c], w.sessions[s].info)])
    case Record(s, u) =>
      if s !in w.sessions then w
      else w.(sessions := w.sessions[s := Rewritten(w.sessions[s], Some(u))])
    case Forget(s) =>
      if s !in w.sessions then w
      else w.(sessions := w.sessions[s := Rewritten(w.sessions[s], None)])
    case Apply(s) =>
      if !InTransaction(w, s) then w
      else
        var c := w.sessions[s].tx.value;
        World(w.sessions[s := w.sessions[s].(progress := Settled)],
              w.connections[c := SetLocal(w.connections[c], SettingFor(w.sessions[s].info))])
    case End(s) =>
      if !InTransaction(w, s) then w
      else
        var c := w.sessions[s].tx.value;
        World(w.sessions[s := Session(w.sessions[s].info, None, Settled)],
              w.connections[c := Ended(w.connections[c])])
    case Close(s) =>
      var ended := if InTransaction(w, s) then
                     w.connections[w.sessions[s].tx.value := Ended(w.connections[w.sessions[s].tx.value])]
                   else w.connections;
      World(w.sessions - {s}, ended)
  }

  /** What executing the statement does: begin if need be, then apply. */
  ghost function Executed(w: World, s: SessionId, c: ConnectionId): World {
    if s in w.sessions && w.sessions[s].tx.None? then Next(Next(w, Begin(s, c)), Apply(s)) else Next(w, Apply(s))
  }

  lemma RecordKeepsIdle(w: World, s: SessionId, u: UserId, c: ConnectionId)
    requires s in w.sessions
    ensures Idle(w, c) ==> Idle(Next(w, Record(s, u)), c) && Idle(Next(w, Forget(s)), c)
  {
  }

  // --- the invariant ----------------------------------------------------------------

  /** In an open transaction the database sees exactly the identity its own session has
      recorded, or none if it has recorded none. */
  predicate SeesItself(w: World, s: SessionId)
    requires InTransaction(w, s)
  {
    CurrentUserId(w.connections[w.sessions[s].tx.value]) == Shown(w.sessions[s])
  }

  ghost predicate Safe(w: World) {
    && (forall s <- w.sessions | w.sessions[s].tx.Some? :: InTransaction(w, s) && SeesItself(w, s))
    && (forall s, t | s in w.sessions && t in w.sessions && w.sessions[s].tx.Some?
                      && w.sessions[s].tx == w.sessions[t].tx :: s == t)
    && (forall c <- w.connections :: !w.connections[c].base.Value?)
    && (forall c <- w.connections | Idle(w, c) :: w.connections[c].local.None?)
  }

  lemma OpenIsSafe(w: World, s: SessionId)
    requires Safe(w)
    ensures Safe(Next(w, Open(s)))
  {
    var w' := Next(w, Open(s));
    forall c <- w'.connections | Idle(w', c) ensures Idle(w, c) {
      forall t <- w.sessions ensures w.sessions[t].tx != Some(c) { assert t in w'.sessions; }
    }
  }

  lemma BeginIsSafe(w: World, s: SessionId, c: ConnectionId)
    requires Safe(w)
    ensures Safe(Next(w, Begin(s, c)))
  {
    var w' := Next(w, Begin(s, c));
    forall d <- w'.connections | w' != w && Idle(w', d) ensures d != c && Idle(w, d) {
      assert w'.sessions[s].tx == Some(c);
      forall t <- w.sessions ensures w.sessions[t].tx != Some(d) { assert t in w'.sessions; }
    }
  }

  lemma RecordIsSafe(w: World, s: SessionId, u: UserId)
    requires Safe(w)
    ensures Safe(Next(w, Record(s, u))) && Safe(Next(w, Forget(s)))
  {
    forall w' | w' == Next(w, Record(s, u)) || w' == Next(w, Forget(s)) ensures Safe(w') {
      forall c <- w'.connections | Idle(w', c) ensures Idle(w, c) {
        forall t <- w.sessions ensures w.sessions[t].tx != Some(c) { assert t in w'.sessions; }
      }
    }
  }

  lemma ApplyIsSafe(w: World, s: SessionId)
    requires Safe(w)
    ensures Safe(Next(w, Apply(s)))
  {
    var w' := Next(w, Apply(s));
    forall c <- w'.connections | Idle(w', c) ensures Idle(w, c) {
      forall t <- w.sessions ensures w.sessions[t].tx != Some(c) { assert t in w'.sessions; }
    }
  }

  lemma EndIsSafe(w: World, s: SessionId)
    requires Safe(w)
    ensures Safe(Next(w, End(s)))
  {
    var w' := Next(w, End(s));
    forall c <- w'.connections | Idle(w', c) ensures w'.connections[c].local.None? {
      forall t <- w.sessions | t != s ensures w.sessions[t].tx != Some(c) { assert t in w'.sessions; }
      FreedIsClean(w, s, c);
    }
  }

  lemma CloseIsSafe(w: World, s: SessionId)
    requires Safe(w)
    ensures Safe(Next(w, Close(s)))
  {
    var w' := Next(w, Close(s));
    forall c <- w'.connections | Idle(w', c) ensures w'.connections[c].local.None? {
      forall t <- w.sessions | t != s ensures w.sessions[t].tx != Some(c) { assert t in w'.sessions; }
      FreedIsClean(w, s, c);
    }
  }

  /** A connection no one but `s` holds is idle once `s` lets go of it. */
  lemma FreedIsClean(w: World, s: SessionId, c: ConnectionId)
    requires Safe(w) && c in w.connections
    requires forall t <- w.sessions | t != s :: w.sessions[t].tx != Some(c)
    ensures (InTransaction(w, s) && w.sessions[s].tx == Some(c)) || w.connections[c].local.None?
  {
  }

  lemma StepIsSafe(w: World, step: Step)
    requires Safe(w)
    ensures Safe(Next(w, step))
  {
    match step {
      case Open(s) => OpenIsSafe(w, s);
      case Begin(s, c) => BeginIsSafe(w, s, c);
      case Record(s, u) => RecordIsSafe(w, s, u);
      case Forget(s) => RecordIsSafe(w, s, 0);
      case Apply(s) => ApplyIsSafe(w, s);
      case End(s) => EndIsSafe(w, s);
      case Close(s) => CloseIsSafe(w, s);
    }
  }

  // --- every interleaving ---------------------------------------------------------------

  ghost function Interleaved(w: World, steps: seq<Step>): World {
    if steps == [] then w else Next(Interleaved(w, steps[..|steps| - 1]), steps[|steps| - 1])
  }

  lemma {:induction false} EveryInterleavingIsSafe(w: World, steps: seq<Step>)
    requires Safe(w)
    ensures Safe(Interleaved(w, steps))
  {
    if steps != [] {
      EveryInterleavingIsSafe(w, steps[..|steps| - 1]);
      StepIsSafe(Interleaved(w, steps[..|steps| - 1]), steps[|steps| - 1]);
    }
  }

  /** A pool of fresh connections and no session. */
  function Fresh(ids: set<ConnectionId>): World {
    World(map[], map c <- ids :: Connection(Unset, None))
  }

  /** Whatever sessions do in whatever order, an open transaction sees its own session's
      identity and nobody else's: the one now recorded or, in the moment before that is
      applied, the one the transaction had before. */
  lemma TransactionsSeeTheirOwnSession(ids: set<ConnectionId>, steps: seq<Step>, s: SessionId)
    requires var w := Interleaved(Fresh(ids), steps); s in w.sessions && w.sessions[s].tx.Some?
    ensures var w := Interleaved(Fresh(ids), steps);
            && w.sessions[s].tx.value in w.connections
            && CurrentUserId(w.connections[w.sessions[s].tx.value]) == Shown(w.sessions[s])
            && (w.sessions[s].progress.Settled? ==> Shown(w.sessions[s]) == w.sessions[s].info)
            && (Shown(w.sessions[s]).Some? ==> RecordedBy(steps, s, Shown(w.sessions[s]).value))
  {
    EveryInterleavingIsSafe(Fresh(ids), steps);
    OnlyOwnIdentities(ids, steps, s);
  }

  /** The session recorded this identity, and has not been closed since. */
  ghost predicate RecordedBy(steps: seq<Step>, s: SessionId, user: UserId) {
    exists k | 0 <= k < |steps| :: steps[k] == Record(s, user) && forall j | k < j < |steps| :: steps[j] != Close(s)
  }

  lemma StillRecorded(steps: seq<Step>, s: SessionId, user: UserId)
    requires steps != [] && RecordedBy(steps[..|steps| - 1], s, user) && steps[|steps| - 1] != Close(s)
    ensures RecordedBy(steps, s, user)
  {
    var front := steps[..|steps| - 1];
    var k :| 0 <= k < |front| && front[k] == Record(s, user) && forall j | k < j < |front| :: front[j] != Close(s);
    assert steps[k] == Record(s, user);
    forall j | k < j < |steps| ensures steps[j] != Close(s) {
      if j < |front| { assert steps[j] == front[j]; }
    }
  }

  /** Neither what a session has recorded nor what its transaction shows was ever anyone else's. */
  lemma {:induction false} OnlyOwnIdentities(ids: set<ConnectionId>, steps: seq<Step>, s: SessionId)
    requires s in Interleaved(Fresh(ids), steps).sessions
    ensures var session := Interleaved(Fresh(ids), steps).sessions[s];
            && (session.info.Some? ==> RecordedBy(steps, s, session.info.value))
            && (Shown(session).Some? ==> RecordedBy(steps, s, Shown(session).value))
  {
    if steps != [] {
      var front, step := steps[..|steps| - 1], steps[|steps| - 1];
      var before, after := Interleaved(Fresh(ids), front), Interleaved(Fresh(ids), steps);
      if s in before.sessions {
        OnlyOwnIdentities(ids, front, s);
        var was := before.sessions[s];
        assert step != Close(s);
        if was.info.Some? { StillRecorded(steps, s, was.info.value); }
        if Shown(was).Some? { StillRecorded(steps, s, Shown(was).value); }
        if step.Record? && step.s == s { assert steps[|steps| - 1] == Record(s, step.user); }
      }
    }
  }

  predicate Concerns(step: Step, s: SessionId) { step.s == s }

  /** What another session does cannot change what this one sees. */
  lemma OthersDoNotInterfere(w: World, step: Step, s: SessionId)
    requires Safe(w) && InTransaction(w, s) && !Concerns(step, s)
    ensures var w' := Next(w, step);
            && InTransaction(w', s) && w'.sessions[s] == w.sessions[s]
            && w'.connections[w.sessions[s].tx.value] == w.connections[w.sessions[s].tx.value]
  {
  }

  /** Neither a new identity for the session nor its end. */
  predicate KeepsIdentity(step: Step, s: SessionId) {
    Concerns(step, s) ==> step.Begin? || step.Apply? || step.End? || step.Open?
  }

  lemma {:induction false} IdentitySurvives(w: World, steps: seq<Step>, s: SessionId)
    requires s in w.sessions && forall step <- steps :: KeepsIdentity(step, s)
    ensures s in Interleaved(w, steps).sessions
    ensures Interleaved(w, steps).sessions[s].info == w.sessions[s].info
  {
    if steps != [] {
      assert forall step <- steps[..|steps| - 1] :: step in steps;
      IdentitySurvives(w, steps[..|steps| - 1], s);
      assert steps[|steps| - 1] in steps;
    }
  }

  /** Once set, the identity holds in every later transaction of the session, across its own
      commits and rollbacks and anything other sessions do. */
  lemma IdentityHoldsAcrossTransactions(w: World, s: SessionId, user: UserId, steps: seq<Step>)
    requires Safe(w) && s in w.sessions && w.sessions[s].info == Some(user) && w.sessions[s].progress.Settled?
    requires forall step <- steps :: KeepsIdentity(step, s)
    requires s in Interleaved(w, steps).sessions && Interleaved(w, steps).sessions[s].tx.Some?
    ensures var last := Interleaved(w, steps);
            && last.sessions[s].tx.value in last.connections
            && CurrentUserId(last.connections[last.sessions[s].tx.value]) == Some(user)
  {
    EveryInterleavingIsSafe(w, steps);
    IdentitySurvives(w, steps, s);
    StaysApplied(w, steps, s);
  }

  lemma {:induction false} StaysApplied(w: World, steps: seq<Step>, s: SessionId)
    requires s in w.sessions && w.sessions[s].progress.Settled? && forall step <- steps :: KeepsIdentity(step, s)
    ensures s in Interleaved(w, steps).sessions && Interleaved(w, steps).sessions[s].progress.Settled?
  {
    if steps != [] {
      assert forall step <- steps[..|steps| - 1] :: step in steps;
      StaysApplied(w, steps[..|steps| - 1], s);
      assert steps[|steps| - 1] in steps;
    }
  }

  // --- the code ---------------------------------------------------------------------------

  class Pool {
    var sessions: map<SessionId, Session>
    var connections: map<ConnectionId, Connection>

    constructor (ids: set<ConnectionId>)
      ensures State() == Fresh(ids) && Safe(State())
    {
      sessions := map[];
      connections := map c <- ids :: Connection(Unset, None);
    }

    function State(): World
      reads this
    {
      World(sessions, connections)
    }

    method OpenSession(s: SessionId)
      requires s !in sessions && Safe(State())
      modifies this
      ensures State() == old(Next(State(), Open(s))) && Safe(State())
      ensures s in sessions && sessions[s].info == None && sessions[s].tx == None
    {
      OpenIsSafe(State(), s);
      sessions := sessions[s := Session(None, None, Settled)];
    }

    /** The session's autobegin on a connection checked out of the pool. */
    method BeginTransaction(s: SessionId, c: ConnectionId)
      requires s in sessions && sessions[s].tx.None? && Idle(State(), c) && Safe(State())
      modifies this
      ensures State() == old(Next(State(), Begin(s, c))) && Safe(State())
      ensures InTransaction(State(), s) && sessions[s].tx == Some(c) && sessions[s].info == old(sessions[s].info)
      ensures CurrentUserId(connections[c]) == sessions[s].info
    {
      BeginIsSafe(State(), s, c);
      var info := sessions[s].info;
      sessions := sessions[s := Session(info, Some(c), Settled)];
      ApplyIdentityOnNewTransaction(s, c);
    }

    /** `_apply_rls_identity_on_new_transaction` */
    method ApplyIdentityOnNewTransaction(s: SessionId, c: ConnectionId)
      requires s in sessions && c in connections
      modifies this`connections
      ensures connections == old(connections)[c := Entered(old(connections)[c], sessions[s].info)]
    {
      var user := sessions[s].info;
      if user.None? {
        assert connections[c := connections[c]] == connections;
        return;
      }
      connections := connections[c := SetLocal(connections[c], Value(user.value))];
    }

    /** `set_current_user_identity`. Executing the statement begins a transaction, on the
        idle connection `c`, if none is open yet; the hook has then already seen the record. */
    method SetCurrentUserIdentity(s: SessionId, user: UserId, c: ConnectionId)
      requires s in sessions && Safe(State()) && (sessions[s].tx.None? ==> Idle(State(), c))
      modifies this
      ensures State() == old(Executed(Next(State(), Record(s, user)), s, c))
      ensures Safe(State()) && s in sessions && sessions[s].info == Some(user) && sessions[s].progress.Settled?
      ensures InTransaction(State(), s) && CurrentUserId(connections[sessions[s].tx.value]) == Some(user)
    {
      RecordIsSafe(State(), s, user);
      RecordKeepsIdle(State(), s, user, c);
      sessions := sessions[s := Rewritten(sessions[s], Some(user))];
      Execute(s, c);
    }

    /** `clear_current_user_identity` */
    method ClearCurrentUserIdentity(s: SessionId, c: ConnectionId)
      requires s in sessions && Safe(State()) && (sessions[s].tx.None? ==> Idle(State(), c))
      modifies this
      ensures State() == old(Executed(Next(State(), Forget(s)), s, c))
      ensures Safe(State()) && s in sessions && sessions[s].info == None
      ensures InTransaction(State(), s) && CurrentUserId(connections[sessions[s].tx.value]) == None
    {
      RecordIsSafe(State(), s, 0);
      RecordKeepsIdle(State(), s, 0, c);
      sessions := sessions[s := Rewritten(sessions[s], None)];
      Execute(s, c);
    }

    /** `session.execute(SET LOCAL ...)` for the identity just recorded. */
    method Execute(s: SessionId, c: ConnectionId)
      requires s in sessions && Safe(State()) && (sessions[s].tx.None? ==> Idle(State(), c))
      modifies this
      ensures State() == old(Executed(State(), s, c))
      ensures Safe(State()) && s in sessions && sessions[s].info == old(sessions[s].info) && sessions[s].progress.Settled?
      ensures InTransaction(State(), s) && CurrentUserId(connections[sessions[s].tx.value]) == sessions[s].info
    {
      if sessions[s].tx.None? {
        BeginTransaction(s, c);
      }
      ApplyIsSafe(State(), s);
      var open := sessions[s].tx.value;
      connections := connections[open := SetLocal(connections[open], SettingFor(sessions[s].info))];
      sessions := sessions[s := sessions[s].(progress := Settled)];
    }

    /** Commit or rollback: the transaction's local settings go with it. */
    method EndTransaction(s: SessionId)
      requires s in sessions && sessions[s].tx.Some? && Safe(State())
      modifies this
      ensures State() == old(Next(State(), End(s))) && Safe(State())
      ensures s in sessions && sessions[s].tx == None && sessions[s].info == old(sessions[s].info)
      ensures Idle(State(), old(sessions[s].tx.value))
      ensures CurrentUserId(connections[old(sessions[s].tx.value)]) == None
    {
      EndIsSafe(State(), s);
      var c := sessions[s].tx.value;
      connections := connections[c := Ended(connections[c])];
      sessions := sessions[s := Session(sessions[s].info, None, Settled)];
    }

    method CloseSession(s: SessionId)
      requires s in sessions && Safe(State())
      modifies this
      ensures State() == old(Next(State(), Close(s))) && Safe(State())
      ensures s !in sessions
      ensures old(sessions[s].tx.Some?) ==> Idle(State(), old(sessions[s].tx.value))
    {
      CloseIsSafe(State(), s);
      if sessions[s].tx.Some? {
        EndTransaction(s);
      }
      sessions := sessions - {s};
    }
  }
}
