/** The mismatch preflight and the audited repairs an operator runs from its report. */
module SecurityPreflight {
  import opened Basics
  import opened OutboxRows
  import opened Authorization

  datatype Report = Report(
    flaggedNotSuperadmin: set<UserId>, superadminNotFlagged: set<UserId>,
    activeSuperusers: nat, withActiveSessions: set<UserId>)
  {
    predicate Clean() { flaggedNotSuperadmin == {} && superadminNotFlagged == {} }
    function Inconsistent(): set<UserId> { flaggedNotSuperadmin + superadminNotFlagged }
  }

  /** The two mismatch directions together report exactly the inconsistent rows. */
  function Preflight(db: Db, now: real): (r: Report)
    ensures forall id :: id in r.Inconsistent() <==> id in db.users && Mismatched(db.users[id])
    ensures forall id :: id in r.withActiveSessions <==> id in r.Inconsistent() && ActiveSessions(db, id, now) != {}
  {
    var flagged := set id | id in db.users && db.users[id].isSuperuser && db.users[id].role != SuperAdmin;
    var unflagged := set id | id in db.users && !db.users[id].isSuperuser && db.users[id].role == SuperAdmin;
    Report(flagged, unflagged, |Superusers(db.users)|,
           set id | id in flagged + unflagged && ActiveSessions(db, id, now) != {})
  }

  /** What a report says, row by row. */
  lemma ReportColumns(db: Db, now: real, id: UserId)
    ensures var r := Preflight(db, now);
            && (id in r.flaggedNotSuperadmin <==> id in db.users && db.users[id].isSuperuser && db.users[id].role != SuperAdmin)
            && (id in r.superadminNotFlagged <==> id in db.users && !db.users[id].isSuperuser && db.users[id].role == SuperAdmin)
            && (id in r.withActiveSessions <==>
                  && id in r.flaggedNotSuperadmin + r.superadminNotFlagged
                  && exists s | s in db.sessions :: db.sessions[s].owner == id && !db.sessions[s].revoked && now < db.sessions[s].refreshExpiresAt)
  {
    if s :| s in db.sessions && db.sessions[s].owner == id && !db.sessions[s].revoked && now < db.sessions[s].refreshExpiresAt {
      assert s in ActiveSessions(db, id, now);
    }
    if id in db.users && ActiveSessions(db, id, now) != {} {
      var s :| s in ActiveSessions(db, id, now);
    }
  }

  /** One repair takes its account off every list and adds it to the superusers exactly if it
      is active and made one; nothing else in the report moves. */
  lemma RepairMovesReport(db: Db, c: Command, now: real)
    requires c.id in db.users && Mismatched(db.users[c.id]) && CanAdvance(db.users[c.id].generation)
    ensures var r, after := Preflight(db, now), Preflight(RepairOne(db, c), now);
            && after.flaggedNotSuperadmin == r.flaggedNotSuperadmin - {c.id}
            && after.superadminNotFlagged == r.superadminNotFlagged - {c.id}
            && after.withActiveSessions == r.withActiveSessions - {c.id}
            && after.activeSuperusers == r.activeSuperusers + if c.role == SuperAdmin && db.users[c.id].isActive then 1 else 0
  {
    var one := RepairOne(db, c);
    RepairedRow(db, c, one, now);
    RepairedLists(db, c.id, one, now);
    RepairedCount(db.users, one.users, c.id);
  }

  lemma RepairedCount(users: map<UserId, User>, after: map<UserId, User>, id: UserId)
    requires id in users && after.Keys == users.Keys && Mismatched(users[id]) && !Mismatched(after[id])
    requires forall k | k in users && k != id :: after[k] == users[k]
    ensures |Superusers(after)| == |Superusers(users)| + if after[id].role == SuperAdmin && after[id].isActive then 1 else 0
  {
    assert Superusers(after) == Superusers(users) + if after[id].role == SuperAdmin && after[id].isActive then {id} else {};
  }

  lemma RepairedLists(db: Db, id: UserId, one: Db, now: real)
    requires id in db.users && one.users.Keys == db.users.Keys && !Mismatched(one.users[id])
    requires forall k | k in db.users && k != id :: one.users[k] == db.users[k]
    requires forall k | k != id :: ActiveSessions(one, k, now) == ActiveSessions(db, k, now)
    ensures var r, after := Preflight(db, now), Preflight(one, now);
            && after.flaggedNotSuperadmin == r.flaggedNotSuperadmin - {id}
            && after.superadminNotFlagged == r.superadminNotFlagged - {id}
            && after.withActiveSessions == r.withActiveSessions - {id}
  {
  }

  lemma RepairedRow(db: Db, c: Command, one: Db, now: real)
    requires c.id in db.users && Mismatched(db.users[c.id]) && CanAdvance(db.users[c.id].generation) && one == RepairOne(db, c)
    ensures one.users.Keys == db.users.Keys && forall id | id in db.users && id != c.id :: one.users[id] == db.users[id]
    ensures one.users[c.id].role == c.role && !Mismatched(one.users[c.id]) && one.users[c.id].isActive == db.users[c.id].isActive
    ensures forall id | id != c.id :: ActiveSessions(one, id, now) == ActiveSessions(db, id, now)
  {
    forall id | id != c.id
      ensures ActiveSessions(one, id, now) == ActiveSessions(db, id, now)
    {
    }
  }

  /** One call of the repair command. */
  datatype Command = Command(id: UserId, role: Role)

  /** A refused repair leaves the database as it was. */
  function RepairOne(db: Db, c: Command): Db {
    match RepairOutcome(db, c.id, c.role, [])
    case Refused(_) => db
    case Committed(after, _) => after
  }

  function RepairAll(db: Db, commands: seq<Command>): Db
    decreases |commands|
  {
    if commands == [] then db else RepairAll(RepairOne(db, commands[0]), commands[1..])
  }

  /** The role of the first command for an account. */
  function FirstRole(commands: seq<Command>, id: UserId): Option<Role> {
    if commands == [] then None
    else if commands[0].id == id then Some(commands[0].role)
    else FirstRole(commands[1..], id)
  }

  predicate Repairable(u: User, role: Option<Role>) {
    role.Some? && Mismatched(u) && CanAdvance(u.generation)
  }

  function RepairedUser(u: User, role: Option<Role>): User {
    if Repairable(u, role)
    then u.(role := role.value, isSuperuser := DeriveIsSuperuser(role.value), generation := u.generation + 1)
    else u
  }

  /** What a batch of commands amounts to, in one go and independent of their order:
      every mismatched account named takes the first role given for it. */
  function InOneGo(db: Db, commands: seq<Command>): Db {
    db.(users := map id | id in db.users :: RepairedUser(db.users[id], FirstRole(commands, id)),
        sessions := map s | s in db.sessions
                      && !(db.sessions[s].owner in db.users
                           && Repairable(db.users[db.sessions[s].owner], FirstRole(commands, db.sessions[s].owner)))
                      :: db.sessions[s])
  }

  lemma {:induction false} RepairsInOneGo(db: Db, commands: seq<Command>)
    ensures RepairAll(db, commands) == InOneGo(db, commands)
    decreases |commands|
  {
    if commands == [] {
      assert InOneGo(db, commands).users == db.users;
      assert InOneGo(db, commands).sessions == db.sessions;
    } else {
      OneCommandInOneGo(db, commands[0]);
      RepairsInOneGo(RepairOne(db, commands[0]), commands[1..]);
      OneThenRest(db, commands);
    }
  }

  lemma OneCommandInOneGo(db: Db, c: Command)
    ensures RepairOne(db, c) == InOneGo(db, [c])
  {
    assert forall id | id in db.users :: FirstRole([c], id) == if c.id == id then Some(c.role) else None;
    assert RepairOne(db, c).users == InOneGo(db, [c]).users;
    assert RepairOne(db, c).sessions == InOneGo(db, [c]).sessions;
  }

  lemma OneThenRest(db: Db, commands: seq<Command>)
    requires commands != []
    ensures InOneGo(InOneGo(db, [commands[0]]), commands[1..]) == InOneGo(db, commands)
  {
    var first := InOneGo(db, [commands[0]]);
    forall id | id in db.users
      ensures RepairedUser(first.users[id], FirstRole(commands[1..], id)) == RepairedUser(db.users[id], FirstRole(commands, id))
      ensures Repairable(db.users[id], FirstRole(commands, id))
              <==> || Repairable(db.users[id], FirstRole([commands[0]], id))
                   || Repairable(first.users[id], FirstRole(commands[1..], id))
    {
      assert FirstRole([commands[0]], id) == if commands[0].id == id then Some(commands[0].role) else None;
    }
    assert InOneGo(first, commands[1..]).users == InOneGo(db, commands).users;
    assert InOneGo(first, commands[1..]).sessions == InOneGo(db, commands).sessions;
  }

  /** Each repair enqueues the effects of the sessions the account had before any of them,
      under the generation after the one it had then, whatever was repaired before it. */
  lemma RepairsEnqueueWhatWasThere(db: Db, earlier: seq<Command>, c: Command, ids: seq<SessionId>, now: real)
    requires FirstRole(earlier, c.id).None? && c.id in db.users && Repairable(db.users[c.id], Some(c.role))
    requires Lists(ids, ActiveSessions(db, c.id, now))
    ensures var at := RepairAll(db, earlier);
            && Lists(ids, ActiveSessions(at, c.id, now))
            && var o := RepairOutcome(at, c.id, c.role, ids);
               o.Committed? && o.enqueued == Effects(db, c.id, db.users[c.id].generation + 1, ids)
  {
    RepairsInOneGo(db, earlier);
    var at := RepairAll(db, earlier);
    assert ActiveSessions(at, c.id, now) == ActiveSessions(db, c.id, now);
    SameEffects(db, at, c.id, db.users[c.id].generation + 1, ids);
  }

  lemma SameEffects(db: Db, at: Db, id: UserId, generation: nat, ids: seq<SessionId>)
    requires forall i | 0 <= i < |ids| :: ids[i] in db.sessions && ids[i] in at.sessions && at.sessions[ids[i]] == db.sessions[ids[i]]
    ensures Effects(at, id, generation, ids) == Effects(db, id, generation, ids)
  {
    assert BlacklistRows(at.sessions, id, generation, ids) == BlacklistRows(db.sessions, id, generation, ids);
  }

  /** Repairing in any order, to any roles, leaves the preflight clean exactly when every
      id it reports is named and has generations left. */
  lemma CleanIffEveryReportedIdRepaired(db: Db, commands: seq<Command>, now: real, later: real)
    ensures Preflight(RepairAll(db, commands), later).Clean()
            <==> forall id | id in Preflight(db, now).Inconsistent() ::
                   FirstRole(commands, id).Some? && CanAdvance(db.users[id].generation)
  {
    RepairsInOneGo(db, commands);
    var after := Preflight(RepairAll(db, commands), later);
    if after.Clean() {
      forall id | id in Preflight(db, now).Inconsistent()
        ensures FirstRole(commands, id).Some? && CanAdvance(db.users[id].generation)
      {
        assert id !in after.Inconsistent();
      }
    } else {
      var id :| id in after.Inconsistent();
      assert id in Preflight(db, now).Inconsistent();
    }
  }

  /** Whatever is repaired: no active canonical superuser is lost, each account's generation
      moves at most once and only with a repair, and nothing else moves. */
  lemma RepairsKeepWhatIsConsistent(db: Db, commands: seq<Command>, id: UserId)
    requires id in db.users
    ensures var after := RepairAll(db, commands);
            && Superusers(db.users) <= Superusers(after.users) && after.users.Keys == db.users.Keys
            && (Consistent(db.users[id].role, db.users[id].isSuperuser) ==> after.users[id] == db.users[id])
            && (Mismatched(db.users[id]) ==>
                  after.users[id].generation ==
                    db.users[id].generation + if Mismatched(after.users[id]) then 0 else 1)
            && (forall s | s in db.sessions && db.sessions[s].owner == id ::
                  s in after.sessions <==> after.users[id].generation == db.users[id].generation)
  {
    RepairsInOneGo(db, commands);
  }

  /** Running the same commands again, all or some of them, changes nothing. */
  lemma RepeatedRepairsChangeNothing(db: Db, commands: seq<Command>, again: seq<Command>)
    requires forall i | 0 <= i < |again| :: FirstRole(commands, again[i].id).Some?
    ensures RepairAll(RepairAll(db, commands), again) == RepairAll(db, commands)
  {
    RepairsInOneGo(db, commands);
    var after := RepairAll(db, commands);
    RepairsInOneGo(after, again);
    forall id | id in after.users
      ensures !Repairable(after.users[id], FirstRole(again, id))
    {
      FirstRoleNamed(again, id);
    }
    assert InOneGo(after, again).users == after.users;
    assert InOneGo(after, again).sessions == after.sessions;
  }

  lemma {:induction false} FirstRoleNamed(commands: seq<Command>, id: UserId)
    ensures FirstRole(commands, id).Some? <==> exists i :: 0 <= i < |commands| && commands[i].id == id
  {
    if commands != [] {
      FirstRoleNamed(commands[1..], id);
      if i :| 0 <= i < |commands| && commands[i].id == id {
        if i > 0 {
          assert commands[1..][i - 1] == commands[i];
        }
      }
    }
  }
}
