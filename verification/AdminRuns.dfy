/** The administrative operations, alone on the database, are runs of the protocol: the rows they
    leave, and what they append to the outbox, are what some run leaves. */
module AdminRuns {
  import opened Basics
  import opened OutboxRows
  import opened Authorization
  import opened Protocol
  import opened ProtocolTheorems
  import F = OutboxFleet
  import I = IssuerStore

  /** `added` is what the fleet's table got on top of the one of `s`. */
  predicate Appended(s: State, e: State, added: seq<Row>) {
    e.fleet.rows == F.Append(s.fleet.rows, s.fleet.nextId, added) && e.fleet.nextId == s.fleet.nextId + |added|
  }

  lemma NothingAppended(s: State)
    ensures Appended(s, s, [])
  {
    assert F.Append(s.fleet.rows, s.fleet.nextId, []) == s.fleet.rows;
  }

  lemma Checked(p: Params, s: State, r: TxnId, actor: UserId, id: UserId, op: Op) returns (run: seq<Action>, e: State)
    requires CanBeginAdmin(s, r, op) && CanWriteUser(s, id) && OpRefusal(s.db, actor, id, op).None?
    ensures EnabledRun(p, s, run) && Run(p, s, run) == e
    ensures e.db == s.db && e.fleet == s.fleet && e.deleted == s.deleted
    ensures r in e.txns && e.txns[r] == Admin(actor, id, op, true)
  {
    var begun := Apply(p, s, AdminBegin(r, actor, id, op));
    run := Extend(p, s, [], s, AdminBegin(r, actor, id, op));
    run := Extend(p, s, run, begun, AdminCheck(r));
    e := Apply(p, begun, AdminCheck(r));
  }

  /** Policy lock, guarded row lock, commit. */
  lemma AdminRun(p: Params, s: State, r: TxnId, actor: UserId, id: UserId, op: Op, ids: seq<SessionId>) returns (run: seq<Action>, e: State)
    requires CanBeginAdmin(s, r, op) && CanWriteUser(s, id) && OpRefusal(s.db, actor, id, op).None?
    requires Lists(ids, ActiveSessions(s.db, id, s.fleet.now))
    ensures EnabledRun(p, s, run) && Run(p, s, run) == e
    ensures op.Delete? ==> e.db == DeletedDb(s.db, id, s.fleet.now) && e.fleet == s.fleet && id in e.deleted
    ensures op.Change? ==>
              && e.db == ChangedDb(s.db, id, op.upd)
              && e.fleet == if AuthorizationChanged(s.db.users[id], op.upd) then Announced(p, s.fleet, s.db, id, ids) else s.fleet
  {
    var checked;
    run, checked := Checked(p, s, r, actor, id, op);
    run := Extend(p, s, run, checked, AdminCommit(r, ids));
    e := Apply(p, checked, AdminCommit(r, ids));
  }

  /** A change that moves neither role nor activation edits the profile, if anything. */
  lemma ProfileRun(p: Params, s: State, id: UserId, upd: Update) returns (run: seq<Action>, e: State)
    requires CanWriteUser(s, id) && !AffectsSet(Change(upd))
    ensures EnabledRun(p, s, run) && Run(p, s, run) == e
    ensures e.db == ChangedDb(s.db, id, upd) && e.fleet == s.fleet
  {
    var profile := if upd.profile.Some? then upd.profile.value else s.db.users[id].profile;
    run := Extend(p, s, [], s, EditProfile(id, profile));
    e := Apply(p, s, EditProfile(id, profile));
  }

  /** A refused change is the empty run; a committed one leads where the operation does. */
  method ChangeIsRun(issuer: I.Issuer, ghost p: Params, ghost s: State, ghost r: TxnId, actor: UserId, id: UserId, upd: Update, now: real)
    returns (refusal: Option<Refusal>, ghost run: seq<Action>, ghost e: State)
    requires issuer.State() == s.db && now == s.fleet.now
    requires id in issuer.users && id !in s.rowLocks && s.policyLock == None && r !in s.txns
    modifies issuer
    ensures EnabledRun(p, s, run) && Run(p, s, run) == e && (refusal.Some? ==> run == [])
    ensures issuer.State() == e.db
    ensures exists added :: issuer.outbox == old(issuer.outbox) + added && Appended(s, e, added)
  {
    ghost var ids, enqueued;
    refusal, enqueued, ids := issuer.ChangeUserAuthorization(actor, id, upd, now);
    run, e := [], s;
    ghost var added := [];
    if refusal.Some? {
      NothingAppended(s);
      assert issuer.outbox == old(issuer.outbox) + added;
    } else {
      if AffectsSet(Change(upd)) {
        run, e := AdminRun(p, s, r, actor, id, Change(upd), ids);
      } else {
        run, e := ProfileRun(p, s, id, upd);
      }
      if AuthorizationChanged(s.db.users[id], upd) {
        added := Effects(s.db, id, s.db.users[id].generation + 1, ids);
      } else {
        NothingAppended(s);
      }
    }
  }

  /** So are deletions. */
  method DeleteIsRun(issuer: I.Issuer, ghost p: Params, ghost s: State, ghost r: TxnId, actor: UserId, id: UserId, now: real)
    returns (refusal: Option<Refusal>, ghost run: seq<Action>, ghost e: State)
    requires issuer.State() == s.db && now == s.fleet.now
    requires id in issuer.users && id !in s.rowLocks && s.policyLock == None && r !in s.txns
    modifies issuer
    ensures EnabledRun(p, s, run) && Run(p, s, run) == e && (refusal.Some? ==> run == []) && (refusal.None? ==> id in e.deleted)
    ensures issuer.State() == e.db && issuer.outbox == old(issuer.outbox) && e.fleet == s.fleet
  {
    refusal := issuer.DeleteUserAccount(id, now);
    run, e := [], s;
    if refusal.None? {
      ghost var ids := I.ListOf(ActiveSessions(s.db, id, now));
      run, e := AdminRun(p, s, r, actor, id, Delete, ids);
    }
  }

  /** And repairs; one with nothing to do is the empty run. */
  method RepairIsRun(issuer: I.Issuer, ghost p: Params, ghost s: State, id: UserId, role: Role, now: real)
    returns (refusal: Option<Refusal>, ghost run: seq<Action>, ghost e: State)
    requires issuer.State() == s.db && now == s.fleet.now && id !in s.rowLocks
    modifies issuer
    ensures EnabledRun(p, s, run) && Run(p, s, run) == e && (refusal.Some? ==> run == [])
    ensures issuer.State() == e.db
    ensures exists added :: issuer.outbox == old(issuer.outbox) + added && Appended(s, e, added)
  {
    ghost var ids;
    refusal, ids := issuer.RepairUser(id, role, now);
    run, e := [], s;
    ghost var added := [];
    if refusal.None? && Mismatched(s.db.users[id]) {
      run := Extend(p, s, [], s, Repair(id, role, ids));
      e := Apply(p, s, Repair(id, role, ids));
      added := Effects(s.db, id, s.db.users[id].generation + 1, ids);
    } else {
      NothingAppended(s);
      assert issuer.outbox == old(issuer.outbox) + added;
    }
  }
}
