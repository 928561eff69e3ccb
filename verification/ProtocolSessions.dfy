/** What a session write means for later revocations. */
module ProtocolSessions {
  import opened Basics
  import opened OutboxRows
  import opened Authorization
  import opened Protocol
  import opened ProtocolInvariant
  import opened ProtocolTheorems
  import opened RoleMatrix
  import opened RowColumns

  /** The row a login or a refresh writes, in the state it leaves. */
  lemma SessionStep(p: Params, s: State, a: Action, e: State)
    requires Enabled(p, s, a) && (a.LoginCommit? || a.RefreshCommit?) && e == Apply(p, s, a)
    ensures e.db == WithSession(s.db, a.row, s.txns[a.r].user, s.txns[a.r].snapshot.generation, Signed(s.txns[a.r]), a.jwtExp, a.refreshExp)
  {
  }

  function Signed(t: Txn): Jti
    requires t.Login? || t.Refresh?
  {
    if t.Login? then t.jti else t.newJti
  }

  lemma JtisStayUnique(p: Params, s: State, a: Action)
    requires Inv(s) && Enabled(p, s, a)
    ensures JtisUnique(Apply(p, s, a).db.sessions)
  {
    StepInv(p, s, a);
  }

  /** On the rows: a change of the account captures the session just written exactly before
      the refresh expiry it was given. */
  lemma WrittenIsCaptured(before: Db, db: Db, row: SessionId, owner: UserId, generation: nat, jti: Jti, jwtExp: real, refreshExp: real,
                          actor: UserId, upd: Update, ids: seq<SessionId>, now: real)
    requires db == WithSession(before, row, owner, generation, jti, jwtExp, refreshExp)
    requires (row in before.sessions ==> !before.sessions[row].revoked) && JtisUnique(db.sessions)
    requires owner in db.users && Lists(ids, ActiveSessions(db, owner, now))
    requires ChangeOutcome(db, actor, owner, upd, ids).Committed? && Alters(db.users[owner], upd)
    ensures var rows := ChangeOutcome(db, actor, owner, upd, ids).enqueued;
            && ((exists i | 0 <= i < |rows| :: Blacklists(rows[i], jti)) <==> now < refreshExp)
            && forall i | 0 <= i < |rows| && Blacklists(rows[i], jti) :: rows[i].effect.expiresAt == jwtExp
  {
    WrittenSession(before, row, owner, generation, jti, jwtExp, refreshExp);
    CapturedIff(db, owner, db.users[owner].generation + 1, ids, now, row);
  }

  /** A session a login or a refresh wrote is captured by a change of its account exactly at
      times before the refresh expiry it was given, and its blacklist row is dated with the
      access expiry it was given. */
  lemma WrittenSessionIsCapturedUntilRefreshExpiry(p: Params, s: State, a: Action, actor: UserId, upd: Update, ids: seq<SessionId>, now: real)
    requires Inv(s) && Enabled(p, s, a) && (a.LoginCommit? || a.RefreshCommit?)
    requires a.row in s.db.sessions ==> !s.db.sessions[a.row].revoked
    requires var e, id := Apply(p, s, a).db, s.txns[a.r].user;
             && id in e.users && Lists(ids, ActiveSessions(e, id, now))
             && ChangeOutcome(e, actor, id, upd, ids).Committed? && Alters(e.users[id], upd)
    ensures var rows := ChangeOutcome(Apply(p, s, a).db, actor, s.txns[a.r].user, upd, ids).enqueued;
            && ((exists i | 0 <= i < |rows| :: Blacklists(rows[i], Signed(s.txns[a.r]))) <==> now < a.refreshExp)
            && forall i | 0 <= i < |rows| && Blacklists(rows[i], Signed(s.txns[a.r])) :: rows[i].effect.expiresAt == a.jwtExp
  {
    var t, e := s.txns[a.r], Apply(p, s, a);
    SessionStep(p, s, a, e);
    JtisStayUnique(p, s, a);
    WrittenIsCaptured(s.db, e.db, a.row, t.user, t.snapshot.generation, Signed(t), a.jwtExp, a.refreshExp, actor, upd, ids, now);
  }
}
