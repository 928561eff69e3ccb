/** The login, refresh and logout handlers, alone on the database, are runs of the protocol: what they
    leave in the rows and in Redis is what some run leaves. */
module HandlerRuns {
  import opened Basics
  import opened OutboxRows
  import opened RedisStore
  import opened Authorization
  import opened Protocol
  import opened ProtocolInvariant
  import opened ProtocolTheorems
  import I = IssuerStore

  /** The mutable rows and Redis, if there is one, are those of the protocol's state. */
  ghost predicate Agrees(issuer: I.Issuer, redis: Redis?, s: State)
    reads issuer, redis
  {
    issuer.State() == s.db && (redis != null ==> redis.blacklist == s.blacklist && redis.allowlist == s.allowlist)
  }

  // ----- login -----

  lemma LoginRun(p: Params, s: State, r: TxnId, id: UserId, jti: Jti, row: SessionId, jwtExp: real, refreshExp: real, registered: bool)
    returns (run: seq<Action>)
    requires CanReadLogin(s, r, id, jti) && WritableRow(s.db, row, id)
    ensures EnabledRun(p, s, run) && run != []
    ensures var e := Run(p, s, run);
            && e.db == WithSession(s.db, row, id, s.db.users[id].generation, jti, jwtExp, refreshExp)
            && e.blacklist == s.blacklist && e.allowlist == if registered then s.allowlist + {jti} else s.allowlist
  {
    var s1 := Apply(p, s, LoginRead(r, id, jti));
    var s2 := Apply(p, s1, LoginCommit(r, row, jwtExp, refreshExp));
    run := Extend(p, s, [], s, LoginRead(r, id, jti));
    run := Extend(p, s, run, s1, LoginCommit(r, row, jwtExp, refreshExp));
    run := Extend(p, s, run, s2, LoginDeliver(r, registered));
  }

  /** A refused login is the empty run, an accepted one its three steps. */
  method LoginIsRun(issuer: I.Issuer, redis: Redis?, ghost p: Params, ghost s: State, ghost r: TxnId,
                    found: Option<UserId>, jti: Jti, jwtExp: real, refreshExp: real) returns (out: I.LoginOutcome, ghost run: seq<Action>)
    requires Agrees(issuer, redis, s) && (found.Some? ==> found.value in issuer.users)
    requires r !in s.txns && jti !in s.issued
    modifies issuer`sessions, if redis == null then {} else {redis}
    ensures EnabledRun(p, s, run) && Agrees(issuer, redis, Run(p, s, run))
    ensures run != [] <==> out.LoggedIn?
  {
    ghost var row;
    out, row := issuer.LoginAccessToken(found, jti, redis, jwtExp, refreshExp);
    run := [];
    if out.LoggedIn? {
      run := LoginRun(p, s, r, found.value, jti, row, jwtExp, refreshExp, redis != null);
    }
  }

  // ----- refresh -----

  lemma RefreshRun(p: Params, s: State, r: TxnId, oldJti: Jti, newJti: Jti, row: SessionId, jwtExp: real, refreshExp: real, viaRedis: bool)
    returns (run: seq<Action>)
    requires CanBeginRefresh(s, r, oldJti, newJti) && (viaRedis ==> oldJti in s.allowlist)
    requires WritableRow(s.db, row, s.issued[oldJti].sub)
    ensures EnabledRun(p, s, run) && run != []
    ensures var e, id := Run(p, s, run), s.issued[oldJti].sub;
            && e.db == WithSession(s.db, row, id, s.db.users[id].generation, newJti, jwtExp, refreshExp)
            && e.blacklist == s.blacklist && e.allowlist == if viaRedis then s.allowlist - {oldJti} + {newJti} else s.allowlist
  {
    var s1 := Apply(p, s, RefreshBegin(r, oldJti, newJti, viaRedis));
    run := Extend(p, s, [], s, RefreshBegin(r, oldJti, newJti, viaRedis));
    var s2 := if viaRedis then RotatedRefresh(s1, r) else s1;
    if viaRedis {
      run := Extend(p, s, run, s1, RefreshRotate(r));
    }
    run := Extend(p, s, run, s2, RefreshCommit(r, row, jwtExp, refreshExp));
  }

  function AllApplied(s: State, targets: seq<I.RevocationTarget>): State {
    s.(effects := s.effects - I.Jtis(targets), allowlist := s.allowlist - I.Jtis(targets),
       blacklist := I.BlacklistAll(s.blacklist, targets, s.fleet.now))
  }

  lemma LastApplied(s: State, targets: seq<I.RevocationTarget>, n: nat)
    requires |targets| == n + 1 && forall i, j | 0 <= i < j < |targets| :: targets[i].jti != targets[j].jti
    ensures I.Jtis(targets) == I.Jtis(targets[..n]) + {targets[n].jti} && targets[n].jti !in I.Jtis(targets[..n])
    ensures AppliedEffect(AllApplied(s, targets[..n]), targets[n].jti, Ttl(targets[n].expiresAt, s.fleet.now), true) == AllApplied(s, targets)
  {
    assert I.Jtis(targets) == I.Jtis(targets[..n]) + {targets[n].jti} by {
      assert forall k | 0 <= k < n :: targets[..n][k] == targets[k];
    }
  }

  /** The post-commit step of every captured target. */
  lemma {:induction false} ApplyAll(p: Params, s: State, run: seq<Action>, at: State, targets: seq<I.RevocationTarget>)
    returns (longer: seq<Action>)
    requires EnabledRun(p, s, run) && Run(p, s, run) == at && I.Jtis(targets) <= at.effects
    requires forall i, j | 0 <= i < j < |targets| :: targets[i].jti != targets[j].jti
    ensures EnabledRun(p, s, longer) && Run(p, s, longer) == AllApplied(at, targets) && |longer| >= |run|
    decreases |targets|
  {
    longer := run;
    if targets == [] {
      assert AllApplied(at, targets) == at;
    } else {
      var n := |targets| - 1;
      var a := ApplyEffect(targets[n].jti, Ttl(targets[n].expiresAt, at.fleet.now), true);
      LastApplied(at, targets, n);
      longer := ApplyAll(p, s, run, at, targets[..n]);
      longer := Longer(p, s, longer, AllApplied(at, targets[..n]), a);
    }
  }

  lemma Longer(p: Params, s: State, run: seq<Action>, at: State, a: Action) returns (longer: seq<Action>)
    requires EnabledRun(p, s, run) && Run(p, s, run) == at && Enabled(p, at, a)
    ensures EnabledRun(p, s, longer) && Run(p, s, longer) == Apply(p, at, a) && |longer| > |run|
  {
    longer := run + [a];
    RunAppend(p, s, run, a);
  }

  /** Another request consumes the identifier between the check and the swap. */
  lemma ReuseBegins(p: Params, s: State, r: TxnId, oldJti: Jti, newJti: Jti) returns (run: seq<Action>, e: State)
    requires CanBeginRefresh(s, r, oldJti, newJti)
    ensures EnabledRun(p, s, run) && Run(p, s, run) == e && run != []
    ensures var id := s.issued[oldJti].sub;
            && e.db == WithoutSessionsOf(s.db, id) && e.fleet == s.fleet && e.blacklist == s.blacklist
            && e.allowlist == s.allowlist - {oldJti}
            && JtisOf(s.db.sessions, ActiveSessions(s.db, id, s.fleet.now)) <= e.effects
  {
    var s1 := Apply(p, s, RefreshBegin(r, oldJti, newJti, true));
    var s2 := Apply(p, s1, RedisLoss({oldJti}, {}));
    run := Extend(p, s, [], s, RefreshBegin(r, oldJti, newJti, true));
    run := Extend(p, s, run, s1, RedisLoss({oldJti}, {}));
    run := Extend(p, s, run, s2, RefreshReuse(r));
    e := Apply(p, s2, RefreshReuse(r));
  }

  lemma TargetsCaptured(db: Db, ids: seq<SessionId>, targets: seq<I.RevocationTarget>, active: set<SessionId>)
    requires Lists(ids, active) && active <= db.sessions.Keys && I.TargetsOf(targets, db, ids) && JtisUnique(db.sessions)
    ensures I.Jtis(targets) <= JtisOf(db.sessions, active)
    ensures forall i, j | 0 <= i < j < |targets| :: targets[i].jti != targets[j].jti
  {
    forall i, j | 0 <= i < j < |targets|
      ensures targets[i].jti != targets[j].jti
    {
      assert ids[i] != ids[j];
    }
  }

  lemma ReuseRun(p: Params, s: State, r: TxnId, oldJti: Jti, newJti: Jti, ids: seq<SessionId>, targets: seq<I.RevocationTarget>)
    returns (run: seq<Action>)
    requires CanBeginRefresh(s, r, oldJti, newJti) && JtisUnique(s.db.sessions)
    requires Lists(ids, ActiveSessions(s.db, s.issued[oldJti].sub, s.fleet.now)) && I.TargetsOf(targets, s.db, ids)
    ensures EnabledRun(p, s, run) && run != []
    ensures var e := Run(p, s, run);
            && e.db == WithoutSessionsOf(s.db, s.issued[oldJti].sub)
            && e.blacklist == I.BlacklistAll(s.blacklist, targets, s.fleet.now)
            && e.allowlist == s.allowlist - {oldJti} - I.Jtis(targets)
  {
    var begun, mid := ReuseBegins(p, s, r, oldJti, newJti);
    TargetsCaptured(s.db, ids, targets, ActiveSessions(s.db, s.issued[oldJti].sub, s.fleet.now));
    run := ApplyAll(p, s, begun, mid, targets);
  }

  lemma CanBegin(s: State, r: TxnId, id: UserId, oldJti: Jti, newJti: Jti, lineage: Option<SessionId>)
    requires r !in s.txns && newJti !in s.issued && oldJti in s.delivered && oldJti in s.issued && s.issued[oldJti].sub == id
    requires CanWriteUser(s, id) && CanSign(s.db.users[id])
    requires I.LineageRow(s.db.sessions, oldJti, lineage) && I.Current(s.db.sessions, lineage, s.db.users[id].generation)
    ensures CanBeginRefresh(s, r, oldJti, newJti)
  {
  }

  /** A refresh turned away before the swap is the empty run; a successful one, and one that
      detects reuse, are runs that lead where the handler does. */
  method RefreshIsRun(issuer: I.Issuer, redis: Redis?, ghost p: Params, ghost s: State, ghost r: TxnId, user: UserId, oldJti: Jti, newJti: Jti,
                      failOpen: bool, raced: bool, jwtExp: real, refreshExp: real, now: real) returns (out: I.RefreshOutcome, ghost run: seq<Action>)
    requires Inv(s) && Agrees(issuer, redis, s) && now == s.fleet.now
    requires r !in s.txns && newJti !in s.issued && user !in s.rowLocks
    requires oldJti in s.delivered && oldJti in s.issued && s.issued[oldJti].sub == user
    modifies issuer`sessions, if redis == null then {} else {redis}
    ensures EnabledRun(p, s, run) && Agrees(issuer, redis, Run(p, s, run))
    ensures run != [] <==> out.Refreshed? || out.ReuseDetected?
  {
    ghost var lineage, row;
    out, lineage, row := issuer.LoginRefreshToken(user, oldJti, newJti, redis, failOpen, raced, jwtExp, refreshExp, now);
    run := [];
    if out.Refreshed? {
      CanBegin(s, r, user, oldJti, newJti, lineage);
      run := RefreshRun(p, s, r, oldJti, newJti, row, jwtExp, refreshExp, redis != null);
    } else if out.ReuseDetected? {
      CanBegin(s, r, user, oldJti, newJti, lineage);
      ghost var ids, targets :|
        && Lists(ids, ActiveSessions(s.db, user, now)) && I.TargetsOf(targets, s.db, ids)
        && redis.blacklist == I.BlacklistAll(s.blacklist, targets, now)
        && redis.allowlist == s.allowlist - {oldJti} - I.Jtis(targets);
      run := ReuseRun(p, s, r, oldJti, newJti, ids, targets);
    }
  }

  // ----- logout -----

  /** The access token's part: its rows, then its blacklist entry. */
  lemma AccessRun(p: Params, s: State, access: I.RevocationTarget, hasRedis: bool) returns (run: seq<Action>, e: State)
    requires access.jti in s.delivered
    ensures EnabledRun(p, s, run) && Run(p, s, run) == e
    ensures e.db == LoggedOut(s, access.jti).db && e.delivered == s.delivered && e.allowlist == s.allowlist
    ensures hasRedis ==> e.blacklist == I.BlacklistAll(s.blacklist, [access], s.fleet.now)
  {
    e := Apply(p, s, Logout(access.jti));
    run := Extend(p, s, [], s, Logout(access.jti));
    if hasRedis {
      var a := ApplyEffect(access.jti, Ttl(access.expiresAt, s.fleet.now), false);
      run := Extend(p, s, run, e, a);
      assert [access][..0] == [];
      e := Apply(p, e, a);
    }
  }

  /** The refresh token's part, with Redis there: its identifier, then its rows if they are
      still to be deleted. */
  lemma RefreshPart(p: Params, s: State, run: seq<Action>, at: State, refresh: Jti, rows: bool) returns (longer: seq<Action>, e: State)
    requires EnabledRun(p, s, run) && Run(p, s, run) == at && refresh in at.delivered
    ensures EnabledRun(p, s, longer) && Run(p, s, longer) == e
    ensures e.db == (if rows then LoggedOut(at, refresh).db else at.db)
    ensures e.blacklist == at.blacklist && e.allowlist == at.allowlist - {refresh}
  {
    e := Apply(p, at, RedisLoss({refresh}, {}));
    longer := Extend(p, s, run, at, RedisLoss({refresh}, {}));
    if rows {
      longer := Extend(p, s, longer, e, Logout(refresh));
      e := Apply(p, e, Logout(refresh));
      longer := Extend(p, s, longer, e, ForgetEffect(refresh));
      e := Apply(p, e, ForgetEffect(refresh));
    }
  }

  /** A logout leaves what a run of logouts and their Redis steps leaves, with or without Redis,
      whichever of the two tokens validate. */
  method LogoutIsRun(issuer: I.Issuer, redis: Redis?, ghost p: Params, ghost s: State, access: Option<I.RevocationTarget>, refresh: Option<Jti>,
                     failClosed: bool, now: real) returns (ok: bool, ghost run: seq<Action>)
    requires Agrees(issuer, redis, s) && now == s.fleet.now
    requires (access.Some? ==> access.value.jti in s.delivered) && (refresh.Some? ==> refresh.value in s.delivered)
    modifies issuer`sessions, if redis == null then {} else {redis}
    ensures EnabledRun(p, s, run) && Agrees(issuer, redis, Run(p, s, run))
  {
    ok := issuer.Logout(access, refresh, redis, failClosed, now);
    run := [];
    ghost var e := s;
    if access.Some? {
      run, e := AccessRun(p, s, access.value, redis != null);
    }
    if redis != null && refresh.Some? {
      run, e := RefreshPart(p, s, run, e, refresh.value, access.None? || Ttl(access.value.expiresAt, now) == 0);
    }
    assert issuer.sessions == e.db.sessions;
  }

  /** After a logout with a validated access token, whatever Redis does, and with only a
      validated refresh token if Redis is there, every status check of it is answered inactive. */
  method LogoutDenies(issuer: I.Issuer, redis: Redis?, access: Option<I.RevocationTarget>, refresh: Option<Jti>, failClosed: bool, now: real,
                      expected: UserId, asked: Redis?, later: real) returns (d: Decision)
    requires access.Some? || (refresh.Some? && redis != null)
    modifies issuer`sessions, if redis == null then {} else {redis}
    ensures d == Inactive
  {
    var _ := issuer.Logout(access, refresh, redis, failClosed, now);
    d := issuer.CheckJtiStatus(if access.Some? then access.value.jti else refresh.value, expected, asked, later);
  }
}
