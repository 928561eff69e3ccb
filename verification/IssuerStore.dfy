/** The issuer's transactions as they run: rows updated, deleted and appended in place,
    in the order of the code, each method tied to its function in `Authorization`. */
module IssuerStore {
  import opened Basics
  import opened OutboxRows
  import opened RedisStore
  import opened Authorization
  import opened RoleMatrix
  import opened RowColumns

  datatype RevocationTarget = RevocationTarget(jti: Jti, expiresAt: real)

  /** One blacklist entry per target with time left, in order. */
  function BlacklistAll(blacklist: map<Jti, real>, targets: seq<RevocationTarget>, now: real): map<Jti, real> {
    if targets == [] then blacklist
    else
      var last := targets[|targets| - 1];
      var before := BlacklistAll(blacklist, targets[..|targets| - 1], now);
      if Ttl(last.expiresAt, now) > 0 then before[last.jti := now + Ttl(last.expiresAt, now) as real] else before
  }

  predicate Outlives(t: RevocationTarget, jti: Jti, now: real) {
    t.jti == jti && t.expiresAt >= now + 1.0
  }

  /** A target with a whole second left is blacklisted until within a second of its expiry;
      no other entry is touched. */
  lemma {:induction false} BlacklistedUntil(blacklist: map<Jti, real>, targets: seq<RevocationTarget>, now: real, jti: Jti)
    ensures var after := BlacklistAll(blacklist, targets, now);
            if exists i | 0 <= i < |targets| :: Outlives(targets[i], jti, now)
            then jti in after && exists i | 0 <= i < |targets| :: Outlives(targets[i], jti, now) && targets[i].expiresAt - 1.0 < after[jti] <= targets[i].expiresAt
            else (jti in after <==> jti in blacklist) && (jti in after ==> after[jti] == blacklist[jti])
  {
    if targets != [] {
      var n := |targets| - 1;
      BlacklistedUntil(blacklist, targets[..n], now, jti);
      assert forall i | 0 <= i < n :: targets[..n][i] == targets[i];
    }
  }

  function Jtis(targets: seq<RevocationTarget>): set<Jti> {
    set i | 0 <= i < |targets| :: targets[i].jti
  }

  ghost predicate TargetsOf(targets: seq<RevocationTarget>, db: Db, ids: seq<SessionId>) {
    && |targets| == |ids|
    && forall i | 0 <= i < |ids| :: ids[i] in db.sessions
         && targets[i] == RevocationTarget(db.sessions[ids[i]].jti, db.sessions[ids[i]].jwtExpiresAt)
  }

  function RowsOf(sessions: map<SessionId, ClientSession>, user: UserId): set<SessionId> {
    set id | id in sessions && sessions[id].owner == user
  }

  datatype LoginOutcome = LoggedIn | Rejected | Blocked

  /** Whether the access token's revocation goes through. */
  predicate AccessRevoked(access: Option<RevocationTarget>, hasRedis: bool, now: real) {
    access.Some? && (!hasRedis || Ttl(access.value.expiresAt, now) != 0)
  }

  /** The rows a logout deletes: those of the access token, and those of the refresh token when
      revoking the access token did not go through and Redis is there. */
  predicate LogsOut(access: Option<RevocationTarget>, refresh: Option<Jti>, hasRedis: bool, now: real, jti: Jti) {
    (access.Some? && jti == access.value.jti) || (!AccessRevoked(access, hasRedis, now) && hasRedis && refresh == Some(jti))
  }

  datatype RefreshOutcome = Refreshed | Unavailable | NotAllowlisted | InvalidUser | Superseded | SigningBlocked | ReuseDetected

  /** What a refresh needs besides a current session row: an identifier Redis lists, or no Redis
      and failures that open; and an active account whose role and flag agree. */
  predicate Refreshable(users: map<UserId, User>, user: UserId, hasRedis: bool, failOpen: bool, listed: bool) {
    && (if hasRedis then listed else failOpen)
    && user in users && users[user].isActive && (users[user].isSuperuser <==> users[user].role == SuperAdmin)
  }

  /** Outcomes of requests that got to the lineage check: allowlisted, of a live account. */
  predicate ReachesLineage(r: RefreshOutcome) {
    !r.Unavailable? && !r.NotAllowlisted? && !r.InvalidUser?
  }

  /** A row the lookup of the identifier may return, and none only when there is none. */
  ghost predicate LineageRow(sessions: map<SessionId, ClientSession>, jti: Jti, row: Option<SessionId>) {
    if row.None? then forall id | id in sessions :: sessions[id].jti != jti
    else row.value in sessions && sessions[row.value].jti == jti
  }

  predicate Current(sessions: map<SessionId, ClientSession>, row: Option<SessionId>, generation: nat) {
    row.Some? && row.value in sessions && !IsStale(sessions[row.value].stamp, generation)
  }

  class Issuer {
    var users: map<UserId, User>
    var sessions: map<SessionId, ClientSession>
    var tombstones: map<UserId, Tombstone>
    var keys: map<nat, ApiKey>
    var revision: nat
    /** Outbox rows in creation order; only appended to here. */
    var outbox: seq<Row>

    ghost function State(): Db
      reads this
    {
      Db(users, sessions, tombstones, keys, revision)
    }

    // ----- sessions -----

    /** Re-stamps the user's row if there is one, inserts a row otherwise. */
    method CreateClientSession(owner: UserId, generation: nat, jti: Jti, jwtExp: real, refreshExp: real) returns (row: SessionId)
      modifies this`sessions
      ensures WritableRow(old(State()), row, owner)
      ensures State() == WithSession(old(State()), row, owner, generation, jti, jwtExp, refreshExp)
      ensures row in old(sessions) <==> exists id | id in old(sessions) :: old(sessions)[id].owner == owner
      ensures SessionWritten(old(sessions), sessions, row, owner, generation, jti, jwtExp, refreshExp)
    {
      var mine := set id | id in sessions && sessions[id].owner == owner;
      if mine != {} {
        row :| row in mine;
        sessions := sessions[row := sessions[row].(jti := jti, stamp := Some(generation),
                                                   jwtExpiresAt := jwtExp, refreshExpiresAt := refreshExp)];
      } else {
        row := FreshId(sessions.Keys);
        assert forall id | id in sessions :: sessions[id].owner != owner by {
          assert forall id | id in sessions && sessions[id].owner == owner :: id in mine;
        }
        sessions := sessions[row := ClientSession(owner, jti, Some(generation), false, jwtExp, refreshExp)];
      }
    }

    static method FreshId(taken: set<SessionId>) returns (id: SessionId)
      ensures id !in taken
    {
      id := 0;
      ghost var below := {};
      while id in taken
        invariant below <= taken && forall x | x in below :: x < id
        decreases taken - below
      {
        below := below + {id};
        id := id + 1;
      }
    }

    /** Captures the active rows, then deletes every row of the user and counts them. */
    method CaptureAndDeleteUserSessions(user: UserId, now: real) returns (ghost ids: seq<SessionId>, targets: seq<RevocationTarget>, count: nat)
      modifies this`sessions
      ensures count == |RowsOf(old(sessions), user)| == |old(sessions)| - |sessions|
      ensures Lists(ids, ActiveSessions(old(State()), user, now))
      ensures TargetsOf(targets, old(State()), ids)
      ensures forall i | 0 <= i < |targets| :: targets[i] == RevocationTarget(old(sessions)[ids[i]].jti, old(sessions)[ids[i]].jwtExpiresAt)
      ensures forall id :: id in ids <==> id in old(sessions) && Reachable(old(sessions)[id], user, now)
      ensures State() == WithoutSessionsOf(old(State()), user)
      ensures forall id :: id in sessions <==> id in old(sessions) && old(sessions)[id].owner != user
    {
      ghost var before := State();
      var left := set id | id in sessions && sessions[id].owner == user
                           && !sessions[id].revoked && sessions[id].refreshExpiresAt > now;
      ghost var all := left;
      assert all == ActiveSessions(before, user, now);
      targets, ids := [], [];
      while left != {}
        invariant left <= all <= sessions.Keys && sessions == before.sessions
        invariant Lists(ids, all - left)
        invariant TargetsOf(targets, before, ids)
        decreases left
      {
        var id :| id in left;
        targets := targets + [RevocationTarget(sessions[id].jti, sessions[id].jwtExpiresAt)];
        ids := ids + [id];
        left := left - {id};
      }
      assert all - left == all;
      count := |RowsOf(sessions, user)|;
      sessions := map id | id in sessions && sessions[id].owner != user :: sessions[id];
      SizeWithout(before.sessions, RowsOf(before.sessions, user), sessions);
    }

    /** One blacklist row per target and one publish row, appended to the outbox. */
    method EnqueueRoleChangeEffects(user: UserId, generation: nat, targets: seq<RevocationTarget>, ghost db: Db, ghost ids: seq<SessionId>)
      requires TargetsOf(targets, db, ids)
      modifies this`outbox
      ensures outbox == old(outbox) + Effects(db, user, generation, ids)
    {
      var rows := [];
      for i := 0 to |targets|
        invariant |rows| == i
        invariant forall k | 0 <= k < i :: rows[k] == NewRow(user, generation, Blacklist(targets[k].jti, targets[k].expiresAt))
      {
        rows := rows + [NewRow(user, generation, Blacklist(targets[i].jti, targets[i].expiresAt))];
      }
      rows := rows + [NewRow(user, generation, Publish)];
      assert rows == Effects(db, user, generation, ids);
      outbox := outbox + rows;
    }

    /** Best-effort accelerators after commit: blacklist what has time left, and drop
        every target from the refresh allowlist. */
    method ApplyPostCommitRevocation(targets: seq<RevocationTarget>, redis: Redis?, now: real)
      modifies if redis == null then {} else {redis}
      ensures redis != null ==>
                && redis.blacklist == BlacklistAll(old(redis.blacklist), targets, now)
                && redis.allowlist == old(redis.allowlist) - Jtis(targets)
    {
      if redis == null {
        return;
      }
      assert targets[..0] == [];
      for i := 0 to |targets|
        invariant redis.blacklist == BlacklistAll(old(redis.blacklist), targets[..i], now)
        invariant redis.allowlist == old(redis.allowlist) - Jtis(targets[..i])
      {
        var t := targets[i];
        assert targets[..i + 1] == targets[..i] + [t];
        assert Jtis(targets[..i + 1]) == Jtis(targets[..i]) + {t.jti} by {
          assert forall k | 0 <= k < i :: targets[..i + 1][k] == targets[..i][k];
          assert targets[..i + 1][i] == t;
        }
        assert BlacklistAll(old(redis.blacklist), targets[..i + 1], now)
            == if Ttl(t.expiresAt, now) > 0 then redis.blacklist[t.jti := now + Ttl(t.expiresAt, now) as real] else redis.blacklist by {
          assert targets[..i + 1][..i] == targets[..i];
        }
        if Ttl(t.expiresAt, now) > 0 {
          redis.BlacklistJti(t.jti, Ttl(t.expiresAt, now), now);
        }
        redis.Revoke(t.jti);
      }
      assert targets[..|targets|] == targets;
    }

    /** Reuse response and administrative bulk revocation. */
    method RevokeAllUserSessions(user: UserId, redis: Redis?, now: real) returns (count: nat)
      modifies this`sessions, if redis == null then {} else {redis}
      ensures count == |RowsOf(old(sessions), user)| == |old(sessions)| - |sessions|
      ensures State() == WithoutSessionsOf(old(State()), user)
      ensures redis != null ==> exists ids, targets ::
                && Lists(ids, ActiveSessions(old(State()), user, now)) && TargetsOf(targets, old(State()), ids)
                && redis.blacklist == BlacklistAll(old(redis.blacklist), targets, now)
                && redis.allowlist == old(redis.allowlist) - Jtis(targets)
    {
      ghost var ids;
      var targets;
      ids, targets, count := CaptureAndDeleteUserSessions(user, now);
      ApplyPostCommitRevocation(targets, redis, now);
    }

    /** Single-token revocation: the rows of the token go first, then the accelerator. Redis
        refuses a lifetime that truncates to zero seconds, and the call fails. */
    method RevokeSessionJti(jti: Jti, expiresAt: real, redis: Redis?, now: real) returns (ok: bool)
      modifies this`sessions, if redis == null then {} else {redis}
      ensures State() == old(State()).(sessions := map id | id in old(sessions) && old(sessions)[id].jti != jti :: old(sessions)[id])
      ensures ok <==> redis == null || Ttl(expiresAt, now) != 0
      ensures redis != null ==>
                && redis.blacklist == BlacklistAll(old(redis.blacklist), [RevocationTarget(jti, expiresAt)], now)
                && redis.allowlist == old(redis.allowlist)
    {
      sessions := map id | id in sessions && sessions[id].jti != jti :: sessions[id];
      ok := true;
      if redis != null {
        var t := RevocationTarget(jti, expiresAt);
        assert [t][..0] == [];
        if Ttl(expiresAt, now) > 0 {
          redis.BlacklistJti(jti, Ttl(expiresAt, now), now);
        } else if Ttl(expiresAt, now) == 0 {
          ok := false;
        }
      }
    }

    /** The ordered status decision, on a row found by scanning for the identifier. */
    method DecideJtiStatus(jti: Jti, expected: UserId) returns (d: Decision)
      ensures exists r: Option<ClientSession> ::
                && (r.None? <==> forall id | id in sessions :: sessions[id].jti != jti)
                && (r.Some? ==> r.value.jti == jti && r.value in sessions.Values)
                && d == DecideFor(State(), r, expected)
                && (d.Active? <==>
                      && expected !in tombstones && r.Some? && !r.value.revoked && r.value.owner == expected
                      && expected in users && users[expected].isActive && users[expected].isSuperuser == (users[expected].role == SuperAdmin)
                      && r.value.stamp == Some(users[expected].generation))
    {
      var mine := set id | id in sessions && sessions[id].jti == jti;
      var r: Option<ClientSession> := None;
      if mine != {} {
        var id :| id in mine;
        r := Some(sessions[id]);
      } else {
        assert forall id | id in sessions && sessions[id].jti == jti :: id in mine;
      }
      ghost var found := r;
      assert d0: DecideFor(State(), found, expected) == DecideFor(State(), r, expected);
      if expected in tombstones {
        return Inactive;
      }
      if r.None? || r.value.revoked {
        return Inactive;
      }
      if r.value.owner != expected {
        return Inactive;
      }
      if expected !in users || !users[expected].isActive {
        return Inactive;
      }
      if !Consistent(users[expected].role, users[expected].isSuperuser) {
        return Inactive;
      }
      if IsStale(r.value.stamp, users[expected].generation) {
        return Inactive;
      }
      return Active(expected, users[expected].generation);
    }

    // ----- role administration -----

    /** Bumps the generation of the row `u` about to be written, drops the user's sessions
        and enqueues one effect per captured session plus the publish row. */
    method RevokeAndEnqueueAuthorizationChange(id: UserId, u: User, now: real) returns (ghost ids: seq<SessionId>)
      modifies this`users, this`sessions, this`outbox
      ensures Lists(ids, ActiveSessions(old(State()), id, now))
      ensures State() == WithoutSessionsOf(old(State()).(users := old(users)[id := u.(generation := u.generation + 1)]), id)
      ensures outbox == old(outbox) + Effects(old(State()), id, u.generation + 1, ids)
    {
      ghost var before := State();
      users := users[id := u.(generation := u.generation + 1)];
      var targets, count;
      ids, targets, count := CaptureAndDeleteUserSessions(id, now);
      EnqueueRoleChangeEffects(id, u.generation + 1, targets, before, ids);
    }

    /** The two guards before anything is written: no self-promotion, and the superuser
        set does not lose its last member. */
    method GuardChange(actor: UserId, id: UserId, upd: Update) returns (refusal: Option<Refusal>)
      requires id in users
      ensures refusal.None? || refusal in {Some(SelfPromotion), Some(LastSuperuser)}
      ensures refusal.Some? <==> ChangeRefusal(State(), actor, id, upd) in {Some(SelfPromotion), Some(LastSuperuser)}
      ensures refusal.Some? ==> refusal == ChangeRefusal(State(), actor, id, upd)
      ensures refusal == Some(SelfPromotion) <==> actor == id && Raises(users[id], upd)
      ensures refusal == Some(LastSuperuser) <==> !(actor == id && Raises(users[id], upd)) && OnlyOne(State(), id) && TakesAway(upd)
    {
      ChangeRefusedIff(State(), actor, id, upd, []);
      var u := users[id];
      var intent := ResolveIntent(u, upd);
      if intent.roleRequested && actor == id && IsPromotion(intent.previousRole, intent.intendedRole) {
        return Some(SelfPromotion);
      }
      if intent.AffectsSet() && WouldLeaveSet(u, upd) {
        var others := Superusers(users) - {id};
        if others == {} {
          return Some(LastSuperuser);
        }
      }
      refusal := None;
    }

    method ChangeUserAuthorization(actor: UserId, id: UserId, upd: Update, now: real)
      returns (refusal: Option<Refusal>, revocationEnqueued: bool, ghost ids: seq<SessionId>)
      requires id in users
      modifies this
      ensures Lists(ids, ActiveSessions(old(State()), id, now))
      ensures match ChangeOutcome(old(State()), actor, id, upd, ids)
              case Refused(reason) =>
                refusal == Some(reason) && State() == old(State()) && outbox == old(outbox) && !revocationEnqueued
              case Committed(db, rows) =>
                refusal == None && State() == db && outbox == old(outbox) + rows && (revocationEnqueued <==> rows != [])
    {
      ids := ListOf(ActiveSessions(State(), id, now));
      revocationEnqueued := false;
      var u := users[id];
      refusal := GuardChange(actor, id, upd);
      if refusal.Some? {
        return refusal, false, ids;
      }
      var intent := ResolveIntent(u, upd);
      if upd.role.Null? {
        // the flush of a null role, or the bump before it, aborts the transaction
        return Some(if CanAdvance(u.generation) then NullRole else GenerationOverflow), false, ids;
      }
      var v := Applied(u, upd);
      if (upd.role.Set? && upd.role.value != u.role) || intent.ActivationChanged() {
        if !CanAdvance(u.generation) {
          return Some(GenerationOverflow), false, ids;
        }
        ids := RevokeAndEnqueueAuthorizationChange(id, v, now);
        revocationEnqueued := true;
        if intent.Deactivated() {
          keys := RevokedKeys(keys, id);
        }
        revision := revision + 1;
      } else {
        users := users[id := v];
      }
      refusal := None;
    }

    method DeleteUserAccount(id: UserId, now: real) returns (refusal: Option<Refusal>)
      requires id in users
      modifies this
      ensures outbox == old(outbox)
      ensures match DeletionOutcome(old(State()), id, now)
              case Refused(reason) => refusal == Some(reason) && State() == old(State())
              case Committed(db, _) => refusal == None && State() == db
    {
      var u := users[id];
      if IsActiveCanonicalSuperuser(u) {
        var others := Superusers(users) - {id};
        if others == {} {
          return Some(LastSuperuser);
        }
      }
      if !CanAdvance(u.generation) {
        return Some(GenerationOverflow);
      }
      WriteDeletionTombstone(id, u.generation, now);
      sessions := map s | s in sessions && sessions[s].owner != id :: sessions[s];
      keys := map k | k in keys && keys[k].owner != id :: keys[k];
      users := users - {id};
      revision := revision + 1;
      refusal := None;
    }

    method WriteDeletionTombstone(id: UserId, generation: nat, now: real)
      modifies this`tombstones
      ensures State() == WithTombstone(old(State()), id, generation, now)
      ensures tombstones.Keys == old(tombstones.Keys) + {id}
      ensures tombstones[id].terminal == if id in old(tombstones) then Max(old(tombstones)[id].terminal, generation + 1) else generation + 1
    {
      var terminal := generation + 1;
      if id !in tombstones {
        tombstones := tombstones[id := Tombstone(terminal, now)];
      } else if terminal > tombstones[id].terminal {
        tombstones := tombstones[id := Tombstone(terminal, now)];
      }
    }

    /** Deletes the tombstones past the horizon whose subject no undelivered effect names. */
    method CleanupExpiredTombstones(referenced: set<UserId>, now: real, retention: real) returns (deleted: nat)
      modifies this`tombstones
      ensures tombstones == CleanedTombstones(old(tombstones), referenced, now, retention)
      ensures forall id :: id in tombstones <==>
                id in old(tombstones) && (id in referenced || now - old(tombstones)[id].updatedAt < retention)
      ensures forall id | id in tombstones :: tombstones[id] == old(tombstones)[id]
      ensures deleted == |old(tombstones)| - |tombstones|
    {
      deleted := 0;
      var left, before := tombstones.Keys, tombstones;
      while left != {}
        invariant left <= before.Keys
        invariant tombstones == map id | id in before && (id in left || id in referenced || now - before[id].updatedAt < retention) :: before[id]
        invariant deleted == |before| - |tombstones|
        decreases left
      {
        var id :| id in left;
        if id !in referenced && now - tombstones[id].updatedAt >= retention {
          assert |tombstones - {id}| == |tombstones| - 1 by {
            assert (tombstones - {id}).Keys == tombstones.Keys - {id};
          }
          tombstones := tombstones - {id};
          deleted := deleted + 1;
        }
        left := left - {id};
      }
    }

    /** The audited repair of one row whose role and flag disagree. */
    method RepairUser(id: UserId, role: Role, now: real) returns (refusal: Option<Refusal>, ghost ids: seq<SessionId>)
      modifies this
      ensures Lists(ids, ActiveSessions(old(State()), id, now))
      ensures match RepairOutcome(old(State()), id, role, ids)
              case Refused(reason) => refusal == Some(reason) && State() == old(State()) && outbox == old(outbox)
              case Committed(db, rows) => refusal == None && State() == db && outbox == old(outbox) + rows
    {
      ids := ListOf(ActiveSessions(State(), id, now));
      if id !in users {
        return Some(UserNotFound), ids;
      }
      var u := users[id];
      if Consistent(u.role, u.isSuperuser) {
        if u.role != role {
          return Some(NotMismatched), ids;
        }
        return None, ids;
      }
      if !CanAdvance(u.generation) {
        return Some(GenerationOverflow), ids;
      }
      ids := RevokeAndEnqueueAuthorizationChange(id, u.(role := role, isSuperuser := DeriveIsSuperuser(role)), now);
      refusal := None;
    }

    // ----- the status endpoint -----

    /** The stateful answer: the database decision, then the blacklist as an accelerator
        that can only deny. */
    method CheckJtiStatus(jti: Jti, expected: UserId, redis: Redis?, now: real) returns (d: Decision)
      ensures d.Active? ==>
                && expected in users && expected !in tombstones && d == Active(expected, users[expected].generation)
                && users[expected].isActive && Consistent(users[expected].role, users[expected].isSuperuser)
                && (exists id | id in sessions :: sessions[id].jti == jti && sessions[id].owner == expected
                      && !sessions[id].revoked && sessions[id].stamp == Some(users[expected].generation))
                && (redis != null && jti in redis.blacklist ==> redis.blacklist[jti] <= now)
      ensures redis == null || jti !in redis.blacklist || redis.blacklist[jti] <= now ==>
                exists r: Option<ClientSession> ::
                  && (r.None? <==> forall id | id in sessions :: sessions[id].jti != jti)
                  && (r.Some? ==> r.value.jti == jti && r.value in sessions.Values)
                  && d == DecideFor(State(), r, expected)
    {
      d := DecideJtiStatus(jti, expected);
      if d.Active? && redis != null && jti in redis.blacklist && now < redis.blacklist[jti] {
        d := Inactive;
      }
    }

    // ----- the login and logout handlers -----

    /** `found` is the account the credentials match. Signing is refused for an inconsistent
        account; the session is committed before the identifier is admitted. */
    method LoginAccessToken(found: Option<UserId>, jti: Jti, redis: Redis?, jwtExp: real, refreshExp: real) returns (r: LoginOutcome, ghost row: SessionId)
      requires found.Some? ==> found.value in users
      modifies this`sessions, if redis == null then {} else {redis}
      ensures r.Rejected? <==> found.None? || !users[found.value].isActive
      ensures r.Blocked? <==> !r.Rejected? && !Consistent(users[found.value].role, users[found.value].isSuperuser)
      ensures !r.LoggedIn? ==> State() == old(State()) && (redis != null ==> unchanged(redis))
      ensures r.LoggedIn? ==>
                && WritableRow(old(State()), row, found.value)
                && State() == WithSession(old(State()), row, found.value, users[found.value].generation, jti, jwtExp, refreshExp)
                && (redis != null ==> redis.allowlist == old(redis.allowlist) + {jti} && redis.blacklist == old(redis.blacklist))
    {
      row := 0;
      if found.None? || !users[found.value].isActive {
        return Rejected, row;
      }
      var u := users[found.value];
      if !Consistent(u.role, u.isSuperuser) {
        return Blocked, row;
      }
      row := CreateClientSession(found.value, u.generation, jti, jwtExp, refreshExp);
      if redis != null {
        redis.Register(jti);
      }
      r := LoggedIn;
    }

    /** `access` and `refresh` are the tokens that validate, if they do. The access token's
        rows go first, then the refresh identifier, then the rows of whichever is known;
        whatever could not be done is reported only when failures close. */
    method Logout(access: Option<RevocationTarget>, refresh: Option<Jti>, redis: Redis?, failClosed: bool, now: real) returns (ok: bool)
      modifies this`sessions, if redis == null then {} else {redis}
      ensures State() == old(State()).(sessions := map id | id in old(sessions) && !LogsOut(access, refresh, redis != null, now, old(sessions)[id].jti) :: old(sessions)[id])
      ensures forall id :: id in sessions <==>
                && id in old(sessions) && !(access.Some? && old(sessions)[id].jti == access.value.jti)
                && !(redis != null && refresh == Some(old(sessions)[id].jti) && (access.None? || Ttl(access.value.expiresAt, now) == 0))
      ensures forall id | id in sessions :: sessions[id] == old(sessions)[id]
      ensures redis != null ==>
                && redis.blacklist == BlacklistAll(old(redis.blacklist), if access.Some? then [access.value] else [], now)
                && redis.allowlist == (if refresh.Some? then old(redis.allowlist) - {refresh.value} else old(redis.allowlist))
      ensures ok <==> !failClosed || (redis != null && refresh.Some? && access.Some? && Ttl(access.value.expiresAt, now) != 0)
    {
      var known: Option<Jti> := None;
      var failed := false;
      if access.Some? {
        var revoked := RevokeSessionJti(access.value.jti, access.value.expiresAt, redis, now);
        if revoked {
          known := Some(access.value.jti);
        } else {
          failed := true;
        }
      } else {
        failed := true;
      }
      if redis != null {
        if refresh.Some? {
          redis.Revoke(refresh.value);
          if known.None? {
            known := refresh;
          }
        } else {
          failed := true;
        }
      } else if failClosed {
        failed := true;
      }
      if known.Some? {
        sessions := map id | id in sessions && sessions[id].jti != known.value :: sessions[id];
      }
      ok := !(failed && failClosed);
    }

    // ----- the refresh handler -----

    /** Allowlist check, locked reload, lineage check, rotation, session write, in that
        order, with Redis present for the whole request or absent for all of it. `raced`
        says that another request consumes the identifier between the check and the swap. */
    method LoginRefreshToken(user: UserId, oldJti: Jti, newJti: Jti, redis: Redis?, failOpen: bool, raced: bool,
                             jwtExp: real, refreshExp: real, now: real)
      returns (r: RefreshOutcome, ghost lineage: Option<SessionId>, ghost row: SessionId)
      requires oldJti != newJti
      modifies this`sessions, if redis == null then {} else {redis}
      ensures r.Unavailable? <==> redis == null && !failOpen
      ensures r.NotAllowlisted? <==> redis != null && oldJti !in old(redis.allowlist)
      ensures r.InvalidUser? <==> !r.Unavailable? && !r.NotAllowlisted? && !(user in users && users[user].isActive)
      // turned away or let through, by columns
      ensures r.Refreshed? ==>
                && Refreshable(users, user, redis != null, failOpen, redis != null && oldJti in old(redis.allowlist)) && !(redis != null && raced)
                && exists id | id in old(sessions) :: old(sessions)[id].jti == oldJti && old(sessions)[id].stamp == Some(users[user].generation)
      ensures && Refreshable(users, user, redis != null, failOpen, redis != null && oldJti in old(redis.allowlist))
              && (exists id | id in old(sessions) :: old(sessions)[id].jti == oldJti)
              && (forall id | id in old(sessions) && old(sessions)[id].jti == oldJti :: old(sessions)[id].stamp == Some(users[user].generation))
              ==> if redis != null && raced then r.ReuseDetected? else r.Refreshed?
      ensures ReachesLineage(r) ==> LineageRow(old(sessions), oldJti, lineage)
      ensures r.Superseded? <==> ReachesLineage(r) && !Current(old(sessions), lineage, users[user].generation)
      ensures r.SigningBlocked? <==>
                && ReachesLineage(r) && Current(old(sessions), lineage, users[user].generation)
                && !Consistent(users[user].role, users[user].isSuperuser)
      ensures r.ReuseDetected? <==>
                && ReachesLineage(r) && Current(old(sessions), lineage, users[user].generation)
                && Consistent(users[user].role, users[user].isSuperuser) && redis != null && raced
      ensures r.Refreshed? ==>
                && WritableRow(old(State()), row, user)
                && State() == WithSession(old(State()), row, user, users[user].generation, newJti, jwtExp, refreshExp)
                && (redis != null ==> redis.blacklist == old(redis.blacklist) && redis.allowlist == old(redis.allowlist) - {oldJti} + {newJti})
      ensures r.ReuseDetected? ==>
                && State() == WithoutSessionsOf(old(State()), user)
                && exists ids, targets ::
                     && Lists(ids, ActiveSessions(old(State()), user, now)) && TargetsOf(targets, old(State()), ids)
                     && redis.blacklist == BlacklistAll(old(redis.blacklist), targets, now)
                     && redis.allowlist == old(redis.allowlist) - {oldJti} - Jtis(targets)
      ensures !r.Refreshed? && !r.ReuseDetected? ==> State() == old(State()) && (redis != null ==> unchanged(redis))
    {
      row, lineage := 0, None;
      if redis == null {
        if !failOpen {
          return Unavailable, lineage, row;
        }
      } else if oldJti !in redis.allowlist {
        return NotAllowlisted, lineage, row;
      }
      if user !in users || !users[user].isActive {
        return InvalidUser, lineage, row;
      }
      var u := users[user];
      var rows := set id | id in sessions && sessions[id].jti == oldJti;
      if rows == {} {
        assert forall id | id in sessions && sessions[id].jti == oldJti :: id in rows;
        return Superseded, lineage, row;
      }
      var first :| first in rows;
      lineage := Some(first);
      if IsStale(sessions[first].stamp, u.generation) {
        return Superseded, lineage, row;
      }
      if !Consistent(u.role, u.isSuperuser) {
        return SigningBlocked, lineage, row;
      }
      if redis != null {
        if raced {
          redis.Revoke(oldJti);
        }
        var rotated := redis.Rotate(oldJti, newJti);
        if !rotated {
          var _ := RevokeAllUserSessions(user, redis, now);
          return ReuseDetected, lineage, row;
        }
      }
      row := CreateClientSession(user, u.generation, newJti, jwtExp, refreshExp);
      r := Refreshed;
    }
  }

  lemma SizeWithout(before: map<SessionId, ClientSession>, gone: set<SessionId>, after: map<SessionId, ClientSession>)
    requires gone <= before.Keys && after.Keys == before.Keys - gone
    ensures |gone| == |before| - |after|
  {
    assert before.Keys == after.Keys + gone;
    assert |before| == |before.Keys| && |after| == |after.Keys|;
  }

  /** Some listing of a finite set. */
  ghost function ListOf(s: set<SessionId>): (ids: seq<SessionId>)
    ensures Lists(ids, s)
  {
    if s == {} then []
    else
      var id :| id in s;
      ListOf(s - {id}) + [id]
  }
}
