/** What the transactions leave in the rows, and what the queries find there, column by column. */
module RowColumns {
  import opened Basics
  import opened OutboxRows
  import opened Authorization
  import opened RoleMatrix

  // ----- session rows -----

  predicate SessionWritten(before: map<SessionId, ClientSession>, after: map<SessionId, ClientSession>,
                           row: SessionId, owner: UserId, generation: nat, jti: Jti, jwtExp: real, refreshExp: real) {
    && after.Keys == before.Keys + {row}
    && (forall k | k in before && k != row :: after[k] == before[k])
    && after[row].owner == owner && after[row].jti == jti && after[row].stamp == Some(generation)
    && after[row].jwtExpiresAt == jwtExp && after[row].refreshExpiresAt == refreshExp
    && (after[row].revoked <==> row in before && before[row].revoked)
  }

  /** The row written carries the token, the stamp and the two expiries it was given, keeps a
      reused row's revoked flag, and is the only thing written. */
  lemma WrittenSession(db: Db, row: SessionId, owner: UserId, generation: nat, jti: Jti, jwtExp: real, refreshExp: real)
    ensures var e := WithSession(db, row, owner, generation, jti, jwtExp, refreshExp);
            && e == db.(sessions := e.sessions) && SessionWritten(db.sessions, e.sessions, row, owner, generation, jti, jwtExp, refreshExp)
  {
  }

  /** A live session: what a revocation has to reach. */
  predicate Reachable(row: ClientSession, user: UserId, now: real) {
    row.owner == user && !row.revoked && now < row.refreshExpiresAt
  }

  predicate Blacklists(row: Row, jti: Jti) {
    row.effect.Blacklist? && row.effect.jti == jti
  }

  /** A transition of an account enqueues a blacklist row for a session exactly if it is a live
      one of the account, pending, under the new generation and with the access expiry. */
  lemma CapturedIff(db: Db, id: UserId, generation: nat, ids: seq<SessionId>, now: real, k: SessionId)
    requires Lists(ids, ActiveSessions(db, id, now)) && k in db.sessions
    requires forall a, b | a in db.sessions && b in db.sessions && a != b :: db.sessions[a].jti != db.sessions[b].jti
    ensures var rows := Effects(db, id, generation, ids);
            && ((exists i | 0 <= i < |rows| :: Blacklists(rows[i], db.sessions[k].jti)) <==> Reachable(db.sessions[k], id, now))
            && forall i | 0 <= i < |rows| && Blacklists(rows[i], db.sessions[k].jti) ::
                 && rows[i].effect.expiresAt == db.sessions[k].jwtExpiresAt && rows[i].user == id
                 && rows[i].generation == generation && rows[i].status == Pending
  {
    var rows := Effects(db, id, generation, ids);
    if Reachable(db.sessions[k], id, now) {
      assert k in ActiveSessions(db, id, now);
      var i :| 0 <= i < |ids| && ids[i] == k;
      assert Blacklists(rows[i], db.sessions[k].jti);
    }
    forall i | 0 <= i < |rows| && Blacklists(rows[i], db.sessions[k].jti)
      ensures i < |ids| && ids[i] == k
    {
    }
  }

  /** The rows of a transition: blacklists, then one publish, all untried. */
  lemma PublishedOnce(db: Db, id: UserId, generation: nat, ids: seq<SessionId>)
    requires forall i | 0 <= i < |ids| :: ids[i] in db.sessions
    ensures var rows := Effects(db, id, generation, ids);
            && |rows| == |ids| + 1 && (forall i | 0 <= i < |rows| :: rows[i].effect.Publish? <==> i == |ids|)
            && forall i | 0 <= i < |rows| ::
                 && rows[i].user == id && rows[i].generation == generation && rows[i].status == Pending && rows[i].attempts == 0
                 && rows[i].leaseUntil == rows[i].nextAttemptAt == rows[i].completedAt == None
  {
  }

  // ----- the status decision -----

  /** The decision is active exactly for a current, unrevoked row of a live, consistent and
      untombstoned owner, and then says whose and of what generation. */
  lemma DecisionIff(db: Db, row: Option<ClientSession>, expected: UserId, user: UserId, generation: nat)
    ensures DecideFor(db, row, expected) == Active(user, generation)
            <==> && user == expected && expected !in db.tombstones && row.Some? && !row.value.revoked && row.value.owner == expected
                 && expected in db.users && db.users[expected].isActive
                 && (db.users[expected].isSuperuser <==> db.users[expected].role == SuperAdmin)
                 && generation == db.users[expected].generation && row.value.stamp == Some(generation)
  {
  }

  // ----- deletion and repair -----

  /** A committed deletion takes the account, its sessions and its keys and nothing of anybody
      else, and leaves a tombstone at least one generation above the account's. */
  lemma DeletedColumns(db: Db, id: UserId, now: real)
    requires id in db.users && DeletionOutcome(db, id, now).Committed?
    ensures var d := DeletionOutcome(db, id, now).db;
            && (forall k :: k in d.users <==> k in db.users && k != id)
            && (forall k | k in d.users :: d.users[k] == db.users[k])
            && (forall k :: k in d.sessions <==> k in db.sessions && db.sessions[k].owner != id)
            && (forall k | k in d.sessions :: d.sessions[k] == db.sessions[k])
            && (forall k :: k in d.keys <==> k in db.keys && db.keys[k].owner != id)
            && (forall k | k in d.keys :: d.keys[k] == db.keys[k])
            && d.tombstones.Keys == db.tombstones.Keys + {id}
            && (forall k | k in db.tombstones && k != id :: d.tombstones[k] == db.tombstones[k])
            && d.tombstones[id].terminal == (if id in db.tombstones then Max(db.tombstones[id].terminal, db.users[id].generation + 1) else db.users[id].generation + 1)
            && (id !in db.tombstones ==> d.tombstones[id].updatedAt == now)
            && d.revision == db.revision + 1
  {
  }

  /** A repair happens exactly for a row whose role and flag disagree; it leaves the role asked
      for with its flag, the next generation, and none of the account's sessions. */
  lemma RepairedColumns(db: Db, id: UserId, role: Role, ids: seq<SessionId>)
    requires forall i | 0 <= i < |ids| :: ids[i] in db.sessions
    ensures var o := RepairOutcome(db, id, role, ids);
            && (o == Refused(UserNotFound) <==> id !in db.users)
            && (o.Committed? && o.enqueued != [] <==>
                  id in db.users && db.users[id].isSuperuser != (db.users[id].role == SuperAdmin) && db.users[id].generation < 0x7fff_ffff_ffff_ffff)
            && (o.Committed? && o.enqueued == [] ==> o.db == db && db.users[id].role == role)
            && (o.Committed? && o.enqueued != [] ==>
                  var u, v := db.users[id], o.db.users[id];
                  && v.role == role && v.isSuperuser == (role == SuperAdmin) && v.generation == u.generation + 1
                  && v.isActive == u.isActive && v.profile == u.profile
                  && (forall i | 0 <= i < |o.enqueued| :: o.enqueued[i].user == id && o.enqueued[i].generation == v.generation)
                  && o.db.users == db.users[id := v] && o.db.tombstones == db.tombstones && o.db.keys == db.keys
                  && (forall k :: k in o.db.sessions <==> k in db.sessions && db.sessions[k].owner != id)
                  && (forall k | k in o.db.sessions :: o.db.sessions[k] == db.sessions[k]))
  {
  }
}
