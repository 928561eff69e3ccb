/** The inductive invariant of the protocol. Each conjunct names the components it
    depends on, and each step has its own small lemma. */
module ProtocolInvariant {
  import opened Basics
  import opened OutboxRows
  import opened Authorization
  import opened Protocol
  import F = OutboxFleet

  type Sessions = map<SessionId, ClientSession>
  type Users = map<UserId, User>
  type Tokens = map<Jti, Token>

  // ----- session rows -----

  /** Every session row belongs to an account and to a settled token of that account, and
      carries the generation of the snapshot that token was signed from. */
  ghost predicate RowsOk(sessions: Sessions, users: Users, issued: Tokens, unsettled: set<Jti>) {
    && (forall id | id in sessions :: RowOk(sessions[id], users, issued, unsettled))
    && JtisUnique(sessions)
  }

  ghost predicate RowOk(row: ClientSession, users: Users, issued: Tokens, unsettled: set<Jti>) {
    && row.owner in users && row.jti in issued && row.jti !in unsettled
    && issued[row.jti].sub == row.owner
    && (row.stamp.Some? ==> row.stamp == issued[row.jti].generation)
  }

  ghost predicate JtisUnique(sessions: Sessions) {
    forall a, b | a in sessions && b in sessions && a != b :: sessions[a].jti != sessions[b].jti
  }

  // ----- tokens -----

  ghost predicate TokenSetsOk(issued: Tokens, unsettled: set<Jti>, delivered: set<Jti>, usedIds: set<UserId>) {
    && delivered <= issued.Keys && unsettled <= issued.Keys && delivered !! unsettled
    && forall j | j in issued :: issued[j].sub in usedIds
  }

  /** A token of the owner's current generation carries the owner's current claims. */
  ghost predicate ClaimsOk(issued: Tokens, users: Users) {
    forall j | j in issued && issued[j].generation.Some? && issued[j].sub in users ::
      TokenAgrees(issued[j], users[issued[j].sub])
  }

  ghost predicate TokenAgrees(t: Token, u: User)
    requires t.generation.Some?
  {
    && t.generation.value <= u.generation
    && (t.generation.value == u.generation ==> t == TokenOf(t.sub, u) && CanSign(u))
  }

  // ----- transactions and locks -----

  ghost predicate HoldsRow(rowLocks: map<UserId, TxnId>, r: TxnId, user: UserId) {
    user in rowLocks && rowLocks[user] == r
  }

  ghost predicate TxnOk(r: TxnId, t: Txn, issued: Tokens, unsettled: set<Jti>, delivered: set<Jti>,
                        rowLocks: map<UserId, TxnId>, policyLock: Option<TxnId>, users: Users) {
    match t
    case Login(user, u, jti, committed) =>
      && jti in issued && issued[jti] == TokenOf(user, u) && jti !in delivered
      && (jti in unsettled <==> !committed)
    case Refresh(user, u, oldJti, newJti, _, _) =>
      && HoldsRow(rowLocks, r, user) && user in users && users[user] == u
      && newJti in issued && newJti in unsettled && issued[newJti] == TokenOf(user, u)
      && oldJti in delivered && oldJti in issued && issued[oldJti].sub == user
    case Admin(_, user, op, checked) =>
      && policyLock == Some(r) && AffectsSet(op)
      && (checked ==> HoldsRow(rowLocks, r, user) && user in users && CanCommit(users[user], op))
  }

  /** The part of the guards that speaks of the locked row alone. */
  predicate CanCommit(u: User, op: Op) {
    match op
    case Change(upd) => !upd.role.Null? && (AuthorizationChanged(u, upd) ==> CanAdvance(u.generation))
    case Delete => CanAdvance(u.generation)
  }

  ghost predicate TxnsOk(txns: map<TxnId, Txn>, issued: Tokens, unsettled: set<Jti>, delivered: set<Jti>,
                         rowLocks: map<UserId, TxnId>, policyLock: Option<TxnId>, users: Users) {
    forall r | r in txns :: TxnOk(r, txns[r], issued, unsettled, delivered, rowLocks, policyLock, users)
  }

  function SignedJti(t: Txn): Option<Jti> {
    match t
    case Login(_, _, jti, _) => Some(jti)
    case Refresh(_, _, _, newJti, _, _) => Some(newJti)
    case Admin(_, _, _, _) => None
  }

  ghost predicate SigningsDistinct(txns: map<TxnId, Txn>) {
    forall r, q | r in txns && q in txns && r != q && SignedJti(txns[r]).Some? :: SignedJti(txns[r]) != SignedJti(txns[q])
  }

  ghost predicate LocksOk(rowLocks: map<UserId, TxnId>, policyLock: Option<TxnId>, txns: map<TxnId, Txn>) {
    && (forall user | user in rowLocks ::
          && rowLocks[user] in txns && !txns[rowLocks[user]].Login? && txns[rowLocks[user]].user == user)
    && (policyLock.Some? ==> policyLock.value in txns && txns[policyLock.value].Admin?)
  }

  // ----- the cache -----

  /** Signed, with no session write to come and no session row left. */
  ghost predicate Gone(jti: Jti, sessions: Sessions, issued: Tokens, unsettled: set<Jti>) {
    && jti in issued && jti !in unsettled
    && forall id | id in sessions :: sessions[id].jti != jti
  }

  ghost predicate AllGone(jtis: set<Jti>, sessions: Sessions, issued: Tokens, unsettled: set<Jti>) {
    forall j | j in jtis :: Gone(j, sessions, issued, unsettled)
  }

  /** The identifiers outbox rows, and workers' copies of them, will blacklist. */
  ghost predicate FleetGone(fleet: F.Fleet, sessions: Sessions, issued: Tokens, unsettled: set<Jti>) {
    && (forall id | id in fleet.rows && fleet.rows[id].effect.Blacklist? ::
          Gone(fleet.rows[id].effect.jti, sessions, issued, unsettled))
    && (forall w | w in fleet.held && fleet.held[w].loaded.Some? && fleet.held[w].loaded.value.row.effect.Blacklist? ::
          Gone(fleet.held[w].loaded.value.row.effect.jti, sessions, issued, unsettled))
  }

  // ----- the outbox key, and subjects -----

  /** No two outbox rows share the four-column key: a row's generation is at most its
      account's, and each enqueue is for a generation above that. */
  ghost predicate OutboxOk(rows: map<RowId, Row>, nextId: RowId, usedIds: set<UserId>, users: Users) {
    && (forall id | id in rows ::
          && id < nextId && rows[id].user in usedIds
          && (rows[id].user in users ==> rows[id].generation <= users[rows[id].user].generation))
    && (forall a, b | a in rows && b in rows && a != b :: KeyOf(rows[a]) != KeyOf(rows[b]))
  }

  /** Identifiers are never reused, tombstones are only for missing accounts, and a deleted
      account's terminal generation is above every generation it ever signed with. */
  ghost predicate SubjectsOk(users: Users, tombstones: map<UserId, Tombstone>, usedIds: set<UserId>,
                             deleted: map<UserId, Deletion>, issued: Tokens) {
    && users.Keys <= usedIds && tombstones.Keys <= usedIds && deleted.Keys <= usedIds
    && deleted.Keys !! users.Keys && tombstones.Keys !! users.Keys
    && forall id, j | id in deleted && j in issued && issued[j].sub == id && issued[j].generation.Some? ::
         issued[j].generation.value < deleted[id].terminal
  }

  ghost predicate Inv(s: State) {
    && RowsOk(s.db.sessions, s.db.users, s.issued, s.unsettled)
    && TokenSetsOk(s.issued, s.unsettled, s.delivered, s.usedIds)
    && ClaimsOk(s.issued, s.db.users)
    && TxnsOk(s.txns, s.issued, s.unsettled, s.delivered, s.rowLocks, s.policyLock, s.db.users)
    && SigningsDistinct(s.txns)
    && LocksOk(s.rowLocks, s.policyLock, s.txns)
    && AllGone(s.blacklist.Keys, s.db.sessions, s.issued, s.unsettled)
    && AllGone(s.effects, s.db.sessions, s.issued, s.unsettled)
    && FleetGone(s.fleet, s.db.sessions, s.issued, s.unsettled)
    && OutboxOk(s.fleet.rows, s.fleet.nextId, s.usedIds, s.db.users)
    && SubjectsOk(s.db.users, s.db.tombstones, s.usedIds, s.deleted, s.issued)
  }

  lemma StartInv(s: State)
    requires Start(s)
    ensures Inv(s)
  {
  }

  // ----- frames: signing a fresh token -----

  lemma SignFrame(sessions: Sessions, users: Users, issued: Tokens, unsettled: set<Jti>, jti: Jti, t: Token)
    requires RowsOk(sessions, users, issued, unsettled) && jti !in issued
    ensures RowsOk(sessions, users, issued[jti := t], unsettled + {jti})
  {
  }

  lemma SignKeepsGone(jtis: set<Jti>, sessions: Sessions, issued: Tokens, unsettled: set<Jti>, jti: Jti, t: Token)
    requires AllGone(jtis, sessions, issued, unsettled) && jti !in issued
    ensures AllGone(jtis, sessions, issued[jti := t], unsettled + {jti})
  {
  }

  lemma SignKeepsFleet(fleet: F.Fleet, sessions: Sessions, issued: Tokens, unsettled: set<Jti>, jti: Jti, t: Token)
    requires FleetGone(fleet, sessions, issued, unsettled) && jti !in issued
    ensures FleetGone(fleet, sessions, issued[jti := t], unsettled + {jti})
  {
  }

  lemma SignKeepsTxns(s: State, jti: Jti, t: Token)
    requires TxnsOk(s.txns, s.issued, s.unsettled, s.delivered, s.rowLocks, s.policyLock, s.db.users)
    requires TokenSetsOk(s.issued, s.unsettled, s.delivered, s.usedIds)
    requires jti !in s.issued
    ensures TxnsOk(s.txns, s.issued[jti := t], s.unsettled + {jti}, s.delivered, s.rowLocks, s.policyLock, s.db.users)
    ensures forall r | r in s.txns :: SignedJti(s.txns[r]) != Some(jti)
  {
    forall r | r in s.txns
      ensures TxnOk(r, s.txns[r], s.issued[jti := t], s.unsettled + {jti}, s.delivered, s.rowLocks, s.policyLock, s.db.users)
      ensures SignedJti(s.txns[r]) != Some(jti)
    {
      assert TxnOk(r, s.txns[r], s.issued, s.unsettled, s.delivered, s.rowLocks, s.policyLock, s.db.users);
    }
  }

  /** Signing from the current row of an account keeps everything but the transactions. */
  lemma SignInv(s: State, jti: Jti, id: UserId)
    requires Inv(s) && jti !in s.issued && id in s.db.users && CanSign(s.db.users[id])
    ensures var t := TokenOf(id, s.db.users[id]);
            Inv(s.(issued := s.issued[jti := t], unsettled := s.unsettled + {jti}))
    ensures forall r | r in s.txns :: SignedJti(s.txns[r]) != Some(jti)
  {
    var t := TokenOf(id, s.db.users[id]);
    SignFrame(s.db.sessions, s.db.users, s.issued, s.unsettled, jti, t);
    SignKeepsGone(s.blacklist.Keys, s.db.sessions, s.issued, s.unsettled, jti, t);
    SignKeepsGone(s.effects, s.db.sessions, s.issued, s.unsettled, jti, t);
    SignKeepsFleet(s.fleet, s.db.sessions, s.issued, s.unsettled, jti, t);
    SignKeepsTxns(s, jti, t);
  }

  // ----- frames: writing a session row -----

  /** The write settles a token no row, cache entry or outbox row can mention yet. */
  lemma WriteKeepsGone(jtis: set<Jti>, db: Db, issued: Tokens, unsettled: set<Jti>,
                       row: SessionId, owner: UserId, generation: nat, jti: Jti, jwtExp: real, refreshExp: real)
    requires AllGone(jtis, db.sessions, issued, unsettled) && jti in unsettled
    ensures AllGone(jtis, WithSession(db, row, owner, generation, jti, jwtExp, refreshExp).sessions, issued, unsettled - {jti})
  {
  }

  lemma WriteKeepsFleet(fleet: F.Fleet, db: Db, issued: Tokens, unsettled: set<Jti>,
                        row: SessionId, owner: UserId, generation: nat, jti: Jti, jwtExp: real, refreshExp: real)
    requires FleetGone(fleet, db.sessions, issued, unsettled) && jti in unsettled
    ensures FleetGone(fleet, WithSession(db, row, owner, generation, jti, jwtExp, refreshExp).sessions, issued, unsettled - {jti})
  {
  }

  lemma WriteKeepsRows(db: Db, issued: Tokens, unsettled: set<Jti>,
                       row: SessionId, owner: UserId, generation: nat, jti: Jti, jwtExp: real, refreshExp: real)
    requires RowsOk(db.sessions, db.users, issued, unsettled) && jti in unsettled && jti in issued
    requires owner in db.users && issued[jti].sub == owner && issued[jti].generation == Some(generation)
    ensures RowsOk(WithSession(db, row, owner, generation, jti, jwtExp, refreshExp).sessions, db.users, issued, unsettled - {jti})
  {
    var after := WithSession(db, row, owner, generation, jti, jwtExp, refreshExp).sessions;
    forall id | id in after
      ensures RowOk(after[id], db.users, issued, unsettled - {jti})
    {
      if id != row {
        assert RowOk(db.sessions[id], db.users, issued, unsettled);
      }
    }
  }

  /** The session write of transaction r; `rest` is the transaction table without r. */
  lemma WriteKeepsTxns(s: State, r: TxnId, jti: Jti)
    requires TxnsOk(s.txns, s.issued, s.unsettled, s.delivered, s.rowLocks, s.policyLock, s.db.users)
    requires SigningsDistinct(s.txns) && r in s.txns && SignedJti(s.txns[r]) == Some(jti)
    ensures forall delivered | s.delivered <= delivered <= s.delivered + {jti} ::
              TxnsOk(s.txns - {r}, s.issued, s.unsettled - {jti}, delivered, s.rowLocks, s.policyLock, s.db.users)
  {
    forall delivered, q | s.delivered <= delivered <= s.delivered + {jti} && q in s.txns && q != r
      ensures TxnOk(q, s.txns[q], s.issued, s.unsettled - {jti}, delivered, s.rowLocks, s.policyLock, s.db.users)
    {
      assert TxnOk(q, s.txns[q], s.issued, s.unsettled, s.delivered, s.rowLocks, s.policyLock, s.db.users);
    }
  }

  // ----- frames: removing session rows -----

  lemma DropKeepsGone(jtis: set<Jti>, before: Sessions, after: Sessions, issued: Tokens, unsettled: set<Jti>)
    requires AllGone(jtis, before, issued, unsettled)
    requires forall id | id in after :: id in before && after[id] == before[id]
    ensures AllGone(jtis, after, issued, unsettled)
  {
  }

  lemma DropKeepsFleet(fleet: F.Fleet, before: Sessions, after: Sessions, issued: Tokens, unsettled: set<Jti>)
    requires FleetGone(fleet, before, issued, unsettled)
    requires forall id | id in after :: id in before && after[id] == before[id]
    ensures FleetGone(fleet, after, issued, unsettled)
  {
  }

  // ----- frames: ending a transaction -----

  lemma EndInv(s: State, r: TxnId)
    requires RowsOk(s.db.sessions, s.db.users, s.issued, s.unsettled)
    requires TxnsOk(s.txns - {r}, s.issued, s.unsettled, s.delivered, s.rowLocks, s.policyLock, s.db.users)
    requires SigningsDistinct(s.txns) && LocksOk(s.rowLocks, s.policyLock, s.txns)
    ensures var e := Ended(s, r);
            && TxnsOk(e.txns, s.issued, s.unsettled, s.delivered, e.rowLocks, e.policyLock, s.db.users)
            && SigningsDistinct(e.txns) && LocksOk(e.rowLocks, e.policyLock, e.txns)
  {
    var e := Ended(s, r);
    forall q | q in e.txns
      ensures TxnOk(q, e.txns[q], s.issued, s.unsettled, s.delivered, e.rowLocks, e.policyLock, s.db.users)
    {
      assert TxnOk(q, (s.txns - {r})[q], s.issued, s.unsettled, s.delivered, s.rowLocks, s.policyLock, s.db.users);
    }
  }

  // ----- frames: adding or replacing a transaction -----

  lemma PutTxn(s: State, r: TxnId, t: Txn)
    requires TxnsOk(s.txns - {r}, s.issued, s.unsettled, s.delivered, s.rowLocks, s.policyLock, s.db.users)
    requires TxnOk(r, t, s.issued, s.unsettled, s.delivered, s.rowLocks, s.policyLock, s.db.users)
    ensures TxnsOk(s.txns[r := t], s.issued, s.unsettled, s.delivered, s.rowLocks, s.policyLock, s.db.users)
  {
    var txns := s.txns[r := t];
    forall q | q in txns
      ensures TxnOk(q, txns[q], s.issued, s.unsettled, s.delivered, s.rowLocks, s.policyLock, s.db.users)
    {
      if q != r {
        assert TxnOk(q, (s.txns - {r})[q], s.issued, s.unsettled, s.delivered, s.rowLocks, s.policyLock, s.db.users);
      }
    }
  }

  /** Taking the free lock of one row disturbs no transaction. */
  lemma LockKeepsTxns(s: State, r: TxnId, user: UserId)
    requires TxnsOk(s.txns, s.issued, s.unsettled, s.delivered, s.rowLocks, s.policyLock, s.db.users)
    requires user !in s.rowLocks
    ensures TxnsOk(s.txns - {r}, s.issued, s.unsettled, s.delivered, s.rowLocks[user := r], s.policyLock, s.db.users)
  {
    forall q | q in s.txns - {r}
      ensures TxnOk(q, s.txns[q], s.issued, s.unsettled, s.delivered, s.rowLocks[user := r], s.policyLock, s.db.users)
    {
      assert TxnOk(q, s.txns[q], s.issued, s.unsettled, s.delivered, s.rowLocks, s.policyLock, s.db.users);
    }
  }

  // ----- frames: rewriting or removing an unlocked account -----

  /** Nothing in flight depends on a row whose lock is free. */
  lemma UnlockedKeepsTxns(s: State, id: UserId, users: Users)
    requires TxnsOk(s.txns, s.issued, s.unsettled, s.delivered, s.rowLocks, s.policyLock, s.db.users)
    requires id !in s.rowLocks
    requires forall i | i in s.db.users && i != id :: i in users && users[i] == s.db.users[i]
    ensures TxnsOk(s.txns, s.issued, s.unsettled, s.delivered, s.rowLocks, s.policyLock, users)
  {
    forall q | q in s.txns
      ensures TxnOk(q, s.txns[q], s.issued, s.unsettled, s.delivered, s.rowLocks, s.policyLock, users)
    {
      assert TxnOk(q, s.txns[q], s.issued, s.unsettled, s.delivered, s.rowLocks, s.policyLock, s.db.users);
    }
  }

  /** A write that leaves generation and claims alone; it may only straighten a flag that
      disagreed with its role, and no token carries such a pair. */
  lemma SameClaimsInv(s: State, id: UserId, v: User)
    requires Inv(s) && CanWriteUser(s, id)
    requires var u := s.db.users[id];
             && v.generation == u.generation && v.role == u.role && v.isActive == u.isActive
             && (Consistent(u.role, u.isSuperuser) ==> v.isSuperuser == u.isSuperuser)
    ensures Inv(s.(db := s.db.(users := s.db.users[id := v])))
  {
    UnlockedKeepsTxns(s, id, s.db.users[id := v]);
  }

  /** The rows of one enqueue have keys no earlier row has, and distinct ones. */
  lemma EnqueueKeepsOutbox(rows: map<RowId, Row>, nextId: RowId, usedIds: set<UserId>, users: Users,
                           db: Db, id: UserId, v: User, ids: seq<SessionId>)
    requires OutboxOk(rows, nextId, usedIds, users) && id in users && id in usedIds
    requires v.generation == users[id].generation + 1 && JtisUnique(db.sessions)
    requires forall i | 0 <= i < |ids| :: ids[i] in db.sessions
    requires forall i, j | 0 <= i < j < |ids| :: ids[i] != ids[j]
    ensures var added := Effects(db, id, v.generation, ids);
            OutboxOk(F.Append(rows, nextId, added), nextId + |added|, usedIds, users[id := v])
  {
    var added := Effects(db, id, v.generation, ids);
    var after := F.Append(rows, nextId, added);
    EffectsKeys(db, id, v.generation, ids);
    assert forall k | k in after && k >= nextId :: after[k] == added[k - nextId];
    assert forall k | k in after && k < nextId :: k in rows && after[k] == rows[k];
    forall a, b | a in after && b in after && a != b
      ensures KeyOf(after[a]) != KeyOf(after[b])
    {
      if a >= nextId && b >= nextId {
        assert KeyOf(added[a - nextId]) != KeyOf(added[b - nextId]);
      } else if a < nextId && b < nextId {
        assert KeyOf(rows[a]) != KeyOf(rows[b]);
      } else if a >= nextId {
        assert KeyOf(added[a - nextId]).generation == v.generation && KeyOf(added[a - nextId]).user == id;
      } else {
        assert KeyOf(added[b - nextId]).generation == v.generation && KeyOf(added[b - nextId]).user == id;
      }
    }
  }

  lemma EffectsKeys(db: Db, id: UserId, generation: nat, ids: seq<SessionId>)
    requires JtisUnique(db.sessions)
    requires forall i | 0 <= i < |ids| :: ids[i] in db.sessions
    requires forall i, j | 0 <= i < j < |ids| :: ids[i] != ids[j]
    ensures var added := Effects(db, id, generation, ids);
            && (forall i | 0 <= i < |added| :: added[i].user == id && added[i].generation == generation)
            && (forall i, j | 0 <= i < |added| && 0 <= j < |added| && i != j :: KeyOf(added[i]) != KeyOf(added[j]))
  {
    var added := Effects(db, id, generation, ids);
    forall i, j | 0 <= i < |added| && 0 <= j < |added| && i != j
      ensures KeyOf(added[i]) != KeyOf(added[j])
    {
      if i < |ids| && j < |ids| {
        assert ids[i] != ids[j];
      }
    }
  }

  lemma EnqueueKeepsFleet(p: Params, fleet: F.Fleet, before: Sessions, after: Sessions, db: Db, issued: Tokens, unsettled: set<Jti>,
                          id: UserId, generation: nat, ids: seq<SessionId>)
    requires FleetGone(fleet, before, issued, unsettled)
    requires forall k | k in after :: k in before && after[k] == before[k]
    requires forall i | 0 <= i < |ids| :: ids[i] in db.sessions && Gone(db.sessions[ids[i]].jti, after, issued, unsettled)
    ensures FleetGone(Enqueued(p, fleet, Effects(db, id, generation, ids)), after, issued, unsettled)
  {
    var added := Effects(db, id, generation, ids);
    var rows := Enqueued(p, fleet, added).rows;
    DropKeepsFleet(fleet, before, after, issued, unsettled);
    forall k | k in rows && rows[k].effect.Blacklist?
      ensures Gone(rows[k].effect.jti, after, issued, unsettled)
    {
      if fleet.nextId <= k < fleet.nextId + |added| {
        assert rows[k] == added[k - fleet.nextId];
      }
    }
  }

  /** The sessions of an account, once deleted, are gone for good. */
  lemma DroppedAreGone(db: Db, id: UserId, issued: Tokens, unsettled: set<Jti>)
    requires RowsOk(db.sessions, db.users, issued, unsettled)
    ensures forall k | k in db.sessions && db.sessions[k].owner == id ::
              Gone(db.sessions[k].jti, WithoutSessionsOf(db, id).sessions, issued, unsettled)
  {
  }

  /** An authorization transition: the next generation, no sessions, the effects enqueued. */
  function Transitioned(p: Params, s: State, id: UserId, v: User, ids: seq<SessionId>): State
    requires forall i | 0 <= i < |ids| :: ids[i] in s.db.sessions
  {
    s.(db := WithoutSessionsOf(s.db, id).(users := s.db.users[id := v]),
       fleet := Enqueued(p, s.fleet, Effects(s.db, id, v.generation, ids)))
  }

  lemma TransitionInv(p: Params, s: State, id: UserId, v: User, ids: seq<SessionId>)
    requires Inv(s) && CanWriteUser(s, id) && v.generation == s.db.users[id].generation + 1
    requires Lists(ids, ActiveSessions(s.db, id, s.fleet.now))
    ensures Inv(Transitioned(p, s, id, v, ids))
  {
    var after := WithoutSessionsOf(s.db, id).sessions;
    DroppedAreGone(s.db, id, s.issued, s.unsettled);
    UnlockedKeepsTxns(s, id, s.db.users[id := v]);
    DropKeepsGone(s.blacklist.Keys, s.db.sessions, after, s.issued, s.unsettled);
    DropKeepsGone(s.effects, s.db.sessions, after, s.issued, s.unsettled);
    EnqueueKeepsFleet(p, s.fleet, s.db.sessions, after, s.db, s.issued, s.unsettled, id, v.generation, ids);
    EnqueueKeepsOutbox(s.fleet.rows, s.fleet.nextId, s.usedIds, s.db.users, s.db, id, v, ids);
    TransitionKeepsClaims(s, id, v);
  }

  /** The two transactions that end in a transition leave the state `TransitionInv` speaks
      of, up to API keys and the policy revision. */
  lemma ChangeIsTransition(p: Params, s: State, id: UserId, upd: Update, ids: seq<SessionId>)
    requires id in s.db.users && AuthorizationChanged(s.db.users[id], upd)
    requires forall i | 0 <= i < |ids| :: ids[i] in s.db.sessions
    ensures var e := ChangedBy(p, s, id, upd, ids);
            var u := s.db.users[id];
            var t := Transitioned(p, s, id, Applied(u, upd).(generation := u.generation + 1), ids);
            e == t.(db := t.db.(keys := e.db.keys, revision := e.db.revision))
  {
  }

  lemma RepairIsTransition(p: Params, s: State, id: UserId, role: Role, ids: seq<SessionId>)
    requires CanRepair(s, id, ids)
    ensures var u := s.db.users[id];
            Repaired(p, s, id, role, ids)
            == Transitioned(p, s, id, u.(role := role, isSuperuser := DeriveIsSuperuser(role), generation := u.generation + 1), ids)
  {
  }

  lemma KeysAndRevisionInv(s: State, keys: map<nat, ApiKey>, revision: nat)
    requires Inv(s)
    ensures Inv(s.(db := s.db.(keys := keys, revision := revision)))
  {
  }

  lemma TransitionKeepsClaims(s: State, id: UserId, v: User)
    requires Inv(s) && id in s.db.users && v.generation == s.db.users[id].generation + 1
    ensures RowsOk(WithoutSessionsOf(s.db, id).sessions, s.db.users[id := v], s.issued, s.unsettled)
    ensures ClaimsOk(s.issued, s.db.users[id := v])
    ensures SubjectsOk(s.db.users[id := v], s.db.tombstones, s.usedIds, s.deleted, s.issued)
  {
  }

  // ----- frames: one step of a worker -----

  lemma WorkKeepsFleet(c: Config, fleet: F.Fleet, step: F.Action, sessions: Sessions, issued: Tokens, unsettled: set<Jti>)
    requires !step.Enqueue? && F.Enabled(c, fleet, step)
    requires FleetGone(fleet, sessions, issued, unsettled)
    ensures FleetGone(F.Apply(c, fleet, step), sessions, issued, unsettled)
  {
  }

  lemma IdentityKeepsOutbox(before: map<RowId, Row>, after: map<RowId, Row>, nextId: RowId, usedIds: set<UserId>, users: Users)
    requires OutboxOk(before, nextId, usedIds, users)
    requires forall id | id in after :: id in before && F.SameIdentity(after[id], before[id])
    ensures OutboxOk(after, nextId, usedIds, users)
  {
    forall a, b | a in after && b in after && a != b
      ensures KeyOf(after[a]) != KeyOf(after[b])
    {
      assert KeyOf(after[a]) == KeyOf(before[a]) && KeyOf(after[b]) == KeyOf(before[b]);
    }
  }

  lemma WorkKeepsBlacklist(s: State, step: F.Action, wrote: bool)
    requires step.Finish? ==> step.worker in s.fleet.held && s.fleet.held[step.worker].loaded.Some?
    requires AllGone(s.blacklist.Keys, s.db.sessions, s.issued, s.unsettled)
    requires FleetGone(s.fleet, s.db.sessions, s.issued, s.unsettled)
    ensures var e := WorkRedis(s, step, wrote);
            && AllGone(e.blacklist.Keys, s.db.sessions, s.issued, s.unsettled)
            && e == s.(blacklist := e.blacklist, allowlist := e.allowlist)
  {
  }

  lemma ReplaceFleet(s: State, fleet: F.Fleet, blacklist: map<Jti, real>, allowlist: set<Jti>)
    requires Inv(s)
    requires FleetGone(fleet, s.db.sessions, s.issued, s.unsettled)
    requires OutboxOk(fleet.rows, fleet.nextId, s.usedIds, s.db.users)
    requires AllGone(blacklist.Keys, s.db.sessions, s.issued, s.unsettled)
    ensures Inv(s.(fleet := fleet, blacklist := blacklist, allowlist := allowlist))
  {
  }

  // ----- one lemma per step -----

  lemma CreateUserInv(s: State, id: UserId, role: Role, active: bool, profile: int)
    requires Inv(s) && CanCreateUser(s, id)
    ensures Inv(CreatedUser(s, id, role, active, profile))
  {
  }

  lemma EditProfileInv(s: State, id: UserId, profile: int)
    requires Inv(s) && CanWriteUser(s, id)
    ensures Inv(EditedProfile(s, id, profile))
  {
    SameClaimsInv(s, id, s.db.users[id].(profile := profile));
  }

  lemma RemoveKeeps(s: State, id: UserId)
    requires Inv(s) && CanWriteUser(s, id)
    ensures var d := WithoutUser(s.db, id);
            && RowsOk(d.sessions, d.users, s.issued, s.unsettled)
            && ClaimsOk(s.issued, d.users)
            && TxnsOk(s.txns, s.issued, s.unsettled, s.delivered, s.rowLocks, s.policyLock, d.users)
            && AllGone(s.blacklist.Keys, d.sessions, s.issued, s.unsettled)
            && AllGone(s.effects, d.sessions, s.issued, s.unsettled)
            && FleetGone(s.fleet, d.sessions, s.issued, s.unsettled)
            && OutboxOk(s.fleet.rows, s.fleet.nextId, s.usedIds, d.users)
  {
    var d := WithoutUser(s.db, id);
    UnlockedKeepsTxns(s, id, d.users);
    DropKeepsGone(s.blacklist.Keys, s.db.sessions, d.sessions, s.issued, s.unsettled);
    DropKeepsGone(s.effects, s.db.sessions, d.sessions, s.issued, s.unsettled);
    DropKeepsFleet(s.fleet, s.db.sessions, d.sessions, s.issued, s.unsettled);
  }

  lemma DeleteInv(s: State, id: UserId)
    requires Inv(s) && CanWriteUser(s, id)
    ensures Inv(DeletedBy(s, id))
  {
    RemoveKeeps(s, id);
  }

  lemma SelfDeleteInv(s: State, jti: Jti, asked: bool)
    requires Inv(s) && CanSelfDelete(s, jti, asked)
    ensures Inv(SelfDeleted(s, jti))
  {
    if SelfDeletes(s, jti) {
      RemoveKeeps(s, s.issued[jti].sub);
    }
  }

  lemma LoginReadKeepsTxns(signed: State, r: TxnId, t: Txn)
    requires Inv(signed) && r !in signed.txns && t.Login? && !t.committed
    requires t.jti in signed.issued && signed.issued[t.jti] == TokenOf(t.user, t.snapshot) && t.jti in signed.unsettled
    requires forall q | q in signed.txns :: SignedJti(signed.txns[q]) != Some(t.jti)
    ensures Inv(signed.(txns := signed.txns[r := t]))
  {
    assert signed.txns - {r} == signed.txns;
    PutTxn(signed, r, t);
  }

  lemma ReadLoginInv(s: State, r: TxnId, id: UserId, jti: Jti)
    requires Inv(s) && CanReadLogin(s, r, id, jti)
    ensures Inv(ReadLogin(s, r, id, jti))
  {
    var u := s.db.users[id];
    var signed := s.(issued := s.issued[jti := TokenOf(id, u)], unsettled := s.unsettled + {jti});
    SignInv(s, jti, id);
    LoginReadKeepsTxns(signed, r, Login(id, u, jti, false));
  }

  lemma CommitLoginInv(s: State, r: TxnId, row: SessionId, jwtExp: real, refreshExp: real)
    requires Inv(s) && CanCommitLogin(s, r, row)
    ensures Inv(CommittedLogin(s, r, row, jwtExp, refreshExp))
  {
    var t := s.txns[r];
    assert TxnOk(r, t, s.issued, s.unsettled, s.delivered, s.rowLocks, s.policyLock, s.db.users);
    WriteKeepsRows(s.db, s.issued, s.unsettled, row, t.user, t.snapshot.generation, t.jti, jwtExp, refreshExp);
    WriteKeepsGone(s.blacklist.Keys, s.db, s.issued, s.unsettled, row, t.user, t.snapshot.generation, t.jti, jwtExp, refreshExp);
    WriteKeepsGone(s.effects, s.db, s.issued, s.unsettled, row, t.user, t.snapshot.generation, t.jti, jwtExp, refreshExp);
    WriteKeepsFleet(s.fleet, s.db, s.issued, s.unsettled, row, t.user, t.snapshot.generation, t.jti, jwtExp, refreshExp);
    WriteKeepsTxns(s, r, t.jti);
    PutTxn(s.(unsettled := s.unsettled - {t.jti}), r, t.(committed := true));
  }

  lemma DeliverLoginInv(s: State, r: TxnId, registered: bool)
    requires Inv(s) && IsLogin(s, r, true)
    ensures Inv(DeliveredLogin(s, r, registered))
  {
  }

  lemma BegunKeepsTxns(s: State, signed: State, r: TxnId, oldJti: Jti, newJti: Jti, viaRedis: bool)
    requires Inv(s) && CanBeginRefresh(s, r, oldJti, newJti) && Inv(signed)
    requires var id := s.issued[oldJti].sub;
             signed == s.(issued := s.issued[newJti := TokenOf(id, s.db.users[id])], unsettled := s.unsettled + {newJti})
    ensures var e := BegunRefresh(s, r, oldJti, newJti, viaRedis);
            TxnsOk(e.txns, e.issued, e.unsettled, e.delivered, e.rowLocks, e.policyLock, e.db.users)
  {
    var id := s.issued[oldJti].sub;
    LockKeepsTxns(signed, r, id);
    assert signed.txns - {r} == signed.txns;
    PutTxn(signed.(rowLocks := s.rowLocks[id := r]), r, Refresh(id, s.db.users[id], oldJti, newJti, viaRedis, false));
  }

  lemma BegunKeepsLocks(s: State, r: TxnId, id: UserId, t: Txn)
    requires SigningsDistinct(s.txns) && LocksOk(s.rowLocks, s.policyLock, s.txns) && r !in s.txns && id !in s.rowLocks
    requires t.Refresh? && t.user == id && forall q | q in s.txns :: SignedJti(s.txns[q]) != SignedJti(t)
    ensures SigningsDistinct(s.txns[r := t]) && LocksOk(s.rowLocks[id := r], s.policyLock, s.txns[r := t])
  {
  }

  lemma BeginRefreshInv(s: State, r: TxnId, oldJti: Jti, newJti: Jti, viaRedis: bool)
    requires Inv(s) && CanBeginRefresh(s, r, oldJti, newJti)
    ensures Inv(BegunRefresh(s, r, oldJti, newJti, viaRedis))
  {
    var id := s.issued[oldJti].sub;
    SignInv(s, newJti, id);
    var signed := s.(issued := s.issued[newJti := TokenOf(id, s.db.users[id])], unsettled := s.unsettled + {newJti});
    BegunKeepsTxns(s, signed, r, oldJti, newJti, viaRedis);
    BegunKeepsLocks(s, r, id, Refresh(id, s.db.users[id], oldJti, newJti, viaRedis, false));
  }

  lemma RotateInv(s: State, r: TxnId)
    requires Inv(s) && AtSwap(s, r)
    ensures Inv(RotatedRefresh(s, r))
  {
  }

  /** Revoking on reuse is dropping the account's sessions and ending the request. */
  lemma ReuseIsDropThenAbort(s: State, r: TxnId, mine: set<SessionId>, captured: set<SessionId>)
    requires AtSwap(s, r) && mine == (set id | id in s.db.sessions && s.db.sessions[id].owner == s.txns[r].user)
    requires captured == ActiveSessions(s.db, s.txns[r].user, s.fleet.now)
    ensures r in DroppedSessions(s, mine, captured).txns
    ensures Aborted(DroppedSessions(s, mine, captured), r) == ReuseRefresh(s, r)
  {
    assert s.db.sessions - mine == WithoutSessionsOf(s.db, s.txns[r].user).sessions;
  }

  lemma ReuseInv(s: State, r: TxnId)
    requires Inv(s) && AtSwap(s, r)
    ensures Inv(ReuseRefresh(s, r))
  {
    var mine := set id | id in s.db.sessions && s.db.sessions[id].owner == s.txns[r].user;
    var captured := ActiveSessions(s.db, s.txns[r].user, s.fleet.now);
    ReuseIsDropThenAbort(s, r, mine, captured);
    DropSessionsInv(s, mine, captured);
    AbortInv(DroppedSessions(s, mine, captured), r);
    InvOfEqual(Aborted(DroppedSessions(s, mine, captured), r), ReuseRefresh(s, r));
  }

  lemma CommitRefreshInv(s: State, r: TxnId, row: SessionId, jwtExp: real, refreshExp: real)
    requires Inv(s) && CanCommitRefresh(s, r, row)
    ensures Inv(CommittedRefresh(s, r, row, jwtExp, refreshExp))
  {
    var t := s.txns[r];
    assert TxnOk(r, t, s.issued, s.unsettled, s.delivered, s.rowLocks, s.policyLock, s.db.users);
    WriteKeepsRows(s.db, s.issued, s.unsettled, row, t.user, t.snapshot.generation, t.newJti, jwtExp, refreshExp);
    WriteKeepsGone(s.blacklist.Keys, s.db, s.issued, s.unsettled, row, t.user, t.snapshot.generation, t.newJti, jwtExp, refreshExp);
    WriteKeepsGone(s.effects, s.db, s.issued, s.unsettled, row, t.user, t.snapshot.generation, t.newJti, jwtExp, refreshExp);
    WriteKeepsFleet(s.fleet, s.db, s.issued, s.unsettled, row, t.user, t.snapshot.generation, t.newJti, jwtExp, refreshExp);
    WriteKeepsTxns(s, r, t.newJti);
    EndInv(s.(db := WithSession(s.db, row, t.user, t.snapshot.generation, t.newJti, jwtExp, refreshExp),
              unsettled := s.unsettled - {t.newJti}, delivered := s.delivered + {t.newJti}), r);
  }

  lemma BeginAdminInv(s: State, r: TxnId, actor: UserId, id: UserId, op: Op)
    requires Inv(s) && CanBeginAdmin(s, r, op)
    ensures Inv(BegunAdmin(s, r, actor, id, op))
  {
  }

  lemma CheckAdminInv(s: State, r: TxnId)
    requires Inv(s) && CanCheckAdmin(s, r)
    ensures Inv(CheckedAdmin(s, r))
  {
    var t := s.txns[r];
    assert TxnOk(r, t, s.issued, s.unsettled, s.delivered, s.rowLocks, s.policyLock, s.db.users);
    LockKeepsTxns(s, r, t.user);
    PutTxn(s.(rowLocks := s.rowLocks[t.user := r]), r, t.(checked := true));
  }

  lemma AbortInv(s: State, r: TxnId)
    requires Inv(s) && r in s.txns
    ensures Inv(Aborted(s, r))
  {
    var t := s.txns[r];
    if t.Admin? {
      EndInv(s, r);
    } else {
      var jti := SignedJti(t).value;
      WriteKeepsTxns(s, r, jti);
      EndInv(s.(unsettled := s.unsettled - {jti}), r);
    }
  }

  lemma DropSessionsInv(s: State, rows: set<SessionId>, captured: set<SessionId>)
    requires Inv(s) && captured <= rows <= s.db.sessions.Keys
    ensures Inv(DroppedSessions(s, rows, captured))
  {
  }

  lemma LogoutInv(s: State, jti: Jti)
    requires Inv(s) && jti in s.delivered
    ensures Inv(LoggedOut(s, jti))
  {
  }

  lemma ApplyEffectInv(s: State, jti: Jti, ttl: int, drop: bool)
    requires Inv(s) && jti in s.effects
    ensures Inv(AppliedEffect(s, jti, ttl, drop))
  {
  }

  lemma CleanInv(p: Params, s: State)
    requires Inv(s)
    ensures Inv(Cleaned(p, s))
  {
  }

  lemma WorkInv(p: Params, s: State, step: F.Action, wrote: bool)
    requires Inv(s) && CanWork(p, s, step)
    ensures Inv(Worked(p, s, step, wrote))
  {
    var e := WorkRedis(s, step, wrote);
    var fleet := F.Apply(p.worker, s.fleet, step);
    WorkKeepsBlacklist(s, step, wrote);
    WorkKeepsFleet(p.worker, s.fleet, step, s.db.sessions, s.issued, s.unsettled);
    F.RowsKeepIdentity(p.worker, s.fleet, step);
    IdentityKeepsOutbox(s.fleet.rows, fleet.rows, s.fleet.nextId, s.usedIds, s.db.users);
    ReplaceFleet(s, fleet, e.blacklist, e.allowlist);
  }

  lemma InvOfEqual(a: State, b: State)
    requires a == b && Inv(a)
    ensures Inv(b)
  {
  }

  lemma RepairInv(p: Params, s: State, id: UserId, role: Role, ids: seq<SessionId>)
    requires Inv(s) && CanRepair(s, id, ids)
    ensures Inv(Repaired(p, s, id, role, ids))
  {
    var u := s.db.users[id];
    var v := u.(role := role, isSuperuser := DeriveIsSuperuser(role), generation := u.generation + 1);
    RepairIsTransition(p, s, id, role, ids);
    TransitionInv(p, s, id, v, ids);
    InvOfEqual(Transitioned(p, s, id, v, ids), Repaired(p, s, id, role, ids));
  }

  lemma CommitAdminInv(p: Params, s: State, r: TxnId, ids: seq<SessionId>)
    requires Inv(s) && CanCommitAdmin(s, r, ids)
    ensures Inv(CommittedAdmin(p, s, r, ids))
  {
    var t := s.txns[r];
    EndAdminInv(s, r);
    if t.op.Delete? {
      DeleteInv(Ended(s, r), t.user);
    } else {
      ChangeInv(p, Ended(s, r), t.user, t.op.upd, ids);
    }
  }

  lemma EndAdminInv(s: State, r: TxnId)
    requires Inv(s) && IsAdmin(s, r, true)
    ensures Inv(Ended(s, r)) && s.txns[r].user !in Ended(s, r).rowLocks
  {
    assert TxnOk(r, s.txns[r], s.issued, s.unsettled, s.delivered, s.rowLocks, s.policyLock, s.db.users);
    AbortInv(s, r);
    InvOfEqual(Aborted(s, r), Ended(s, r));
  }

  lemma ChangeInv(p: Params, s: State, id: UserId, upd: Update, ids: seq<SessionId>)
    requires Inv(s) && CanWriteUser(s, id) && Lists(ids, ActiveSessions(s.db, id, s.fleet.now))
    ensures Inv(ChangedBy(p, s, id, upd, ids))
  {
    if AuthorizationChanged(s.db.users[id], upd) {
      AuthorizationChangeInv(p, s, id, upd, ids);
    } else {
      SameClaimsInv(s, id, Applied(s.db.users[id], upd));
    }
  }

  lemma AuthorizationChangeInv(p: Params, s: State, id: UserId, upd: Update, ids: seq<SessionId>)
    requires Inv(s) && CanWriteUser(s, id) && Lists(ids, ActiveSessions(s.db, id, s.fleet.now))
    requires AuthorizationChanged(s.db.users[id], upd)
    ensures Inv(ChangedBy(p, s, id, upd, ids))
  {
    var e, v := ChangedBy(p, s, id, upd, ids), Applied(s.db.users[id], upd).(generation := s.db.users[id].generation + 1);
    var t := Transitioned(p, s, id, v, ids);
    ChangeIsTransition(p, s, id, upd, ids);
    TransitionInv(p, s, id, v, ids);
    KeysAndRevisionInv(t, e.db.keys, e.db.revision);
    InvOfEqual(t.(db := t.db.(keys := e.db.keys, revision := e.db.revision)), e);
  }
}
