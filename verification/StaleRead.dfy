/** What an administrative transaction does when the account it read is not the row it locks.

    The row lock is taken by a query whose result is dropped and which does not refresh the
    object read before it. So the guards and the new values come from `seen`, while the
    UPDATE lists only the columns that now differ from `seen`, and the outbox rows carry the
    generation after the one that was seen. */
module StaleRead {
  import opened Basics
  import opened OutboxRows
  import opened Authorization
  import opened ProtocolInvariant

  // ----- a change -----

  /** The locked row after the UPDATE of an object that was read as `seen`. */
  function Merge(current: User, seen: User, after: User): User {
    User(
      if after.role != seen.role then after.role else current.role,
      if after.isSuperuser != seen.isSuperuser then after.isSuperuser else current.isSuperuser,
      if after.isActive != seen.isActive then after.isActive else current.isActive,
      if after.generation != seen.generation then after.generation else current.generation,
      if after.profile != seen.profile then after.profile else current.profile)
  }

  function MergedUser(current: User, seen: User, upd: Update): User {
    var v := Applied(seen, upd);
    Merge(current, seen, if AuthorizationChanged(seen, upd) then v.(generation := seen.generation + 1) else v)
  }

  /** The guards see the stale object; the count of other superusers is a fresh query. */
  function MergedRefusal(db: Db, actor: UserId, id: UserId, seen: User, upd: Update): Option<Refusal> {
    ChangeRefusal(db.(users := db.users[id := seen]), actor, id, upd)
  }

  function MergedDb(db: Db, id: UserId, seen: User, upd: Update): Db
    requires id in db.users
  {
    var written := db.(users := db.users[id := MergedUser(db.users[id], seen, upd)]);
    if !AuthorizationChanged(seen, upd) then written
    else WithoutSessionsOf(written, id).(
      keys := if ResolveIntent(seen, upd).Deactivated() then RevokedKeys(db.keys, id) else db.keys,
      revision := db.revision + 1)
  }

  function MergedEffects(db: Db, id: UserId, seen: User, upd: Update, ids: seq<SessionId>): seq<Row>
    requires forall i | 0 <= i < |ids| :: ids[i] in db.sessions
  {
    if AuthorizationChanged(seen, upd) then Effects(db, id, seen.generation + 1, ids) else []
  }

  predicate HasKey(rows: map<RowId, Row>, key: UniqueKey) {
    exists k | k in rows :: KeyOf(rows[k]) == key
  }

  /** The unique constraint lets the rows in. */
  predicate Insertable(rows: map<RowId, Row>, added: seq<Row>) {
    && (forall i | 0 <= i < |added| :: !HasKey(rows, KeyOf(added[i])))
    && (forall i, j | 0 <= i < j < |added| :: KeyOf(added[i]) != KeyOf(added[j]))
  }

  function MergedOutcome(db: Db, rows: map<RowId, Row>, actor: UserId, id: UserId, seen: User, upd: Update, ids: seq<SessionId>): Outcome
    requires id in db.users && forall i | 0 <= i < |ids| :: ids[i] in db.sessions
  {
    var refusal := MergedRefusal(db, actor, id, seen, upd);
    if refusal.Some? then Refused(refusal.value)
    else if !Insertable(rows, MergedEffects(db, id, seen, upd, ids)) then Refused(DuplicateEffect)
    else Committed(MergedDb(db, id, seen, upd), MergedEffects(db, id, seen, upd, ids))
  }

  /** The key of the one publish row a transition away from `seen` announces. */
  function PublishKey(id: UserId, seen: User): UniqueKey {
    UniqueKey(id, seen.generation + 1, UserWide)
  }

  /** A generation is announced once. */
  lemma AnnouncedTwice(db: Db, rows: map<RowId, Row>, id: UserId, seen: User, upd: Update, ids: seq<SessionId>)
    requires forall i | 0 <= i < |ids| :: ids[i] in db.sessions
    ensures AuthorizationChanged(seen, upd) && HasKey(rows, PublishKey(id, seen)) ==> !Insertable(rows, MergedEffects(db, id, seen, upd, ids))
  {
    var added := MergedEffects(db, id, seen, upd, ids);
    if AuthorizationChanged(seen, upd) {
      assert KeyOf(added[|ids|]) == PublishKey(id, seen);
    }
  }

  /** A transition that passed its guards, from whatever read, commits exactly when no publish
      row of the generation it announces is in the table. */
  lemma TransitionCommitsIffUnannounced(db: Db, rows: map<RowId, Row>, issued: Tokens, unsettled: set<Jti>,
                                        actor: UserId, id: UserId, seen: User, upd: Update, ids: seq<SessionId>, now: real)
    requires id in db.users && JtisUnique(db.sessions) && Lists(ids, ActiveSessions(db, id, now))
    requires forall k | k in rows && rows[k].effect.Blacklist? :: Gone(rows[k].effect.jti, db.sessions, issued, unsettled)
    requires MergedRefusal(db, actor, id, seen, upd).None? && AuthorizationChanged(seen, upd)
    ensures MergedOutcome(db, rows, actor, id, seen, upd, ids).Committed? <==> !HasKey(rows, PublishKey(id, seen))
  {
    var added := MergedEffects(db, id, seen, upd, ids);
    AnnouncedTwice(db, rows, id, seen, upd, ids);
    EffectsKeys(db, id, seen.generation + 1, ids);
    assert KeyOf(added[|ids|]) == PublishKey(id, seen);
    forall i | 0 <= i < |ids|
      ensures !HasKey(rows, KeyOf(added[i]))
    {
      assert ids[i] in db.sessions;
    }
  }

  /** With a fresh read this is the transaction of the main model. */
  lemma FreshReadIsTheModel(db: Db, actor: UserId, id: UserId, upd: Update)
    requires id in db.users
    ensures MergedDb(db, id, db.users[id], upd) == ChangedDb(db, id, upd)
    ensures MergedRefusal(db, actor, id, db.users[id], upd) == ChangeRefusal(db, actor, id, upd)
  {
    var u := db.users[id];
    assert db.users[id := u] == db.users;
    assert MergedUser(u, u, upd) == if AuthorizationChanged(u, upd) then Applied(u, upd).(generation := u.generation + 1) else Applied(u, upd);
  }

  /** A committed transition makes every earlier stamp stale exactly when its read was fresh. */
  lemma EveryEarlierStampStaleIffFresh(db: Db, rows: map<RowId, Row>, actor: UserId, id: UserId, seen: User, upd: Update, ids: seq<SessionId>)
    requires id in db.users && (forall i | 0 <= i < |ids| :: ids[i] in db.sessions) && AuthorizationChanged(seen, upd)
    requires MergedOutcome(db, rows, actor, id, seen, upd, ids).Committed? && seen.generation <= db.users[id].generation
    ensures var after := MergedOutcome(db, rows, actor, id, seen, upd, ids).db.users[id];
            (forall stamp: nat :: stamp <= db.users[id].generation ==> IsStale(Some(stamp), after.generation))
            <==> seen.generation == db.users[id].generation
  {
    if seen.generation < db.users[id].generation {
      assert !IsStale(Some(seen.generation + 1), MergedUser(db.users[id], seen, upd).generation);
    }
  }

  /** A login that read the row just before such a transition and commits just after it:
      it is vouched for exactly when the read was one generation behind. */
  lemma SlowLoginAfterStaleChange(db: Db, rows: map<RowId, Row>, actor: UserId, id: UserId, seen: User, upd: Update, ids: seq<SessionId>,
                                  row: SessionId, jti: Jti, jwtExp: real, refreshExp: real)
    requires id in db.users && (forall i | 0 <= i < |ids| :: ids[i] in db.sessions) && AuthorizationChanged(seen, upd)
    requires MergedOutcome(db, rows, actor, id, seen, upd, ids).Committed? && id !in db.tombstones
    requires var d := MergedOutcome(db, rows, actor, id, seen, upd, ids).db;
             row !in d.sessions && d.users[id].isActive && Consistent(d.users[id].role, d.users[id].isSuperuser)
    ensures var d := MergedOutcome(db, rows, actor, id, seen, upd, ids).db;
            var e := WithSession(d, row, id, db.users[id].generation, jti, jwtExp, refreshExp);
            DecideFor(e, Some(e.sessions[row]), id).Active? <==> seen.generation + 1 == db.users[id].generation
  {
  }

  /** A change that passes its guards empties the superuser set in one family of cases: the
      only member is its target, the object read says it is no member, the update takes the
      role or the activation away, and the unique constraint lets its effects in. */
  lemma StaleChangeEmptiesSetIff(db: Db, rows: map<RowId, Row>, actor: UserId, id: UserId, seen: User, upd: Update, ids: seq<SessionId>)
    requires id in db.users && Consistent(seen.role, seen.isSuperuser) && Superusers(db.users) != {}
    requires (forall i | 0 <= i < |ids| :: ids[i] in db.sessions) && MergedRefusal(db, actor, id, seen, upd).None?
    ensures var o := MergedOutcome(db, rows, actor, id, seen, upd, ids);
            (o.Committed? && Superusers(o.db.users) == {})
            <==> && Superusers(db.users) == {id} && !IsActiveCanonicalSuperuser(seen)
                 && ((upd.role.Set? && upd.role.value !in {seen.role, SuperAdmin})
                     || (upd.isActive == Set(false) && seen.isActive))
                 && Insertable(rows, MergedEffects(db, id, seen, upd, ids))
  {
    var after := MergedUser(db.users[id], seen, upd);
    assert MergedDb(db, id, seen, upd).users == db.users[id := after];
    assert Superusers(db.users[id := seen]) - {id} == Superusers(db.users) - {id};
    SuperusersAfterWrite(db.users, id, after);
    OneMemberLeft(Superusers(db.users), id);
  }

  lemma OneMemberLeft(members: set<UserId>, id: UserId)
    requires members != {}
    ensures members - {id} == {} <==> members == {id}
  {
    if members - {id} == {} {
      assert members <= {id};
    }
  }

  lemma SuperusersAfterWrite(users: map<UserId, User>, id: UserId, after: User)
    ensures Superusers(users[id := after]) == Superusers(users) - {id} + if IsActiveCanonicalSuperuser(after) then {id} else {}
  {
  }

  /** A committed change separates the role from its flag in one family of cases. Where the
      table's CHECK is installed it is what aborts these. */
  lemma StaleChangeSplitsRoleFromFlagIff(db: Db, rows: map<RowId, Row>, actor: UserId, id: UserId, seen: User, upd: Update, ids: seq<SessionId>)
    requires id in db.users && !Mismatched(db.users[id]) && !Mismatched(seen)
    requires (forall i | 0 <= i < |ids| :: ids[i] in db.sessions) && MergedRefusal(db, actor, id, seen, upd).None?
    ensures var o := MergedOutcome(db, rows, actor, id, seen, upd, ids);
            (o.Committed? && Mismatched(o.db.users[id]))
            <==> && upd.role.Set? && upd.role.value != seen.role
                 && DeriveIsSuperuser(upd.role.value) == seen.isSuperuser && seen.isSuperuser != db.users[id].isSuperuser
                 && Insertable(rows, MergedEffects(db, id, seen, upd, ids))
  {
  }

  // ----- a deletion, which enqueues nothing -----

  function StaleDeleteRefusal(db: Db, id: UserId, seen: User): Option<Refusal> {
    DeleteRefusal(db.(users := db.users[id := seen]), id)
  }

  function StaleDeletedDb(db: Db, id: UserId, seen: User, now: real): Db {
    var d := WithoutUser(WithTombstone(db, id, seen.generation, now), id);
    d.(revision := db.revision + 1)
  }

  lemma FreshDeleteIsTheModel(db: Db, id: UserId, now: real)
    requires id in db.users
    ensures StaleDeletedDb(db, id, db.users[id], now) == DeletedDb(db, id, now)
    ensures StaleDeleteRefusal(db, id, db.users[id]) == DeleteRefusal(db, id)
  {
    assert db.users[id := db.users[id]] == db.users;
  }

  /** A deletion that passes its guard empties the superuser set exactly when its target is
      the only member and was read as no member. */
  lemma StaleDeleteEmptiesIff(db: Db, id: UserId, seen: User, now: real)
    requires id in db.users && Superusers(db.users) != {} && StaleDeleteRefusal(db, id, seen).None?
    ensures Superusers(StaleDeletedDb(db, id, seen, now).users) == {}
            <==> Superusers(db.users) == {id} && !IsActiveCanonicalSuperuser(seen)
  {
    assert Superusers(db.users[id := seen]) - {id} == Superusers(db.users) - {id};
    assert Superusers(StaleDeletedDb(db, id, seen, now).users) == Superusers(db.users) - {id};
    OneMemberLeft(Superusers(db.users), id);
  }

  /** Its tombstone's terminal generation exceeds the account's, which bounds every stamp of
      its sessions, exactly when the read was fresh. */
  lemma TerminalCoversStampsIffFresh(db: Db, id: UserId, seen: User, now: real)
    requires id in db.users && id !in db.tombstones && seen.generation <= db.users[id].generation
    ensures var d := StaleDeletedDb(db, id, seen, now);
            && id in d.tombstones
            && (db.users[id].generation < d.tombstones[id].terminal <==> seen.generation == db.users[id].generation)
  {
  }

  /** Either way its subject is denied from then on, and no other answer changes. */
  lemma StaleDeleteDeniesItsSubjectOnly(db: Db, id: UserId, seen: User, now: real, jti: Jti, expected: UserId)
    requires id in db.users && JtisUnique(db.sessions)
    ensures Decide(StaleDeletedDb(db, id, seen, now), jti, expected)
            == if expected == id then Inactive else Decide(db, jti, expected)
  {
    var d := StaleDeletedDb(db, id, seen, now);
    var before, after := SessionOf(db.sessions, jti), SessionOf(d.sessions, jti);
    if before.Some? && before.value.owner != id {
      var k :| k in db.sessions && db.sessions[k] == before.value && before.value.jti == jti;
      assert k in d.sessions && d.sessions[k] == before.value;
    }
  }
}
