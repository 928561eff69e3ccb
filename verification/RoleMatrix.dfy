/** The role-administration matrix, in terms of ranks and columns: who may raise whom, which
    update each guard refuses, and what a committed change leaves in the row. */
module RoleMatrix {
  import opened Basics
  import opened OutboxRows
  import opened Authorization

  /** Strictly higher: SUPERADMIN above every rank, ranks by number. */
  predicate Outranks(a: Role, b: Role) {
    match (a, b)
    case (SuperAdmin, Ranked(_)) => true
    case (Ranked(m), Ranked(n)) => m > n
    case (_, SuperAdmin) => false
  }

  predicate Raises(u: User, upd: Update) {
    upd.role.Set? && Outranks(upd.role.value, u.role)
  }

  /** An active account with both pieces of superuser evidence. */
  predicate Counts(u: User) {
    u.role == SuperAdmin && u.isSuperuser && u.isActive
  }

  predicate OnlyOne(db: Db, id: UserId) {
    id in db.users && Counts(db.users[id]) && forall k | k in db.users && k != id :: !Counts(db.users[k])
  }

  /** The update takes the role or the activation away from a member of the set. */
  predicate TakesAway(upd: Update) {
    (upd.role.Set? && upd.role.value != SuperAdmin) || upd.isActive == Set(false)
  }

  predicate Alters(u: User, upd: Update) {
    (upd.role.Set? && upd.role.value != u.role) || (upd.isActive.Set? && upd.isActive.value != u.isActive)
  }

  // ----- the guards, exactly -----

  lemma OthersCounted(db: Db, id: UserId)
    ensures Superusers(db.users) - {id} == {} <==> forall k | k in db.users && k != id :: !Counts(db.users[k])
  {
    if Superusers(db.users) - {id} == {} {
      forall k | k in db.users && k != id
        ensures !Counts(db.users[k])
      {
        assert k !in Superusers(db.users) - {id};
      }
    }
  }

  /** A change is refused as a self-promotion exactly when the actor is its own target and asks
      for a strictly higher role; else for the last superuser exactly when it takes role or
      activation from the only one; else at the last generation if it would need another; else
      for a null role. Otherwise it commits. */
  lemma ChangeRefusedIff(db: Db, actor: UserId, id: UserId, upd: Update, ids: seq<SessionId>)
    requires id in db.users && forall i | 0 <= i < |ids| :: ids[i] in db.sessions
    ensures var o, u := ChangeOutcome(db, actor, id, upd, ids), db.users[id];
            var self, last := actor == id && Raises(u, upd), OnlyOne(db, id) && TakesAway(upd);
            var full := (upd.role.Null? || Alters(u, upd)) && u.generation >= 0x7fff_ffff_ffff_ffff;
            && (o == Refused(SelfPromotion) <==> self)
            && (o == Refused(LastSuperuser) <==> !self && last)
            && (o == Refused(GenerationOverflow) <==> !self && !last && full)
            && (o == Refused(NullRole) <==> !self && !last && !full && upd.role.Null?)
            && (o.Committed? <==> !self && !last && !full && !upd.role.Null?)
  {
    OthersCounted(db, id);
  }

  /** A deletion is refused exactly for the only superuser, and at the last generation. */
  lemma DeletionRefusedIff(db: Db, id: UserId, now: real)
    requires id in db.users
    ensures var o, full := DeletionOutcome(db, id, now), db.users[id].generation >= 0x7fff_ffff_ffff_ffff;
            && (o == Refused(LastSuperuser) <==> OnlyOne(db, id))
            && (o == Refused(GenerationOverflow) <==> !OnlyOne(db, id) && full)
            && (o.Committed? <==> !OnlyOne(db, id) && !full)
  {
    OthersCounted(db, id);
  }

  /** A committed change leaves the columns asked for, the flag the role implies, and the rest. */
  lemma CommittedChangeColumns(db: Db, actor: UserId, id: UserId, upd: Update, ids: seq<SessionId>)
    requires id in db.users && forall i | 0 <= i < |ids| :: ids[i] in db.sessions
    requires ChangeOutcome(db, actor, id, upd, ids).Committed?
    ensures var u, v := db.users[id], ChangeOutcome(db, actor, id, upd, ids).db.users[id];
            && v.role == (if upd.role.Set? then upd.role.value else u.role)
            && v.isSuperuser == (if upd.role.Set? then v.role == SuperAdmin else u.isSuperuser)
            && v.isActive == (if upd.isActive.Set? then upd.isActive.value else u.isActive)
            && v.profile == (if upd.profile.Some? then upd.profile.value else u.profile)
            && v.generation == u.generation + (if v.role != u.role || v.isActive != u.isActive then 1 else 0)
  {
  }

  /** An altering change also takes the account's sessions, counts up the revision and announces
      itself; a deactivation revokes the account's keys. Nothing else moves. */
  lemma CommittedChangeRest(db: Db, actor: UserId, id: UserId, upd: Update, ids: seq<SessionId>)
    requires id in db.users && forall i | 0 <= i < |ids| :: ids[i] in db.sessions
    requires ChangeOutcome(db, actor, id, upd, ids).Committed?
    ensures var o, u, alters := ChangeOutcome(db, actor, id, upd, ids), db.users[id], Alters(db.users[id], upd);
            && o.db.users.Keys == db.users.Keys && (forall k | k in db.users && k != id :: o.db.users[k] == db.users[k])
            && (forall k :: k in o.db.sessions <==> k in db.sessions && !(alters && db.sessions[k].owner == id))
            && (forall k | k in o.db.sessions :: o.db.sessions[k] == db.sessions[k])
            && o.db.keys.Keys == db.keys.Keys
            && (forall k | k in db.keys ::
                  && o.db.keys[k].owner == db.keys[k].owner
                  && (o.db.keys[k].revoked <==> db.keys[k].revoked || (db.keys[k].owner == id && u.isActive && upd.isActive == Set(false))))
            && o.db.tombstones == db.tombstones && o.db.revision == db.revision + (if alters then 1 else 0)
            && (o.enqueued != [] <==> alters)
            && (forall i | 0 <= i < |o.enqueued| :: o.enqueued[i].user == id && o.enqueued[i].generation == o.db.users[id].generation)
  {
  }

  /** So an account never raises itself. */
  lemma NobodyRaisesThemselves(db: Db, id: UserId, upd: Update, ids: seq<SessionId>)
    requires id in db.users && forall i | 0 <= i < |ids| :: ids[i] in db.sessions
    requires ChangeOutcome(db, id, id, upd, ids).Committed?
    ensures !Outranks(ChangeOutcome(db, id, id, upd, ids).db.users[id].role, db.users[id].role)
  {
    ChangeRefusedIff(db, id, id, upd, ids);
    CommittedChangeColumns(db, id, id, upd, ids);
  }

  lemma OutranksTransitive(a: Role, b: Role, c: Role)
    requires !Outranks(a, b) && !Outranks(b, c)
    ensures !Outranks(a, c)
  {
  }
}
