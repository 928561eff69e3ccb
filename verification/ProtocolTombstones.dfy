/** A deleted account's tombstone outlives everything that could still speak for it. */
module ProtocolTombstones {
  import opened Basics
  import opened OutboxRows
  import opened Authorization
  import opened Protocol
  import opened ProtocolInvariant
  import opened ProtocolTheorems
  import F = OutboxFleet

  ghost predicate Kept(s: State, id: UserId)
    requires id in s.deleted
  {
    id in s.db.tombstones && s.db.tombstones[id] == Tombstone(s.deleted[id].terminal, s.deleted[id].at)
  }

  /** Every outbox row that names the subject is completed. */
  ghost predicate Discharged(rows: map<RowId, Row>, id: UserId) {
    forall k | k in rows && rows[k].user == id :: rows[k].status == Completed
  }

  /** The tombstone is gone, and nothing needs it. */
  ghost predicate Swept(p: Params, s: State, id: UserId)
    requires id in s.deleted
  {
    id !in s.db.tombstones && Discharged(s.fleet.rows, id) && s.fleet.now - s.deleted[id].at >= p.retention
  }

  ghost predicate TombstonesOk(p: Params, s: State) {
    forall id | id in s.deleted ::
      Kept(s, id) || Swept(p, s, id)
  }

  ghost predicate PromptStep(p: Params, s: State, a: Action) {
    a.Work? ==> F.Prompt(p.worker, s.fleet, a.step)
  }

  ghost predicate PromptRun(p: Params, s: State, run: seq<Action>)
    requires EnabledRun(p, s, run)
    decreases |run|
  {
    run == [] || (PromptStep(p, s, run[0]) && PromptRun(p, Apply(p, s, run[0]), run[1..]))
  }

  /** A step that is not a worker's leaves the fleet alone or announces one new generation. */
  lemma FleetChange(p: Params, s: State, a: Action) returns (quiet: bool, id: UserId, ids: seq<SessionId>)
    requires Enabled(p, s, a) && !a.Work?
    ensures quiet ==> Apply(p, s, a).fleet == s.fleet
    ensures !quiet ==>
              && id in s.db.users && (forall i | 0 <= i < |ids| :: ids[i] in s.db.sessions)
              && Apply(p, s, a).fleet == Announced(p, s.fleet, s.db, id, ids)
  {
    quiet, id, ids := true, 0, [];
    if a.Repair? {
      quiet, id, ids := false, a.user, a.ids;
    } else if a.AdminCommit? {
      quiet, id, ids := AdminFleetChange(p, s, a.r, a.ids);
    } else {
      FleetStays(p, s, a);
    }
  }

  lemma FleetStays(p: Params, s: State, a: Action)
    requires Enabled(p, s, a) && !a.Work? && !a.Repair? && !a.AdminCommit?
    ensures Apply(p, s, a).fleet == s.fleet
  {
    if OfTxn(a) {
      if a.LoginRead? || a.LoginCommit? || a.LoginDeliver? {
      } else if a.RefreshBegin? || a.RefreshRotate? || a.RefreshReuse? || a.RefreshCommit? {
      } else {
      }
    } else if WritesUser(a) {
    }
  }

  lemma AdminFleetChange(p: Params, s: State, r: TxnId, listed: seq<SessionId>) returns (quiet: bool, id: UserId, ids: seq<SessionId>)
    requires CanCommitAdmin(s, r, listed)
    ensures quiet ==> CommittedAdmin(p, s, r, listed).fleet == s.fleet
    ensures !quiet ==>
              && id in s.db.users && (forall i | 0 <= i < |ids| :: ids[i] in s.db.sessions)
              && CommittedAdmin(p, s, r, listed).fleet == Announced(p, s.fleet, s.db, id, ids)
  {
    var t := s.txns[r];
    quiet, id, ids := !(t.op.Change? && AuthorizationChanged(s.db.users[t.user], t.op.upd)), t.user, listed;
  }

  lemma LeaseStep(p: Params, s: State, a: Action)
    requires p.worker.Valid() && Enabled(p, s, a) && F.LeaseInv(p.worker, s.fleet) && PromptStep(p, s, a)
    ensures F.LeaseInv(p.worker, Apply(p, s, a).fleet) && s.fleet.now <= Apply(p, s, a).fleet.now
  {
    if a.Work? {
      F.LeaseInvStep(p.worker, s.fleet, a.step);
    } else {
      var quiet, id, ids := FleetChange(p, s, a);
      if !quiet {
        AnnouncedLease(p, s.fleet, s.db, id, ids, Apply(p, s, a).fleet);
      }
    }
  }

  lemma AnnouncedLease(p: Params, fleet: F.Fleet, db: Db, id: UserId, ids: seq<SessionId>, after: F.Fleet)
    requires p.worker.Valid() && F.LeaseInv(p.worker, fleet)
    requires id in db.users && forall i | 0 <= i < |ids| :: ids[i] in db.sessions
    requires after == Announced(p, fleet, db, id, ids)
    ensures F.LeaseInv(p.worker, after) && after.now == fleet.now
  {
    var rows := Effects(db, id, db.users[id].generation + 1, ids);
    EnqueuedLease(p, fleet, rows, after);
  }

  lemma EnqueuedLease(p: Params, fleet: F.Fleet, rows: seq<Row>, after: F.Fleet)
    requires p.worker.Valid() && F.LeaseInv(p.worker, fleet)
    requires forall i | 0 <= i < |rows| :: rows[i].status == Pending && rows[i].nextAttemptAt == None
    requires after == Enqueued(p, fleet, rows)
    ensures F.LeaseInv(p.worker, after) && after.now == fleet.now
  {
    F.LeaseInvStep(p.worker, fleet, F.Enqueue(rows));
  }

  /** Once every row naming a deleted subject is completed, that stays so. */
  lemma DischargedStays(p: Params, s: State, a: Action, id: UserId)
    requires Enabled(p, s, a) && F.LeaseInv(p.worker, s.fleet) && PromptStep(p, s, a)
    requires id !in s.db.users && Discharged(s.fleet.rows, id)
    ensures Discharged(Apply(p, s, a).fleet.rows, id)
  {
    if a.Work? {
      var f := Apply(p, s, a).fleet;
      F.RowsKeepIdentity(p.worker, s.fleet, a.step);
      forall k | k in f.rows && f.rows[k].user == id
        ensures f.rows[k].status == Completed
      {
        F.FinishedStays(p.worker, s.fleet, a.step, k);
      }
    } else {
      var quiet, other, ids := FleetChange(p, s, a);
      if !quiet {
        AnnouncedDischarged(p, s.fleet, s.db, other, ids, id);
      }
    }
  }

  lemma AnnouncedDischarged(p: Params, fleet: F.Fleet, db: Db, other: UserId, ids: seq<SessionId>, id: UserId)
    requires other in db.users && forall i | 0 <= i < |ids| :: ids[i] in db.sessions
    requires other != id && Discharged(fleet.rows, id)
    ensures Discharged(Announced(p, fleet, db, other, ids).rows, id)
  {
  }

  /** Only the guarded cleanup takes a deleted account's tombstone away. */
  lemma KeptUnlessCleaned(p: Params, s: State, a: Action, id: UserId)
    requires Inv(s) && Enabled(p, s, a) && id in s.deleted && Kept(s, id) && !a.CleanTombstones?
    ensures var s' := Apply(p, s, a); id in s'.deleted && s'.deleted[id] == s.deleted[id] && Kept(s', id)
  {
    DeletionsStay(p, s, a, id);
    TombstonesStay(p, s, a, id);
  }

  lemma TombstonesStay(p: Params, s: State, a: Action, id: UserId)
    requires Enabled(p, s, a) && !a.CleanTombstones? && id in s.db.tombstones && id !in s.db.users
    ensures var after := Apply(p, s, a).db.tombstones; id in after && after[id] == s.db.tombstones[id]
  {
    if a.AdminCommit? {
      CommitKeepsTombstone(p, s, a.r, a.ids, id);
    }
  }

  lemma CommitKeepsTombstone(p: Params, s: State, r: TxnId, ids: seq<SessionId>, id: UserId)
    requires CanCommitAdmin(s, r, ids) && id in s.db.tombstones && id !in s.db.users
    ensures var after := CommittedAdmin(p, s, r, ids).db.tombstones; id in after && after[id] == s.db.tombstones[id]
  {
    if s.txns[r].op.Change? {
      ChangeKeepsTombstones(s.db, s.txns[r].user, s.txns[r].op.upd);
    }
  }

  /** Nothing writes the tombstone of an account that is not there. */
  lemma TombstonesStayAway(p: Params, s: State, a: Action, id: UserId)
    requires Enabled(p, s, a) && id !in s.db.tombstones && id !in s.db.users
    ensures id !in Apply(p, s, a).db.tombstones
  {
    if a.AdminCommit? {
      CommitWritesNoOther(p, s, a.r, a.ids, id);
    } else if OfTxn(a) {
      TxnKeepsTombstones(p, s, a);
    }
  }

  lemma TxnKeepsTombstones(p: Params, s: State, a: Action)
    requires Enabled(p, s, a) && OfTxn(a) && !a.AdminCommit?
    ensures Apply(p, s, a).db.tombstones == s.db.tombstones
  {
  }

  lemma CommitWritesNoOther(p: Params, s: State, r: TxnId, ids: seq<SessionId>, id: UserId)
    requires CanCommitAdmin(s, r, ids) && id !in s.db.tombstones && id !in s.db.users
    ensures id !in CommittedAdmin(p, s, r, ids).db.tombstones
  {
    if s.txns[r].op.Change? {
      ChangeKeepsTombstones(s.db, s.txns[r].user, s.txns[r].op.upd);
    }
  }

  lemma ChangeKeepsTombstones(db: Db, id: UserId, upd: Update)
    requires id in db.users
    ensures ChangedDb(db, id, upd).tombstones == db.tombstones
  {
  }

  lemma CleaningIsGuarded(p: Params, s: State, id: UserId)
    requires Inv(s) && id in s.deleted && Kept(s, id)
    ensures var s' := Cleaned(p, s);
            Kept(s', id) || Swept(p, s', id)
  {
    if id !in Referenced(s.fleet.rows) {
      forall k | k in s.fleet.rows && s.fleet.rows[k].user == id
        ensures s.fleet.rows[k].status == Completed
      {
        assert s.fleet.rows[k].user !in Referenced(s.fleet.rows);
        assert !Undelivered(s.fleet.rows[k]);
      }
    }
  }

  lemma DeletionsUnchanged(p: Params, s: State, a: Action)
    requires Enabled(p, s, a) && !a.AdminCommit?
    ensures Apply(p, s, a).deleted == s.deleted
  {
    if OfTxn(a) {
      TxnDeletesNothing(p, s, a);
    } else if WritesUser(a) {
    }
  }

  lemma TxnDeletesNothing(p: Params, s: State, a: Action)
    requires Enabled(p, s, a) && OfTxn(a) && !a.AdminCommit?
    ensures Apply(p, s, a).deleted == s.deleted
  {
    if a.LoginRead? || a.LoginCommit? || a.LoginDeliver? {
    } else if a.RefreshBegin? || a.RefreshRotate? || a.RefreshReuse? || a.RefreshCommit? {
    }
  }

  /** A deletion writes the tombstone it records. */
  lemma DeletionRecorded(p: Params, s: State, a: Action, id: UserId)
    requires Inv(s) && Enabled(p, s, a) && id !in s.deleted && id in Apply(p, s, a).deleted
    ensures Kept(Apply(p, s, a), id)
  {
    if a.AdminCommit? {
      CommitRecorded(p, s, a.r, a.ids, id);
    } else {
      DeletionsUnchanged(p, s, a);
    }
  }

  lemma CommitRecorded(p: Params, s: State, r: TxnId, ids: seq<SessionId>, id: UserId)
    requires Inv(s) && CanCommitAdmin(s, r, ids) && id !in s.deleted && id in CommittedAdmin(p, s, r, ids).deleted
    ensures Kept(CommittedAdmin(p, s, r, ids), id)
  {
  }

  lemma DeletionsStay(p: Params, s: State, a: Action, id: UserId)
    requires Inv(s) && Enabled(p, s, a) && id in s.deleted
    ensures id in Apply(p, s, a).deleted && Apply(p, s, a).deleted[id] == s.deleted[id]
  {
    if a.AdminCommit? {
      CommitKeepsDeletions(p, s, a.r, a.ids, id);
    } else {
      DeletionsUnchanged(p, s, a);
    }
  }

  lemma CommitKeepsDeletions(p: Params, s: State, r: TxnId, ids: seq<SessionId>, id: UserId)
    requires Inv(s) && CanCommitAdmin(s, r, ids) && id in s.deleted
    ensures id in CommittedAdmin(p, s, r, ids).deleted && CommittedAdmin(p, s, r, ids).deleted[id] == s.deleted[id]
  {
  }

  lemma TombstoneStep(p: Params, s: State, a: Action)
    requires p.worker.Valid() && Inv(s) && TombstonesOk(p, s) && F.LeaseInv(p.worker, s.fleet)
    requires Enabled(p, s, a) && PromptStep(p, s, a)
    ensures TombstonesOk(p, Apply(p, s, a))
  {
    var s' := Apply(p, s, a);
    LeaseStep(p, s, a);
    forall id | id in s'.deleted
      ensures Kept(s', id) || Swept(p, s', id)
    {
      if id !in s.deleted {
        DeletionRecorded(p, s, a, id);
      } else if !Kept(s, id) {
        DeletionsStay(p, s, a, id);
        DischargedStays(p, s, a, id);
        TombstonesStayAway(p, s, a, id);
      } else if a.CleanTombstones? {
        CleaningIsGuarded(p, s, id);
      } else {
        KeptUnlessCleaned(p, s, a, id);
      }
    }
  }

  lemma {:induction false} TombstoneRun(p: Params, s: State, run: seq<Action>)
    requires p.worker.Valid() && Inv(s) && TombstonesOk(p, s) && F.LeaseInv(p.worker, s.fleet)
    requires EnabledRun(p, s, run) && PromptRun(p, s, run)
    ensures TombstonesOk(p, Run(p, s, run))
    decreases |run|
  {
    if run != [] {
      StepInv(p, s, run[0]);
      TombstoneStep(p, s, run[0]);
      LeaseStep(p, s, run[0]);
      TombstoneRun(p, Apply(p, s, run[0]), run[1..]);
    }
  }

  /** Over every run in which a delivery outlasts its lease only if its worker is alone, an
      account removed by the delete transaction keeps its tombstone while any pending, leased
      or dead effect names it, and while the retention horizon has not passed. */
  lemma TombstoneOutlivesEffects(p: Params, s: State, run: seq<Action>, id: UserId)
    requires p.worker.Valid() && Start(s) && EnabledRun(p, s, run) && PromptRun(p, s, run)
    requires id in Run(p, s, run).deleted
    requires var e := Run(p, s, run);
             || e.fleet.now - e.deleted[id].at < p.retention
             || exists k | k in e.fleet.rows :: e.fleet.rows[k].user == id && Undelivered(e.fleet.rows[k])
    ensures var e := Run(p, s, run);
            id in e.db.tombstones && e.db.tombstones[id] == Tombstone(e.deleted[id].terminal, e.deleted[id].at)
  {
    StartInv(s);
    TombstoneRun(p, s, run);
  }

  /** A cleanup at any moment of such a run leaves that tombstone, unchanged, exactly if an
      outbox row naming the account is not completed or the horizon has not passed. */
  lemma CleaningIsExact(p: Params, s: State, run: seq<Action>, id: UserId)
    requires p.worker.Valid() && Start(s) && EnabledRun(p, s, run) && PromptRun(p, s, run)
    requires id in Run(p, s, run).deleted
    ensures var e := Run(p, s, run); var after := Apply(p, e, CleanTombstones).db.tombstones;
            && (id in after <==>
                  || e.fleet.now - e.deleted[id].at < p.retention
                  || exists k | k in e.fleet.rows :: e.fleet.rows[k].user == id && e.fleet.rows[k].status in {Pending, Leased, Dead})
            && (id in after ==> after[id] == Tombstone(e.deleted[id].terminal, e.deleted[id].at))
  {
    StartInv(s);
    TombstoneRun(p, s, run);
    CleanedExactly(p, Run(p, s, run), id);
  }

  lemma CleanedExactly(p: Params, e: State, id: UserId)
    requires id in e.deleted && (Kept(e, id) || Swept(p, e, id))
    ensures var after := Apply(p, e, CleanTombstones).db.tombstones;
            && (id in after <==>
                  || e.fleet.now - e.deleted[id].at < p.retention
                  || exists k | k in e.fleet.rows :: e.fleet.rows[k].user == id && e.fleet.rows[k].status in {Pending, Leased, Dead})
            && (id in after ==> after[id] == Tombstone(e.deleted[id].terminal, e.deleted[id].at))
  {
    assert id in Referenced(e.fleet.rows) <==> exists k | k in e.fleet.rows :: e.fleet.rows[k].user == id && Undelivered(e.fleet.rows[k]);
  }

  /** One worker at a time: it claims only when no batch is held. */
  predicate OneAtATime(p: Params, s: State, run: seq<Action>)
    requires EnabledRun(p, s, run)
    decreases |run|
  {
    run == [] || ((run[0].Work? && run[0].step.Claim? ==> s.fleet.held == map[]) && OneAtATime(p, Apply(p, s, run[0]), run[1..]))
  }

  lemma LoneStep(p: Params, s: State, a: Action)
    requires Enabled(p, s, a) && F.Alone(s.fleet.held) && (a.Work? && a.step.Claim? ==> s.fleet.held == map[])
    ensures PromptStep(p, s, a) && F.Alone(Apply(p, s, a).fleet.held)
  {
    if !a.Work? {
      var quiet, id, ids := FleetChange(p, s, a);
    }
  }

  /** With the shipped single drain loop every run is of that kind, however long a drain
      takes: tombstones are kept over all of them. */
  lemma {:induction false} LoneWorkerRunIsPrompt(p: Params, s: State, run: seq<Action>)
    requires F.Alone(s.fleet.held) && EnabledRun(p, s, run) && OneAtATime(p, s, run)
    ensures PromptRun(p, s, run)
    decreases |run|
  {
    if run != [] {
      LoneStep(p, s, run[0]);
      LoneWorkerRunIsPrompt(p, Apply(p, s, run[0]), run[1..]);
    }
  }

  /** Its terminal generation exceeds every generation its sessions were ever stamped
      with, and no token of it is ever vouched for again, tombstone or not. */
  lemma DeletedSubjectIsDenied(p: Params, s: State, run: seq<Action>, id: UserId, jti: Jti)
    requires Start(s) && EnabledRun(p, s, run) && id in Run(p, s, run).deleted
    ensures var e := Run(p, s, run);
            && !Vouches(e, jti, id)
            && (jti in e.issued && e.issued[jti].sub == id && e.issued[jti].generation.Some? ==>
                  e.issued[jti].generation.value < e.deleted[id].terminal)
  {
    StartInv(s);
    RunInv(p, s, run);
    VouchesIffLive(Run(p, s, run), jti, id);
  }
}
