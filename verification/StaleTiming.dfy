/** When publish rows outlive the requests they turn away, in time: a request younger than the
    retention of completed rows, less what a worker's clock reading may lag behind its claim. */
module StaleTiming {
  import opened Basics
  import opened OutboxRows
  import opened Authorization
  import opened Protocol
  import opened ProtocolInvariant
  import opened ProtocolTheorems
  import opened StaleRead
  import opened StaleProtocol
  import T = ProtocolTombstones
  import F = OutboxFleet

  predicate IsWork(step: Step) {
    step.Base? && step.a.Work?
  }

  /** A claim's clock reading is at most `lag` old, and when a reap runs every open request was
      read within the retention, less that lag. */
  predicate Young(p: Params, c: Machine, step: Step, lag: real) {
    && (IsWork(step) && step.a.step.Claim? ==> c.s.fleet.now - lag <= step.a.step.at)
    && (IsWork(step) && step.a.step.Reap? ==>
          forall q | q in c.open :: step.a.step.at - c.open[q].readAt <= p.worker.retentionSeconds - lag)
  }

  predicate YoungRun(p: Params, c: Machine, steps: seq<Step>, lag: real)
    requires StepsEnabled(p, c, steps)
    decreases |steps|
  {
    steps == [] || (Young(p, c, steps[0], lag) && YoungRun(p, StepApply(p, c, steps[0]), steps[1..], lag))
  }

  // ----- completions of a row are later than the reads it turns away -----

  predicate CompletedSince(row: Row, limit: real) {
    row.completedAt.Some? ==> limit <= row.completedAt.value
  }

  predicate Touches(b: F.Batch, k: RowId) {
    k in b.todo || (b.loaded.Some? && b.loaded.value.id == k)
  }

  ghost predicate BatchLate(b: F.Batch, k: RowId, limit: real) {
    Touches(b, k) ==> limit <= b.claimedAt && (b.loaded.Some? && b.loaded.value.id == k ==> CompletedSince(b.loaded.value.row, limit))
  }

  /** Every row of the key was completed, and every batch that may complete it claimed, since. */
  ghost predicate Late(f: F.Fleet, key: UniqueKey, limit: real) {
    forall k | k in f.rows && KeyOf(f.rows[k]) == key ::
      CompletedSince(f.rows[k], limit) && forall w | w in f.held :: BatchLate(f.held[w], k, limit)
  }

  ghost predicate IdsKnown(f: F.Fleet) {
    && (forall k | k in f.rows :: k < f.nextId)
    && forall w, k: RowId | w in f.held && Touches(f.held[w], k) :: k < f.nextId
  }

  lemma WorkLate(c: Config, f: F.Fleet, a: F.Action, key: UniqueKey, limit: real)
    requires F.Enabled(c, f, a) && !a.Enqueue? && Late(f, key, limit) && (a.Claim? ==> limit <= a.at)
    ensures Late(F.Apply(c, f, a), key, limit)
  {
    var g := F.Apply(c, f, a);
    F.RowsKeepIdentity(c, f, a);
    forall k | k in g.rows && KeyOf(g.rows[k]) == key
      ensures CompletedSince(g.rows[k], limit)
      ensures forall w | w in g.held :: BatchLate(g.held[w], k, limit)
    {
      assert KeyOf(f.rows[k]) == key;
      if a.Finish? {
        assert BatchLate(f.held[a.worker], k, limit);
      }
      forall w | w in g.held
        ensures BatchLate(g.held[w], k, limit)
      {
        if w in f.held {
          assert BatchLate(f.held[w], k, limit);
        }
      }
    }
  }

  lemma WorkIdsKnown(c: Config, f: F.Fleet, a: F.Action)
    requires F.Enabled(c, f, a) && !a.Enqueue? && IdsKnown(f)
    ensures IdsKnown(F.Apply(c, f, a)) && F.Apply(c, f, a).now >= f.now
  {
    var g := F.Apply(c, f, a);
    forall w, k: RowId | w in g.held && Touches(g.held[w], k)
      ensures k < g.nextId
    {
      if w in f.held && Touches(f.held[w], k) {
        assert k < f.nextId;
      }
    }
  }

  /** The fleet with some rows appended to the outbox. */
  function Grown(f: F.Fleet, added: seq<Row>): F.Fleet {
    if added == [] then f else f.(rows := F.Append(f.rows, f.nextId, added), nextId := f.nextId + |added|)
  }

  /** New rows are not completed, and no batch holds them yet. */
  lemma AddedLate(f: F.Fleet, g: F.Fleet, added: seq<Row>, key: UniqueKey, limit: real)
    requires IdsKnown(f) && Late(f, key, limit) && forall i | 0 <= i < |added| :: added[i].completedAt.None?
    requires g == Grown(f, added)
    ensures Late(g, key, limit) && IdsKnown(g)
  {
    forall k | k in g.rows && KeyOf(g.rows[k]) == key
      ensures CompletedSince(g.rows[k], limit)
      ensures forall w | w in g.held :: BatchLate(g.held[w], k, limit)
    {
      if k >= f.nextId {
        assert g.rows[k] == added[k - f.nextId];
      }
    }
  }

  lemma EffectsAreNew(rows: seq<Row>, db: Db, id: UserId, generation: nat, ids: seq<SessionId>)
    requires (forall i | 0 <= i < |ids| :: ids[i] in db.sessions) && rows == Effects(db, id, generation, ids)
    ensures rows != [] && forall i | 0 <= i < |rows| :: rows[i].status == Pending && rows[i].nextAttemptAt == None && rows[i].completedAt.None?
  {
  }

  /** What a step that is not a worker's adds to the outbox. */
  lemma FleetAfter(p: Params, c: Machine, step: Step) returns (added: seq<Row>)
    requires StepEnabled(p, c, step) && !IsWork(step)
    ensures forall i | 0 <= i < |added| :: added[i].completedAt.None?
    ensures StepApply(p, c, step).s.fleet == Grown(c.s.fleet, added)
  {
    added := [];
    if step.Base? {
      var quiet, id, ids := T.FleetChange(p, c.s, step.a);
      if !quiet {
        added := Effects(c.s.db, id, c.s.db.users[id].generation + 1, ids);
        EffectsAreNew(added, c.s.db, id, c.s.db.users[id].generation + 1, ids);
      }
    } else if step.Commit? {
      added := CommitAdds(p, c, step.q, step.ids);
    }
  }

  lemma MergeAdds(p: Params, s: State, id: UserId, seen: User, upd: Update, ids: seq<SessionId>) returns (added: seq<Row>)
    requires id in s.db.users && forall i | 0 <= i < |ids| :: ids[i] in s.db.sessions
    ensures forall i | 0 <= i < |added| :: added[i].completedAt.None?
    ensures MergedBy(p, s, id, seen, upd, ids).fleet == Grown(s.fleet, added)
  {
    added := [];
    if AuthorizationChanged(seen, upd) {
      added := Effects(s.db, id, seen.generation + 1, ids);
      EffectsAreNew(added, s.db, id, seen.generation + 1, ids);
      EnqueuedIsGrown(p, s.fleet, added);
    }
  }

  lemma EnqueuedIsGrown(p: Params, f: F.Fleet, added: seq<Row>)
    requires added != [] && forall i | 0 <= i < |added| :: added[i].status == Pending && added[i].nextAttemptAt == None
    ensures Enqueued(p, f, added) == Grown(f, added)
  {
  }

  lemma CommitAdds(p: Params, c: Machine, q: TxnId, ids: seq<SessionId>) returns (added: seq<Row>)
    requires CanCommitRequest(c, q, ids)
    ensures forall i | 0 <= i < |added| :: added[i].completedAt.None?
    ensures Written(p, c, q, ids).fleet == Grown(c.s.fleet, added)
  {
    var t := c.open[q];
    added := [];
    if t.op.Change? {
      added := MergeAdds(p, Ended(c.s, q), t.user, t.seen, t.op.upd, ids);
    }
  }

  // ----- over runs -----

  ghost predicate Dated(c: Machine, lag: real) {
    IdsKnown(c.s.fleet) && forall q | q in c.open :: RequestDated(c, q, lag)
  }

  /** What a request read, and when, never changes. */
  lemma RequestsStay(p: Params, c: Machine, step: Step, q: TxnId)
    requires StepEnabled(p, c, step) && q in StepApply(p, c, step).open && !(step.Read? && step.q == q)
    ensures var t := StepApply(p, c, step).open[q];
            q in c.open && t.user == c.open[q].user && t.seen == c.open[q].seen && t.readAt == c.open[q].readAt
  {
  }

  lemma FleetDated(p: Params, c: Machine, step: Step, key: UniqueKey, limit: real)
    requires StepEnabled(p, c, step) && IdsKnown(c.s.fleet) && Late(c.s.fleet, key, limit)
    requires IsWork(step) && step.a.step.Claim? ==> limit <= step.a.step.at
    ensures var f := StepApply(p, c, step).s.fleet; Late(f, key, limit)
  {
    if IsWork(step) {
      WorkLate(p.worker, c.s.fleet, step.a.step, key, limit);
    } else {
      var added := FleetAfter(p, c, step);
      if added != [] {
        AddedLate(c.s.fleet, StepApply(p, c, step).s.fleet, added, key, limit);
      }
    }
  }

  lemma IdsStayKnown(p: Params, c: Machine, step: Step)
    requires StepEnabled(p, c, step) && IdsKnown(c.s.fleet)
    ensures IdsKnown(StepApply(p, c, step).s.fleet) && StepApply(p, c, step).s.fleet.now >= c.s.fleet.now
  {
    if IsWork(step) {
      WorkIdsKnown(p.worker, c.s.fleet, step.a.step);
    } else {
      var added := FleetAfter(p, c, step);
    }
  }

  ghost predicate RequestDated(c: Machine, q: TxnId, lag: real)
    requires q in c.open
  {
    c.open[q].readAt <= c.s.fleet.now && Late(c.s.fleet, PublishKey(c.open[q].user, c.open[q].seen), c.open[q].readAt - lag)
  }

  lemma RequestStaysDated(p: Params, c: Machine, step: Step, q: TxnId, lag: real)
    requires StepEnabled(p, c, step) && IdsKnown(c.s.fleet) && Young(p, c, step, lag)
    requires q in StepApply(p, c, step).open && !(step.Read? && step.q == q)
    requires q in c.open ==> RequestDated(c, q, lag)
    ensures RequestDated(StepApply(p, c, step), q, lag)
  {
    RequestsStay(p, c, step, q);
    IdsStayKnown(p, c, step);
    FleetDated(p, c, step, PublishKey(c.open[q].user, c.open[q].seen), c.open[q].readAt - lag);
  }

  lemma NewRequestDated(p: Params, c: Machine, step: Step, lag: real)
    requires MachineInv(Blanked(c)) && StepEnabled(p, c, step) && step.Read? && lag >= 0.0
    ensures RequestDated(StepApply(p, c, step), step.q, lag)
  {
    NothingToCollideWith(c, step.user, c.s.fleet.now - lag);
  }

  lemma DatedStep(p: Params, c: Machine, step: Step, lag: real)
    requires MachineInv(Blanked(c)) && Dated(c, lag) && StepEnabled(p, c, step) && Young(p, c, step, lag) && lag >= 0.0
    ensures Dated(StepApply(p, c, step), lag)
  {
    var c' := StepApply(p, c, step);
    IdsStayKnown(p, c, step);
    forall q | q in c'.open
      ensures RequestDated(c', q, lag)
    {
      if step.Read? && step.q == q {
        NewRequestDated(p, c, step, lag);
      } else {
        RequestStaysDated(p, c, step, q, lag);
      }
    }
  }

  /** The generation after the one just read has not been announced. */
  lemma NothingToCollideWith(c: Machine, id: UserId, limit: real)
    requires MachineInv(Blanked(c)) && id in c.s.db.users
    ensures Late(c.s.fleet, PublishKey(id, c.s.db.users[id]), limit)
  {
  }

  lemma YoungRetains(p: Params, c: Machine, step: Step, lag: real)
    requires MachineInv(Blanked(c)) && Dated(c, lag) && StepEnabled(p, c, step) && Young(p, c, step, lag)
    ensures Retains(p, c, step)
  {
    var b := Blanked(c);
    BlankStep(p, c, step);
    forall q, k | q in b.open && k in b.s.fleet.rows && KeyOf(b.s.fleet.rows[k]) == PublishKey(b.open[q].user, b.open[q].seen)
      ensures !Reaps(p, step, b.s.fleet.rows[k])
    {
      assert CompletedSince(c.s.fleet.rows[k], c.open[q].readAt - lag);
    }
    OnlyReapingForgets(p, b, step);
    assert StepApply(p, b, step).s.fleet == StepApply(p, c, step).s.fleet;
  }

  lemma {:induction false} YoungRunRetains(p: Params, c: Machine, steps: seq<Step>, lag: real)
    requires MachineInv(Blanked(c)) && Dated(c, lag) && StepsEnabled(p, c, steps) && YoungRun(p, c, steps, lag) && lag >= 0.0
    ensures Retained(p, c, steps)
    decreases |steps|
  {
    if steps != [] {
      YoungRetains(p, c, steps[0], lag);
      BlankedStep(p, c, steps[0]);
      DatedStep(p, c, steps[0], lag);
      YoungRunRetains(p, StepApply(p, c, steps[0]), steps[1..], lag);
    }
  }

  /** Over every run in which workers claim within `lag` of reading the clock, and no reap finds a
      request open that was read longer ago than the retention less that lag, no publish row is
      reaped from under a request. */
  lemma YoungRequestsAreRetained(p: Params, c: Machine, steps: seq<Step>, lag: real)
    requires MachineStart(c) && StepsEnabled(p, c, steps) && YoungRun(p, c, steps, lag) && lag >= 0.0
    ensures Retained(p, c, steps)
  {
    StartInv(c.s);
    BlankInv(c);
    YoungRunRetains(p, c, steps, lag);
  }
}
