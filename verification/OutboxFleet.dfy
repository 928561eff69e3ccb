/** Any number of outbox workers over one table, each able to stall or crash anywhere.

    A worker claims a batch in one committed transaction. For each claimed row it then
    reads the row, applies the effect, and writes back the columns it changed; between
    the read and the write other workers may have written the same row, and nothing
    rechecks the lease. */
module OutboxFleet {
  import opened Basics
  import opened OutboxRows

  datatype Loaded = Loaded(id: RowId, row: Row)

  /** `claimedAt` is the instant the drain runs with: it dates the lease, the retries and
      the completions of the whole batch. `rival` is history: another worker has held a batch
      at some time since this one was claimed. */
  datatype Batch = Batch(claimedAt: real, todo: set<RowId>, loaded: Option<Loaded>, rival: bool)

  /** Identifiers are handed out in creation order, so the rows ever enqueued are those
      below `nextId`. `applied` records the rows whose effect was applied, or whose
      token had expired when a worker looked. */
  datatype Fleet = Fleet(
    now: real, rows: map<RowId, Row>, nextId: RowId,
    held: map<WorkerId, Batch>, applied: set<RowId>)

  datatype Action =
    | Enqueue(added: seq<Row>)
    | Claim(worker: WorkerId, at: real, ids: set<RowId>)
    | Load(worker: WorkerId, id: RowId)
    | Finish(worker: WorkerId, redisOk: bool)
    | Leave(worker: WorkerId)
    | Reap(at: real)
    | Tick(to: real)

  /** The write of one processed row: only the columns that differ from the loaded row
      are in the UPDATE statement. */
  function Merge(current: Row, loaded: Row, after: Row): Row {
    Row(
      current.user, current.generation, current.effect,
      if after.status != loaded.status then after.status else current.status,
      if after.attempts != loaded.attempts then after.attempts else current.attempts,
      if after.leaseUntil != loaded.leaseUntil then after.leaseUntil else current.leaseUntil,
      if after.nextAttemptAt != loaded.nextAttemptAt then after.nextAttemptAt else current.nextAttemptAt,
      if after.completedAt != loaded.completedAt then after.completedAt else current.completedAt)
  }

  function Append(rows: map<RowId, Row>, nextId: RowId, added: seq<Row>): map<RowId, Row> {
    rows + map i | nextId <= i < nextId + |added| :: Nth(added, nextId, i)
  }

  function Nth(added: seq<Row>, base: RowId, id: RowId): Row
    requires base <= id < base + |added|
  {
    added[id - base]
  }

  /** A claim makes its worker a rival of every worker that holds a batch. */
  function Rivalled(held: map<WorkerId, Batch>): map<WorkerId, Batch> {
    map w | w in held :: held[w].(rival := true)
  }

  predicate Enabled(c: Config, s: Fleet, a: Action) {
    match a
    case Enqueue(added) => forall i | 0 <= i < |added| :: added[i].status == Pending && added[i].nextAttemptAt == None
    case Claim(w, at, ids) =>
      && w !in s.held && at <= s.now && |ids| <= c.batchSize
      && forall id | id in ids :: id in s.rows && Eligible(s.rows[id], at)
    case Load(w, id) =>
      w in s.held && s.held[w].loaded.None? && id in s.held[w].todo && id in s.rows
    case Finish(w, _) =>
      w in s.held && s.held[w].loaded.Some? && s.held[w].loaded.value.id in s.rows
    case Leave(w) => w in s.held
    case Reap(at) => at <= s.now
    case Tick(to) => s.now <= to
  }

  function Apply(c: Config, s: Fleet, a: Action): Fleet
    requires Enabled(c, s, a)
  {
    match a
    case Enqueue(added) =>
      s.(rows := Append(s.rows, s.nextId, added), nextId := s.nextId + |added|)
    case Claim(w, at, ids) =>
      s.(rows := map id | id in s.rows :: if id in ids then Claimed(c, s.rows[id], at) else s.rows[id],
         held := Rivalled(s.held)[w := Batch(at, ids, None, s.held != map[])])
    case Load(w, id) =>
      s.(held := s.held[w := s.held[w].(loaded := Some(Loaded(id, s.rows[id])))])
    case Finish(w, redisOk) =>
      var batch := s.held[w];
      var Loaded(id, row) := batch.loaded.value;
      s.(rows := s.rows[id := Merge(s.rows[id], row, Processed(c, row, redisOk, batch.claimedAt))],
         applied := if EffectSucceeds(row, redisOk, batch.claimedAt) then s.applied + {id} else s.applied,
         held := s.held[w := batch.(todo := batch.todo - {id}, loaded := None)])
    case Leave(w) => s.(held := s.held - {w})
    case Reap(at) => s.(rows := map id | id in s.rows && !Reapable(c, s.rows[id], at) :: s.rows[id])
    case Tick(to) => s.(now := to)
  }

  /** No step but an enqueue adds a row or changes a row's identity or effect. */
  lemma RowsKeepIdentity(c: Config, s: Fleet, a: Action)
    requires Enabled(c, s, a) && !a.Enqueue?
    ensures var s' := Apply(c, s, a);
            && s'.nextId == s.nextId
            && forall id | id in s'.rows :: id in s.rows && SameIdentity(s'.rows[id], s.rows[id])
  {
  }

  predicate SameIdentity(a: Row, b: Row) {
    a.user == b.user && a.generation == b.generation && a.effect == b.effect
  }

  // ----- runs -----

  predicate EnabledRun(c: Config, s: Fleet, run: seq<Action>)
    decreases |run|
  {
    run == [] || (Enabled(c, s, run[0]) && EnabledRun(c, Apply(c, s, run[0]), run[1..]))
  }

  function Run(c: Config, s: Fleet, run: seq<Action>): Fleet
    requires EnabledRun(c, s, run)
    decreases |run|
  {
    if run == [] then s else Run(c, Apply(c, s, run[0]), run[1..])
  }

  ghost predicate Start(s: Fleet) {
    s.rows == map[] && s.nextId == 0 && s.held == map[] && s.applied == {}
  }

  // ----- nothing is lost, whatever the workers do -----

  ghost predicate NothingLost(s: Fleet) {
    && (forall id | id in s.rows :: id < s.nextId)
    && (forall id | 0 <= id < s.nextId :: (id in s.rows && Undelivered(s.rows[id])) || id in s.applied)
  }

  lemma NothingLostStep(c: Config, s: Fleet, a: Action)
    requires NothingLost(s) && Enabled(c, s, a)
    ensures NothingLost(Apply(c, s, a))
  {
    var s' := Apply(c, s, a);
    forall id | 0 <= id < s'.nextId
      ensures (id in s'.rows && Undelivered(s'.rows[id])) || id in s'.applied
    {
      if a.Enqueue? && id >= s.nextId {
        assert s'.rows[id] == a.added[id - s.nextId];
      }
    }
  }

  /** Every row ever enqueued is still pending, leased or dead, or its effect was applied
      (or its token had expired): over every run, with any number of workers, crashing or
      stalling at any point and overwriting each other. */
  lemma {:induction false} OutboxLosesNothing(c: Config, s: Fleet, run: seq<Action>)
    requires NothingLost(s) && EnabledRun(c, s, run)
    ensures NothingLost(Run(c, s, run))
    decreases |run|
  {
    if run != [] {
      NothingLostStep(c, s, run[0]);
      OutboxLosesNothing(c, Apply(c, s, run[0]), run[1..]);
    }
  }

  /** The reaper takes this row. */
  predicate Reaps(c: Config, a: Action, row: Row) {
    a.Reap? && row.status == Completed && row.completedAt.Some? && row.completedAt.value + c.retentionSeconds < a.at
  }

  /** A row leaves the table exactly when a reap finds it completed and past retention. */
  lemma OnlyReapedRowsDisappear(c: Config, s: Fleet, a: Action, id: RowId)
    requires Enabled(c, s, a) && id in s.rows
    ensures id !in Apply(c, s, a).rows <==> Reaps(c, a, s.rows[id])
  {
  }

  // ----- leases, when a delivery outlasts its lease only if its worker is alone -----

  function LeaseEnd(c: Config, b: Batch): real {
    b.claimedAt + c.leaseSeconds
  }

  /** A batch nobody else can have taken over: its lease runs, or its worker is alone. */
  predicate Safe(c: Config, now: real, b: Batch) {
    now <= LeaseEnd(c, b) || !b.rival
  }

  /** A finish is prompt when its lease has not run out, or no other worker has held a batch
      since its own was claimed. */
  ghost predicate Prompt(c: Config, s: Fleet, a: Action) {
    a.Finish? && a.worker in s.held ==> Safe(c, s.now, s.held[a.worker])
  }

  ghost predicate PromptRun(c: Config, s: Fleet, run: seq<Action>)
    requires EnabledRun(c, s, run)
    decreases |run|
  {
    run == [] || (Prompt(c, s, run[0]) && PromptRun(c, Apply(c, s, run[0]), run[1..]))
  }

  ghost predicate Holds(c: Config, s: Fleet, w: WorkerId, id: RowId) {
    w in s.held && id in s.held[w].todo && Safe(c, s.now, s.held[w])
  }

  ghost predicate LeasesAgree(c: Config, s: Fleet) {
    && (forall w, id | Holds(c, s, w, id) ::
          && id in s.rows && s.rows[id].status == Leased
          && s.rows[id].leaseUntil == Some(LeaseEnd(c, s.held[w])))
    && (forall w | w in s.held && s.held[w].loaded.Some? :: s.held[w].loaded.value.id in s.held[w].todo)
    && (forall w | w in s.held && s.held[w].loaded.Some? && Safe(c, s.now, s.held[w]) ::
          var l := s.held[w].loaded.value; l.id in s.rows && s.rows[l.id] == l.row)
  }

  ghost predicate Exclusive(c: Config, s: Fleet) {
    forall w, v, id | Holds(c, s, w, id) && Holds(c, s, v, id) :: w == v
  }

  predicate RivalsKnown(held: map<WorkerId, Batch>) {
    forall w, v | w in held && v in held && w != v :: held[w].rival
  }

  /** A leased row was due when it was claimed, so its retry time cannot outlast the lease. */
  ghost predicate LeasedRowsDue(c: Config, s: Fleet) {
    forall id | id in s.rows && s.rows[id].status == Leased ::
      && s.rows[id].leaseUntil.Some?
      && Due(s.rows[id], s.rows[id].leaseUntil.value - c.leaseSeconds)
  }

  ghost predicate LeaseInv(c: Config, s: Fleet) {
    && (forall id | id in s.rows :: id < s.nextId)
    && LeasesAgree(c, s) && Exclusive(c, s) && LeasedRowsDue(c, s) && RivalsKnown(s.held)
  }

  /** What a worker holds after a step it held before, unless it has just claimed it; and a
      claim takes nothing that is held. */
  lemma HeldBefore(c: Config, s: Fleet, a: Action, w: WorkerId, id: RowId)
    requires Enabled(c, s, a) && Holds(c, Apply(c, s, a), w, id) && !(a.Claim? && w == a.worker)
    ensures Holds(c, s, w, id) && s.held[w].claimedAt == Apply(c, s, a).held[w].claimedAt
    ensures a.Claim? ==> s.now <= LeaseEnd(c, s.held[w])
    ensures a.Finish? && a.worker == w ==> id != s.held[w].loaded.value.id
  {
  }

  lemma ExclusiveStep(c: Config, s: Fleet, a: Action)
    requires c.Valid() && LeaseInv(c, s) && Enabled(c, s, a)
    ensures Exclusive(c, Apply(c, s, a))
  {
    var s' := Apply(c, s, a);
    forall w, v, id | Holds(c, s', w, id) && Holds(c, s', v, id)
      ensures w == v
    {
      if !(a.Claim? && w == a.worker) {
        HeldBefore(c, s, a, w, id);
      }
      if !(a.Claim? && v == a.worker) {
        HeldBefore(c, s, a, v, id);
      }
    }
  }

  lemma HeldRowStep(c: Config, s: Fleet, a: Action, w: WorkerId, id: RowId)
    requires c.Valid() && LeaseInv(c, s) && Enabled(c, s, a) && Prompt(c, s, a) && Holds(c, Apply(c, s, a), w, id)
    ensures var s' := Apply(c, s, a);
            && id in s'.rows && s'.rows[id].status == Leased && s'.rows[id].leaseUntil == Some(LeaseEnd(c, s'.held[w]))
            && (!(a.Claim? && w == a.worker) ==> id in s.rows && s'.rows[id] == s.rows[id])
  {
    if !(a.Claim? && w == a.worker) {
      HeldBefore(c, s, a, w, id);
      if a.Finish? {
        assert Holds(c, s, a.worker, s.held[a.worker].loaded.value.id);
      }
    }
  }

  lemma LeasesAgreeStep(c: Config, s: Fleet, a: Action)
    requires c.Valid() && LeaseInv(c, s) && Enabled(c, s, a) && Prompt(c, s, a)
    ensures LeasesAgree(c, Apply(c, s, a))
  {
    var s' := Apply(c, s, a);
    forall w, id | Holds(c, s', w, id)
      ensures id in s'.rows && s'.rows[id].status == Leased
      ensures s'.rows[id].leaseUntil == Some(LeaseEnd(c, s'.held[w]))
    {
      HeldRowStep(c, s, a, w, id);
    }
    forall w | w in s'.held && s'.held[w].loaded.Some? && Safe(c, s'.now, s'.held[w])
      ensures var l := s'.held[w].loaded.value; l.id in s'.rows && s'.rows[l.id] == l.row
    {
      HeldRowStep(c, s, a, w, s'.held[w].loaded.value.id);
    }
  }

  lemma LeasedDueStep(c: Config, s: Fleet, a: Action)
    requires c.Valid() && LeaseInv(c, s) && Enabled(c, s, a) && Prompt(c, s, a)
    ensures LeasedRowsDue(c, Apply(c, s, a))
  {
  }

  lemma LeaseInvStep(c: Config, s: Fleet, a: Action)
    requires c.Valid() && LeaseInv(c, s) && Enabled(c, s, a) && Prompt(c, s, a)
    ensures LeaseInv(c, Apply(c, s, a))
  {
    ExclusiveStep(c, s, a);
    LeasesAgreeStep(c, s, a);
    LeasedDueStep(c, s, a);
  }

  lemma {:induction false} LeaseInvRun(c: Config, s: Fleet, run: seq<Action>)
    requires c.Valid() && LeaseInv(c, s) && EnabledRun(c, s, run) && PromptRun(c, s, run)
    ensures LeaseInv(c, Run(c, s, run))
    decreases |run|
  {
    if run != [] {
      LeaseInvStep(c, s, run[0]);
      LeaseInvRun(c, Apply(c, s, run[0]), run[1..]);
    }
  }

  /** From an empty table, over every prompt run: a row is in the hands of one worker at a
      time, and a lease abandoned by a crash makes its row claimable at every instant after
      it expires. */
  lemma LeasesRecoverAndExclude(c: Config, s: Fleet, run: seq<Action>)
    requires c.Valid() && Start(s) && EnabledRun(c, s, run) && PromptRun(c, s, run)
    ensures var e := Run(c, s, run);
            && (forall w, v, id | w != v && Holds(c, e, w, id) :: !Holds(c, e, v, id))
            && (forall id, t: real | id in e.rows && e.rows[id].status == Leased
                  && e.rows[id].leaseUntil.Some? && e.rows[id].leaseUntil.value < t :: Eligible(e.rows[id], t))
  {
    LeaseInvRun(c, s, run);
  }

  // ----- completed and dead are final -----

  /** A finished row never changes again; it can only be reaped, and only if completed. */
  lemma FinishedStays(c: Config, s: Fleet, a: Action, id: RowId)
    requires LeaseInv(c, s) && Enabled(c, s, a) && Prompt(c, s, a)
    requires id in s.rows && s.rows[id].status in {Completed, Dead}
    ensures var s' := Apply(c, s, a);
            if id in s'.rows then s'.rows[id] == s.rows[id] else Reaps(c, a, s.rows[id])
    ensures Reaps(c, a, s.rows[id]) ==> id !in Apply(c, s, a).rows
  {
    if a.Claim? {
      FinishedNeverEligible(s.rows[id], a.at);
    } else if a.Finish? && s.held[a.worker].loaded.value.id == id {
      assert Holds(c, s, a.worker, id);
    }
  }

  lemma {:induction false} GoneStaysGone(c: Config, s: Fleet, run: seq<Action>, id: RowId)
    requires EnabledRun(c, s, run) && id !in s.rows && id < s.nextId
    ensures id !in Run(c, s, run).rows
    decreases |run|
  {
    if run != [] {
      GoneStaysGone(c, Apply(c, s, run[0]), run[1..], id);
    }
  }

  lemma {:induction false} FinishedStaysOverRun(c: Config, s: Fleet, run: seq<Action>, id: RowId)
    requires c.Valid() && LeaseInv(c, s) && EnabledRun(c, s, run) && PromptRun(c, s, run)
    requires id in s.rows && s.rows[id].status in {Completed, Dead}
    ensures var e := Run(c, s, run);
            && (id in e.rows ==> e.rows[id] == s.rows[id])
            && (id !in e.rows <==> exists i | 0 <= i < |run| :: Reaps(c, run[i], s.rows[id]))
    decreases |run|
  {
    if run != [] {
      var s' := Apply(c, s, run[0]);
      LeaseInvStep(c, s, run[0]);
      FinishedStays(c, s, run[0], id);
      if i :| 0 <= i < |run| && Reaps(c, run[i], s.rows[id]) {
        assert i > 0 ==> run[1..][i - 1] == run[i];
      }
      if id in s'.rows {
        FinishedStaysOverRun(c, s', run[1..], id);
      } else {
        GoneStaysGone(c, s', run[1..], id);
      }
    }
  }

  /** Over every prompt run, once a row is completed or dead no continuation changes it: a
      dead row stays for ever, a completed one exactly until a reap past its retention. */
  lemma FinishedIsFinal(c: Config, s: Fleet, first: seq<Action>, second: seq<Action>, id: RowId)
    requires c.Valid() && Start(s) && EnabledRun(c, s, first) && PromptRun(c, s, first)
    requires EnabledRun(c, Run(c, s, first), second) && PromptRun(c, Run(c, s, first), second)
    requires id in Run(c, s, first).rows && Run(c, s, first).rows[id].status in {Completed, Dead}
    ensures var m, e := Run(c, s, first), Run(c, Run(c, s, first), second);
            && (id in e.rows ==> e.rows[id] == m.rows[id])
            && (id !in e.rows <==> exists i | 0 <= i < |second| :: Reaps(c, second[i], m.rows[id]))
  {
    LeaseInvRun(c, s, first);
    FinishedStaysOverRun(c, Run(c, s, first), second, id);
  }

  // ----- one worker -----

  /** One worker at a time drains: it claims only when no batch is held. Its deliveries may
      take as long as they like. */
  predicate OneAtATime(c: Config, s: Fleet, run: seq<Action>)
    requires EnabledRun(c, s, run)
    decreases |run|
  {
    run == [] || ((run[0].Claim? ==> s.held == map[]) && OneAtATime(c, Apply(c, s, run[0]), run[1..]))
  }

  predicate Alone(held: map<WorkerId, Batch>) {
    && (forall w | w in held :: !held[w].rival)
    && (forall w, v | w in held && v in held :: w == v)
  }

  /** So a lone worker's runs are prompt, however far a drain outlasts its lease. */
  lemma {:induction false} LoneWorkerIsPrompt(c: Config, s: Fleet, run: seq<Action>)
    requires Alone(s.held) && EnabledRun(c, s, run) && OneAtATime(c, s, run)
    ensures PromptRun(c, s, run)
    decreases |run|
  {
    if run != [] {
      LoneWorkerIsPrompt(c, Apply(c, s, run[0]), run[1..]);
    }
  }

  lemma {:induction false} RunAppend(c: Config, s: Fleet, run: seq<Action>, a: Action)
    requires EnabledRun(c, s, run) && Enabled(c, Run(c, s, run), a)
    ensures EnabledRun(c, s, run + [a]) && Run(c, s, run + [a]) == Apply(c, Run(c, s, run), a)
    decreases |run|
  {
    if run == [] {
      assert run + [a] == [a];
      assert [a][1..] == [];
    } else {
      RunAppend(c, Apply(c, s, run[0]), run[1..], a);
      assert (run + [a])[1..] == run[1..] + [a];
    }
  }

  /** A late finish on a row another worker has completed leaves it completed exactly when
      its own delivery succeeds too; a failed one counts from the attempts it had read, and the
      reopened row keeps the other worker's completion time. */
  lemma LateFinishReopensIff(c: Config, s: Fleet, a: Action)
    requires c.Valid() && Enabled(c, s, a) && a.Finish?
    requires var l := s.held[a.worker].loaded.value; l.row.status == Leased && s.rows[l.id].status == Completed
    ensures var b := s.held[a.worker]; var l := b.loaded.value;
            var after := Apply(c, s, a).rows[l.id];
            && (after.status != Completed <==> !EffectSucceeds(l.row, a.redisOk, b.claimedAt))
            && after.attempts == (if after.status == Completed then s.rows[l.id].attempts else l.row.attempts + 1)
            && (after.status != Completed ==> after.completedAt == s.rows[l.id].completedAt)
  {
  }

  /** Without promptness none of this holds: a worker that wakes after its lease reopens a
      row another worker has completed. `last` is the late finish. */
  lemma LateFinishReopensCompletedRow(c: Config, jti: Jti) returns (s: Fleet, run: seq<Action>, last: Action)
    requires c.Valid() && c.maxAttempts >= 2
    ensures Start(s) && EnabledRun(c, s, run) && Enabled(c, Run(c, s, run), last)
    ensures last.Finish? && !Prompt(c, Run(c, s, run), last)
    ensures var before := Run(c, s, run); 0 in before.rows && before.rows[0].status == Completed
    ensures var after := Apply(c, Run(c, s, run), last); 0 in after.rows && after.rows[0].status == Pending
  {
    s := Fleet(0.0, map[], 0, map[], {});
    var late, row := c.leaseSeconds + 1.0, NewRow(0, 2, Blacklist(jti, c.leaseSeconds + 1.0));
    var s1 := Apply(c, s, Enqueue([row]));
    assert s1.rows[0] == Nth([row], 0, 0) == row;
    var s2 := Apply(c, s1, Claim(1, 0.0, {0}));
    var s3 := Apply(c, s2, Load(1, 0));
    var s4 := Apply(c, s3, Tick(late));
    assert s4.rows[0] == Claimed(c, row, 0.0);
    run := Extend(c, s, [], s, Enqueue([row]));
    run := Extend(c, s, run, s1, Claim(1, 0.0, {0}));
    run := Extend(c, s, run, s2, Load(1, 0));
    run := Extend(c, s, run, s3, Tick(late));
    run := OtherWorkerCompletes(c, s, run, s4, row);
    last := Finish(1, false);
  }

  lemma OtherWorkerCompletes(c: Config, s: Fleet, run: seq<Action>, at: Fleet, row: Row) returns (longer: seq<Action>)
    requires c.Valid() && EnabledRun(c, s, run) && Run(c, s, run) == at
    requires 0 in at.rows && at.rows[0] == Claimed(c, row, 0.0) && row.nextAttemptAt == None
    requires at.now == c.leaseSeconds + 1.0 && 2 !in at.held
    ensures EnabledRun(c, s, longer)
    ensures var e := Run(c, s, longer);
            && 0 in e.rows && e.rows[0].status == Completed && e.now == at.now
            && (1 in at.held ==> 1 in e.held && e.held[1] == at.held[1].(rival := true))
  {
    var s5 := Apply(c, at, Claim(2, at.now, {0}));
    var s6 := Apply(c, s5, Load(2, 0));
    longer := Extend(c, s, run, at, Claim(2, at.now, {0}));
    longer := Extend(c, s, longer, s5, Load(2, 0));
    longer := Extend(c, s, longer, s6, Finish(2, true));
  }

  lemma Extend(c: Config, s: Fleet, run: seq<Action>, at: Fleet, a: Action) returns (longer: seq<Action>)
    requires EnabledRun(c, s, run) && Run(c, s, run) == at && Enabled(c, at, a)
    ensures EnabledRun(c, s, longer) && Run(c, s, longer) == Apply(c, at, a)
  {
    longer := run + [a];
    RunAppend(c, s, run, a);
  }
}
