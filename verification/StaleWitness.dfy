/** What the conditions of `StaleProtocol` keep out: runs from a starting deployment in which a
    read gone stale does commit. */
module StaleWitness {
  import opened Basics
  import opened OutboxRows
  import opened Authorization
  import opened Protocol
  import opened ProtocolInvariant
  import opened ProtocolTheorems
  import opened ProtocolAdministration
  import opened StaleRead
  import opened StaleProtocol
  import F = OutboxFleet

  lemma {:induction false} StepsConcat(p: Params, c: Machine, first: seq<Step>, second: seq<Step>)
    requires StepsEnabled(p, c, first) && StepsEnabled(p, Steps(p, c, first), second)
    ensures StepsEnabled(p, c, first + second) && Steps(p, c, first + second) == Steps(p, Steps(p, c, first), second)
    decreases |first|
  {
    if first == [] {
      assert first + second == second;
    } else {
      assert (first + second)[0] == first[0] && (first + second)[1..] == first[1..] + second;
      StepsConcat(p, StepApply(p, c, first[0]), first[1..], second);
    }
  }

  /** One more step of a run that has reached `at`. */
  lemma Extended(p: Params, c: Machine, steps: seq<Step>, at: Machine, step: Step) returns (longer: seq<Step>)
    requires StepsEnabled(p, c, steps) && Steps(p, c, steps) == at && StepEnabled(p, at, step)
    ensures StepsEnabled(p, c, longer) && Steps(p, c, longer) == StepApply(p, at, step)
  {
    longer := steps + [step];
    assert [step][1..] == [];
    StepsConcat(p, c, steps, [step]);
  }

  lemma EndedUndoes(s: State, q: TxnId, actor: UserId, id: UserId, op: Op)
    requires q !in s.txns && s.rowLocks == map[] && s.policyLock == None
    ensures var begun := BegunAdmin(s, q, actor, id, op); Ended(begun, q) == s && Ended(CheckedAdmin(begun, q), q) == s
  {
    assert s.txns[q := Admin(actor, id, op, false)] - {q} == s.txns;
    assert s.txns[q := Admin(actor, id, op, true)] - {q} == s.txns;
  }

  /** An open request takes its locks and passes its guards, on a fresh or on a stale read. */
  lemma LockAndCheck(p: Params, c: Machine, q: TxnId) returns (steps: seq<Step>, c': Machine)
    requires q !in c.s.txns && c.s.rowLocks == map[] && c.s.policyLock == None
    requires q in c.open && !c.open[q].stale && c.open[q].user in c.s.db.users
    requires AffectsSet(c.open[q].op) && SeenRefusal(c.s.db, c.open[q]).None?
    ensures StepsEnabled(p, c, steps) && Steps(p, c, steps) == c'
    ensures Ended(c'.s, q) == c.s && PassedGuards(c', q) && c'.open - {q} == c.open - {q}
    ensures c'.open[q] == c.open[q].(stale := !Fresh(c.open[q], c.s.db.users))
  {
    var t := c.open[q];
    var c1 := StepApply(p, c, Lock(q));
    c' := StepApply(p, c1, Check(q));
    EndedUndoes(c.s, q, t.actor, t.user, Trimmed(t.op, t.seen));
    steps := Extended(p, c, [], c, Lock(q));
    steps := Extended(p, c, steps, c1, Check(q));
  }

  /** Another request's whole transaction, from its read to its commit. */
  lemma FreshRequest(p: Params, c: Machine, q: TxnId, actor: UserId, id: UserId, upd: Update, ids: seq<SessionId>) returns (steps: seq<Step>)
    requires Quiet(c.s) && q !in c.open && AffectsSet(Change(upd)) && id in c.s.db.users
    requires ChangeRefusal(c.s.db, actor, id, upd).None?
    requires Lists(ids, ActiveSessions(c.s.db, id, c.s.fleet.now))
    requires Insertable(c.s.fleet.rows, MergedEffects(c.s.db, id, c.s.db.users[id], upd, ids))
    ensures StepsEnabled(p, c, steps) && Steps(p, c, steps) == c.(s := ChangedBy(p, c.s, id, upd, ids))
  {
    FreshReadIsTheModel(c.s.db, actor, id, upd);
    var read := Read(q, actor, id, Change(upd));
    var c1 := StepApply(p, c, read);
    var locking, c2 := LockAndCheck(p, c1, q);
    steps := Extended(p, c, [], c, read);
    StepsConcat(p, c, steps, locking);
    steps := Extended(p, c, steps + locking, c2, Commit(q, ids));
    assert c2.open - {q} == c.open;
  }

  // ----- a deletion -----

  /** A deletion reads account 0 while it is a plain user. Account 1 promotes it and is then
      demoted by it; the deletion passes its guard on what it read and leaves no superuser. */
  lemma StaleDeleteEmptiesSet(p: Params) returns (c: Machine, steps: seq<Step>)
    ensures MachineStart(c) && Superusers(c.s.db.users) != {}
    ensures StepsEnabled(p, c, steps) && Superusers(Steps(p, c, steps).s.db.users) == {}
  {
    c := Machine(TwoAccounts(), map[]);
    assert 1 in Superusers(c.s.db.users);
    var read := Read(5, 1, 0, Delete);
    var c1 := StepApply(p, c, read);
    steps := Extended(p, c, [], c, read);
    var changing, c3 := PromoteThenDemote(p, c, c1);
    StepsConcat(p, c, steps, changing);
    var locking, c4 := LockAndCheck(p, c3, 5);
    StepsConcat(p, c, steps + changing, locking);
    assert Lists([], ActiveSessions(c4.s.db, 0, c4.s.fleet.now));
    steps := Extended(p, c, steps + changing + locking, c4, Commit(5, []));
    StaleDeleteEmptiesIff(c3.s.db, 0, c.s.db.users[0], c3.s.fleet.now);
  }

  lemma PromoteThenDemote(p: Params, c: Machine, c1: Machine) returns (steps: seq<Step>, c3: Machine)
    requires c.s == TwoAccounts() && c1.s == c.s && 6 !in c1.open
    ensures StepsEnabled(p, c1, steps) && Steps(p, c1, steps) == c3 && c3.open == c1.open
    ensures Quiet(c3.s) && c3.s.db.sessions == map[] && 0 in c3.s.db.users && Superusers(c3.s.db.users) == {0}
  {
    var s2 := PromotedAccount0(p, c.s);
    var promote := FreshRequest(p, c1, 6, 1, 0, Promotion(), []);
    var c2 := c1.(s := s2);
    var s3 := DemotedAccount1(p, s2);
    var demote := FreshRequest(p, c2, 6, 0, 1, Demotion(), []);
    c3 := c2.(s := s3);
    StepsConcat(p, c1, promote, demote);
    steps := promote + demote;
  }

  lemma PromotedAccount0(p: Params, s: State) returns (s2: State)
    requires s == TwoAccounts()
    ensures s2 == ChangedBy(p, s, 0, Promotion(), []) && Quiet(s2) && s2.db.sessions == map[]
    ensures s2.db.users == map[0 := User(SuperAdmin, true, true, 2, 0), 1 := User(SuperAdmin, true, true, 1, 0)]
    ensures forall k | k in s2.fleet.rows :: s2.fleet.rows[k].user == 0
    ensures ChangeRefusal(s.db, 1, 0, Promotion()).None? && Lists([], ActiveSessions(s.db, 0, s.fleet.now))
    ensures Insertable(s.fleet.rows, MergedEffects(s.db, 0, s.db.users[0], Promotion(), []))
  {
    s2 := ChangedBy(p, s, 0, Promotion(), []);
    assert s2.db == ChangedDb(s.db, 0, Promotion());
  }

  lemma DemotedAccount1(p: Params, s2: State) returns (s3: State)
    requires Quiet(s2) && s2.db.sessions == map[] && forall k | k in s2.fleet.rows :: s2.fleet.rows[k].user == 0
    requires s2.db.users == map[0 := User(SuperAdmin, true, true, 2, 0), 1 := User(SuperAdmin, true, true, 1, 0)]
    ensures s3 == ChangedBy(p, s2, 1, Demotion(), []) && Quiet(s3) && s3.db.sessions == map[]
    ensures 0 in s3.db.users && Superusers(s3.db.users) == {0}
    ensures ChangeRefusal(s2.db, 0, 1, Demotion()).None? && Lists([], ActiveSessions(s2.db, 1, s2.fleet.now))
    ensures Insertable(s2.fleet.rows, MergedEffects(s2.db, 1, s2.db.users[1], Demotion(), []))
  {
    assert 0 in Superusers(s2.db.users) - {1};
    s3 := ChangedBy(p, s2, 1, Demotion(), []);
    assert s3.db == ChangedDb(s2.db, 1, Demotion());
    assert IsActiveCanonicalSuperuser(s3.db.users[0]) && !IsActiveCanonicalSuperuser(s3.db.users[1]);
  }

  // ----- a change whose publish row is gone -----

  /** One step of a worker that delivers no blacklist effect. */
  lemma WorkStep(p: Params, c: Machine, steps: seq<Step>, at: Machine, work: F.Action) returns (longer: seq<Step>, after: Machine)
    requires StepsEnabled(p, c, steps) && Steps(p, c, steps) == at
    requires !work.Enqueue? && F.Enabled(p.worker, at.s.fleet, work)
    requires work.Finish? ==> at.s.fleet.held[work.worker].loaded.value.row.effect.Publish?
    ensures after == at.(s := at.s.(fleet := F.Apply(p.worker, at.s.fleet, work)))
    ensures StepsEnabled(p, c, longer) && Steps(p, c, longer) == after
  {
    longer := Extended(p, c, steps, at, Base(Work(work, false)));
    after := StepApply(p, at, Base(Work(work, false)));
  }

  function OnePublishRow(): F.Fleet {
    F.Fleet(0.0, map[0 := NewRow(0, 2, Publish)], 1, map[], {})
  }

  function Delivering(c: Config): F.Fleet {
    var row := Claimed(c, NewRow(0, 2, Publish), 0.0);
    F.Fleet(0.0, map[0 := row], 1, map[1 := F.Batch(0.0, {0}, Some(F.Loaded(0, row)), false)], {})
  }

  lemma Claiming(p: Params, c: Machine) returns (steps: seq<Step>, c': Machine)
    requires p.worker.Valid() && c.s.fleet == OnePublishRow()
    ensures StepsEnabled(p, c, steps) && Steps(p, c, steps) == c' && c' == c.(s := c.s.(fleet := Delivering(p.worker)))
  {
    steps, c' := WorkStep(p, c, [], c, F.Claim(1, 0.0, {0}));
    assert c'.s.fleet.held == map[1 := F.Batch(0.0, {0}, None, false)];
    steps, c' := WorkStep(p, c, steps, c', F.Load(1, 0));
  }

  lemma Reaping(p: Params, c: Machine) returns (steps: seq<Step>, c': Machine)
    requires p.worker.Valid() && c.s.fleet == Delivering(p.worker)
    ensures StepsEnabled(p, c, steps) && Steps(p, c, steps) == c'
    ensures c' == c.(s := c.s.(fleet := c'.s.fleet)) && c'.s.fleet.rows == map[]
  {
    var late := p.worker.retentionSeconds + 1.0;
    steps, c' := WorkStep(p, c, [], c, F.Finish(1, true));
    assert c'.s.fleet.rows == map[0 := Delivered(Claimed(p.worker, NewRow(0, 2, Publish), 0.0), 0.0)];
    steps, c' := WorkStep(p, c, steps, c', F.Tick(late));
    steps, c' := WorkStep(p, c, steps, c', F.Reap(late));
  }

  /** The one publish row is delivered, kept for its retention and reaped. */
  lemma PublishedAndReaped(p: Params, c: Machine) returns (steps: seq<Step>, c': Machine)
    requires p.worker.Valid() && c.s.fleet == OnePublishRow()
    ensures StepsEnabled(p, c, steps) && Steps(p, c, steps) == c'
    ensures c' == c.(s := c.s.(fleet := c'.s.fleet)) && c'.s.fleet.rows == map[]
  {
    var claiming, c1 := Claiming(p, c);
    var reaping, c2 := Reaping(p, c1);
    StepsConcat(p, c, claiming, reaping);
    steps, c' := claiming + reaping, c2;
  }

  function ToRank(rank: nat): Update { Update(Set(Ranked(rank)), Unset, None) }

  /** Account 0 before the change request 5 overtakes another, and between the two. */
  function Seen(): User { User(Ranked(0), false, true, 1, 0) }

  function Between(): User { User(Ranked(2), false, true, 2, 0) }

  /** A second change of the same read: account 0 goes to rank 2, and a login signs a token
      from that row. The publish row is delivered and reaped before the first request, which
      read the row beforehand, sets rank 1. Both reach generation 2, the login commits, and its
      token is vouched for with a role its owner does not have. */
  lemma StaleReadVouchesWrongToken(p: Params) returns (c: Machine, steps: seq<Step>)
    requires p.worker.Valid()
    ensures MachineStart(c) && StepsEnabled(p, c, steps)
    ensures var e := Steps(p, c, steps).s;
            Vouches(e, 1, 0) && 1 in e.issued && 0 in e.db.users && e.issued[1].role != e.db.users[0].role
  {
    c := Machine(TwoAccounts(), map[]);
    var first, c1 := OvertakenAndReaped(p, c);
    var second, c3 := LateChange(p, c, c1);
    StepsConcat(p, c, first, second);
    LateLogin(p, c3);
    steps := Extended(p, c, first + second, c3, Base(LoginCommit(7, 7, 9.0, 9.0)));
  }

  /** The state the two changes leave. */
  predicate ChangedTwice(s: State) {
    && s.txns == map[7 := Login(0, Between(), 1, false)] && s.issued == map[1 := TokenOf(0, Between())]
    && 0 in s.db.users && s.db.users[0] == User(Ranked(1), false, true, 2, 0)
    && s.db.sessions == map[] && s.db.tombstones == map[]
  }

  lemma LateLogin(p: Params, c3: Machine)
    requires ChangedTwice(c3.s) && 7 !in c3.open
    ensures var write := Base(LoginCommit(7, 7, 9.0, 9.0));
            && StepEnabled(p, c3, write)
            && var e := StepApply(p, c3, write).s;
               Vouches(e, 1, 0) && 1 in e.issued && 0 in e.db.users && e.issued[1].role != e.db.users[0].role
  {
    var e := CommittedLogin(c3.s, 7, 7, 9.0, 9.0);
    assert e.db.sessions == map[7 := ClientSession(0, 1, Some(2), false, 9.0, 9.0)];
    assert SessionOf(e.db.sessions, 1) == Some(e.db.sessions[7]);
  }

  /** Everything up to the moment request 5 asks for its locks. */
  predicate Overtaken(c: Machine, c1: Machine) {
    && c.s == TwoAccounts()
    && c1.open == map[5 := Request(1, 0, Seen(), Change(ToRank(1)), false, 0.0)]
    && c1.s.rowLocks == map[] && c1.s.policyLock == None && c1.s.fleet.rows == map[]
    && c1.s.txns == map[7 := Login(0, Between(), 1, false)] && c1.s.issued == map[1 := TokenOf(0, Between())]
    && c1.s.db.users == c.s.db.users[0 := Between()] && c1.s.db.sessions == map[] && c1.s.db.tombstones == map[]
  }

  lemma OvertakenAndReaped(p: Params, c: Machine) returns (steps: seq<Step>, c': Machine)
    requires p.worker.Valid() && c == Machine(TwoAccounts(), map[])
    ensures StepsEnabled(p, c, steps) && Steps(p, c, steps) == c' && Overtaken(c, c')
  {
    var read := Read(5, 1, 0, Change(ToRank(1)));
    var c1 := StepApply(p, c, read);
    steps := Extended(p, c, [], c, read);
    var s2 := ChangedToRank2(p, c.s);
    var changing := FreshRequest(p, c1, 6, 1, 0, ToRank(2), []);
    var c2 := c1.(s := s2);
    StepsConcat(p, c, steps, changing);
    var sign := Base(LoginRead(7, 0, 1));
    var c3 := StepApply(p, c2, sign);
    steps := Extended(p, c, steps + changing, c2, sign);
    var reaping, c4 := PublishedAndReaped(p, c3);
    StepsConcat(p, c, steps, reaping);
    steps, c' := steps + reaping, c4;
  }

  lemma ChangedToRank2(p: Params, s: State) returns (s2: State)
    requires s == TwoAccounts()
    ensures s2 == ChangedBy(p, s, 0, ToRank(2), []) && Quiet(s2) && s2.fleet == OnePublishRow() && s2.issued == map[]
    ensures s2.db.users == s.db.users[0 := Between()] && s2.db.sessions == map[] && s2.db.tombstones == map[]
    ensures ChangeRefusal(s.db, 1, 0, ToRank(2)).None? && Lists([], ActiveSessions(s.db, 0, s.fleet.now))
    ensures Insertable(s.fleet.rows, MergedEffects(s.db, 0, s.db.users[0], ToRank(2), []))
  {
    s2 := ChangedBy(p, s, 0, ToRank(2), []);
    assert s2.db == ChangedDb(s.db, 0, ToRank(2));
    assert Effects(s.db, 0, 2, []) == [NewRow(0, 2, Publish)];
    assert s2.fleet.rows == map[0 := F.Nth([NewRow(0, 2, Publish)], 0, 0)];
  }

  lemma LateChange(p: Params, c: Machine, c1: Machine) returns (steps: seq<Step>, c3: Machine)
    requires Overtaken(c, c1)
    ensures StepsEnabled(p, c1, steps) && Steps(p, c1, steps) == c3 && ChangedTwice(c3.s) && c3.open == map[]
  {
    var locking, c2 := LockAndCheck(p, c1, 5);
    c3 := LateCommit(p, c, c1, c2);
    steps := Extended(p, c1, locking, c2, Commit(5, []));
    assert c2.open - {5} == c1.open - {5} == map[];
  }

  lemma LateCommit(p: Params, c: Machine, c1: Machine, c2: Machine) returns (c3: Machine)
    requires Overtaken(c, c1) && PassedGuards(c2, 5) && Ended(c2.s, 5) == c1.s && c2.open[5] == c1.open[5].(stale := true)
    ensures StepEnabled(p, c2, Commit(5, [])) && c3 == StepApply(p, c2, Commit(5, []))
    ensures ChangedTwice(c3.s) && c3.open == c2.open - {5}
  {
    assert c2.s.db == Ended(c2.s, 5).db && c2.s.fleet == Ended(c2.s, 5).fleet;
    assert Lists([], ActiveSessions(c2.s.db, 0, c2.s.fleet.now));
    assert AuthorizationChanged(Seen(), ToRank(1));
    c3 := StepApply(p, c2, Commit(5, []));
    assert c3.s.db == MergedDb(c1.s.db, 0, Seen(), ToRank(1));
  }
}
