/** The protocol without the premise that an administrative request reads the row it locks:
    each request reads its account first, at any time, and checks and writes from that read.

    While outbox rows are retained long enough, every run is a run of `Protocol`: the unique
    key of a publish row turns away the changes whose read was too old. */
module StaleProtocol {
  import opened Basics
  import opened OutboxRows
  import opened Authorization
  import opened Protocol
  import opened ProtocolInvariant
  import opened ProtocolTheorems
  import opened ProtocolAdministration
  import T = ProtocolTombstones
  import opened StaleRead
  import F = OutboxFleet

  /** An administrative request that has read its account. `stale` is set when its guards
      passed on a read that no longer is the row; `readAt` is history. */
  datatype Request = Request(actor: UserId, user: UserId, seen: User, op: Op, stale: bool, readAt: real)

  datatype Machine = Machine(s: State, open: map<TxnId, Request>)

  /** The steps of `Protocol` but the administrative ones, and those in their place. */
  datatype Step =
    | Base(a: Action)
    | Read(q: TxnId, actor: UserId, user: UserId, op: Op)
    | Lock(q: TxnId)
    | Check(q: TxnId)
    | Commit(q: TxnId, ids: seq<SessionId>)
    | GiveUp(q: TxnId)

  // ----- what a request writes -----

  predicate SameButProfile(a: User, b: User) {
    a == b.(profile := a.profile)
  }

  /** The update without a profile that equals the one read: no column of it is written. */
  function Trimmed(op: Op, seen: User): Op {
    if op.Change? && op.upd.profile == Some(seen.profile) then Change(op.upd.(profile := None)) else op
  }

  function SeenRefusal(db: Db, q: Request): Option<Refusal> {
    match q.op
    case Change(upd) => MergedRefusal(db, q.actor, q.user, q.seen, upd)
    case Delete => StaleDeleteRefusal(db, q.user, q.seen)
  }

  function MergedBy(p: Params, s: State, id: UserId, seen: User, upd: Update, ids: seq<SessionId>): State
    requires id in s.db.users && forall i | 0 <= i < |ids| :: ids[i] in s.db.sessions
  {
    s.(db := MergedDb(s.db, id, seen, upd),
       fleet := if AuthorizationChanged(seen, upd) then Enqueued(p, s.fleet, Effects(s.db, id, seen.generation + 1, ids)) else s.fleet)
  }

  function StaleDeletedBy(s: State, id: UserId, seen: User): State {
    s.(db := StaleDeletedDb(s.db, id, seen, s.fleet.now),
       deleted := s.deleted[id := Deletion(s.fleet.now, seen.generation + 1)])
  }

  // ----- steps -----

  predicate IsBase(c: Machine, a: Action) {
    && !a.AdminBegin? && !a.AdminCheck? && !a.AdminCommit?
    && (a.LoginRead? || a.RefreshBegin? || a.Abort? ==> a.r !in c.open)
  }

  predicate PassedGuards(c: Machine, q: TxnId) {
    q in c.open && (c.open[q].stale || IsAdmin(c.s, q, true))
  }

  /** The lock a stale request holds is not recorded in the state: others may do more here
      than they can, and its commit needs the row lock to be free or its own. */
  predicate CanCommitRequest(c: Machine, q: TxnId, ids: seq<SessionId>) {
    && PassedGuards(c, q) && CanWriteUser(Ended(c.s, q), c.open[q].user)
    && Lists(ids, ActiveSessions(c.s.db, c.open[q].user, c.s.fleet.now))
    && (c.open[q].op.Change? ==>
          Insertable(c.s.fleet.rows, MergedEffects(c.s.db, c.open[q].user, c.open[q].seen, c.open[q].op.upd, ids)))
  }

  predicate StepEnabled(p: Params, c: Machine, step: Step) {
    match step
    case Base(a) => IsBase(c, a) && Enabled(p, c.s, a)
    case Read(q, _, user, op) => q !in c.open && q !in c.s.txns && user in c.s.db.users && AffectsSet(op)
    case Lock(q) => q in c.open && q !in c.s.txns && c.s.policyLock.None?
    case Check(q) =>
      && q in c.open && !c.open[q].stale && IsAdmin(c.s, q, false) && CanWriteUser(c.s, c.open[q].user)
      && SeenRefusal(c.s.db, c.open[q]).None?
    case Commit(q, ids) => CanCommitRequest(c, q, ids)
    case GiveUp(q) => q in c.open
  }

  predicate Fresh(q: Request, users: Users) {
    q.user in users && SameButProfile(q.seen, users[q.user])
  }

  function Checked(c: Machine, q: TxnId): Machine
    requires q in c.open && IsAdmin(c.s, q, false)
  {
    if Fresh(c.open[q], c.s.db.users) then c.(s := CheckedAdmin(c.s, q))
    else c.(open := c.open[q := c.open[q].(stale := true)])
  }

  function Written(p: Params, c: Machine, q: TxnId, ids: seq<SessionId>): State
    requires CanCommitRequest(c, q, ids)
  {
    var t := c.open[q];
    if t.op.Delete? then StaleDeletedBy(Ended(c.s, q), t.user, t.seen)
    else MergedBy(p, Ended(c.s, q), t.user, t.seen, t.op.upd, ids)
  }

  function StepApply(p: Params, c: Machine, step: Step): Machine
    requires StepEnabled(p, c, step)
  {
    match step
    case Base(a) => c.(s := Apply(p, c.s, a))
    case Read(q, actor, user, op) => c.(open := c.open[q := Request(actor, user, c.s.db.users[user], op, false, c.s.fleet.now)])
    case Lock(q) =>
      var t := c.open[q];
      c.(s := BegunAdmin(c.s, q, t.actor, t.user, Trimmed(t.op, t.seen)))
    case Check(q) => Checked(c, q)
    case Commit(q, ids) => Machine(Written(p, c, q, ids), c.open - {q})
    case GiveUp(q) => Machine(if q in c.s.txns then Aborted(c.s, q) else c.s, c.open - {q})
  }

  predicate StepsEnabled(p: Params, c: Machine, steps: seq<Step>)
    decreases |steps|
  {
    steps == [] || (StepEnabled(p, c, steps[0]) && StepsEnabled(p, StepApply(p, c, steps[0]), steps[1..]))
  }

  function Steps(p: Params, c: Machine, steps: seq<Step>): Machine
    requires StepsEnabled(p, c, steps)
    decreases |steps|
  {
    if steps == [] then c else Steps(p, StepApply(p, c, steps[0]), steps[1..])
  }

  // ----- the conditions on a run -----

  /** The step reaps no publish row that a request in flight would collide with. */
  ghost predicate Retains(p: Params, c: Machine, step: Step)
    requires StepEnabled(p, c, step)
  {
    forall q | q in c.open && HasKey(c.s.fleet.rows, PublishKey(c.open[q].user, c.open[q].seen)) ::
      HasKey(StepApply(p, c, step).s.fleet.rows, PublishKey(c.open[q].user, c.open[q].seen))
  }

  /** A deletion, which enqueues nothing, checks its guard on a fresh read. */
  predicate DeletesFresh(c: Machine, step: Step) {
    step.Check? && step.q in c.open && c.open[step.q].op.Delete? ==> Fresh(c.open[step.q], c.s.db.users)
  }

  ghost predicate Retained(p: Params, c: Machine, steps: seq<Step>)
    requires StepsEnabled(p, c, steps)
    decreases |steps|
  {
    steps == [] || (Retains(p, c, steps[0]) && Retained(p, StepApply(p, c, steps[0]), steps[1..]))
  }

  predicate FreshDeletes(p: Params, c: Machine, steps: seq<Step>)
    requires StepsEnabled(p, c, steps)
    decreases |steps|
  {
    steps == [] || (DeletesFresh(c, steps[0]) && FreshDeletes(p, StepApply(p, c, steps[0]), steps[1..]))
  }

  // ----- the invariant -----

  predicate AllConsistent(users: Users) {
    forall id | id in users :: !Mismatched(users[id])
  }

  /** A request's read is the row up to its profile, or the transition that followed the read
      has left its publish row. */
  ghost predicate ReadOk(q: Request, users: Users, usedIds: set<UserId>, rows: map<RowId, Row>) {
    && q.user in usedIds && !Mismatched(q.seen)
    && (q.user in users ==>
          if q.seen.generation == users[q.user].generation then SameButProfile(q.seen, users[q.user])
          else q.seen.generation < users[q.user].generation && HasKey(rows, PublishKey(q.user, q.seen)))
  }

  /** What the abstract transaction table says of an open request. */
  predicate PhaseOk(q: TxnId, t: Request, s: State) {
    && AffectsSet(t.op)
    && (q in s.txns ==> s.txns[q].Admin? && s.txns[q] == Admin(t.actor, t.user, Trimmed(t.op, t.seen), s.txns[q].checked))
    && (q in s.txns && s.txns[q].Admin? && s.txns[q].checked ==> !t.stale && Fresh(t, s.db.users))
    && (t.stale ==> q in s.txns && (t.op.Change? ==> !t.op.upd.role.Null?))
    && (t.stale && t.user in s.db.users ==> t.seen.generation != s.db.users[t.user].generation)
  }

  ghost predicate OpenOk(c: Machine) {
    forall q | q in c.open ::
      && ReadOk(c.open[q], c.s.db.users, c.s.usedIds, c.s.fleet.rows)
      && PhaseOk(q, c.open[q], c.s)
  }

  ghost predicate MachineInv(c: Machine) {
    Inv(c.s) && AllConsistent(c.s.db.users) && OpenOk(c)
  }

  predicate NoStaleDelete(open: map<TxnId, Request>) {
    forall q | q in open && open[q].stale :: open[q].op.Change?
  }

  /** A deployment as in `Protocol`, with the table's CHECK installed and no request open. */
  ghost predicate MachineStart(c: Machine) {
    Start(c.s) && AllConsistent(c.s.db.users) && c.open == map[]
  }

  // ----- what a step of `Protocol` does to the rows requests have read -----

  /** An account's row keeps everything but its profile, or moves to its next generation and
      leaves the publish row of it. */
  ghost predicate Advances(s: State, s': State) {
    && s.usedIds <= s'.usedIds
    && forall id | id in s'.db.users && id in s.usedIds ::
         id in s.db.users && RowAdvances(id, s.db.users[id], s'.db.users[id], s'.fleet.rows)
  }

  ghost predicate RowAdvances(id: UserId, u: User, v: User, rows: map<RowId, Row>) {
    SameButProfile(u, v) || (v.generation == u.generation + 1 && HasKey(rows, PublishKey(id, u)))
  }

  lemma ActionAdvances(p: Params, s: State, a: Action)
    requires Inv(s) && AllConsistent(s.db.users) && Enabled(p, s, a)
    ensures Advances(s, Apply(p, s, a)) && AllConsistent(Apply(p, s, a).db.users)
  {
    IdsStayUsed(p, s, a);
    if a.AdminCommit? {
      CommitAdvances(p, s, a.r, a.ids);
    } else if WritesUser(a) {
      AccountAdvances(p, s, a);
    } else {
      UsersStay(p, s, a);
    }
  }

  lemma AccountAdvances(p: Params, s: State, a: Action)
    requires Inv(s) && AllConsistent(s.db.users) && Enabled(p, s, a) && WritesUser(a) && !a.AdminCommit?
    ensures Advances(s, Apply(p, s, a)) && AllConsistent(Apply(p, s, a).db.users)
  {
    if a.CreateUser? {
      CreatedAdvances(s, a.user, a.role, a.active, a.profile);
    } else if a.EditProfile? {
    } else if a.SelfDelete? {
    }
  }

  lemma CreatedAdvances(s: State, id: UserId, role: Role, active: bool, profile: int)
    requires Inv(s) && AllConsistent(s.db.users) && CanCreateUser(s, id)
    ensures var s' := CreatedUser(s, id, role, active, profile); Advances(s, s') && AllConsistent(s'.db.users)
  {
  }

  lemma CommitAdvances(p: Params, s: State, r: TxnId, ids: seq<SessionId>)
    requires Inv(s) && AllConsistent(s.db.users) && CanCommitAdmin(s, r, ids)
    ensures var s' := CommittedAdmin(p, s, r, ids); Advances(s, s') && AllConsistent(s'.db.users)
  {
    if s.txns[r].op.Change? {
      ChangeAdvances(p, Ended(s, r), s.txns[r].user, s.txns[r].op.upd, ids);
    }
  }

  lemma ChangeAdvances(p: Params, s: State, id: UserId, upd: Update, ids: seq<SessionId>)
    requires id in s.db.users && AllConsistent(s.db.users) && forall i | 0 <= i < |ids| :: ids[i] in s.db.sessions
    ensures var s' := ChangedBy(p, s, id, upd, ids); Advances(s, s') && AllConsistent(s'.db.users)
  {
    AnnouncedHasKey(p, s.fleet, s.db, id, ids);
    ChangeAdvancesRow(s.db, id, upd);
  }

  lemma ChangeAdvancesRow(db: Db, id: UserId, upd: Update)
    requires id in db.users && !Mismatched(db.users[id])
    ensures var v := ChangedDb(db, id, upd).users;
            && v == db.users[id := v[id]] && !Mismatched(v[id])
            && if AuthorizationChanged(db.users[id], upd) then v[id].generation == db.users[id].generation + 1
               else SameButProfile(db.users[id], v[id])
  {
  }

  lemma AnnouncedHasKey(p: Params, fleet: F.Fleet, db: Db, id: UserId, ids: seq<SessionId>)
    requires id in db.users && forall i | 0 <= i < |ids| :: ids[i] in db.sessions
    ensures HasKey(Announced(p, fleet, db, id, ids).rows, PublishKey(id, db.users[id]))
  {
    var added := Effects(db, id, db.users[id].generation + 1, ids);
    var rows := Announced(p, fleet, db, id, ids).rows;
    var last := fleet.nextId + |ids|;
    assert last in rows && rows[last] == F.Nth(added, fleet.nextId, last) == added[|ids|];
  }

  // ----- what the steps of others leave of an open request -----

  predicate ActsFor(a: Action, q: TxnId) {
    (a.LoginRead? || a.RefreshBegin? || a.AdminBegin? || a.AdminCheck? || a.AdminCommit? || a.Abort?) && a.r == q
  }

  lemma OthersTxnKept(p: Params, s: State, a: Action, q: TxnId)
    requires Enabled(p, s, a) && !ActsFor(a, q) && (q in s.txns ==> s.txns[q].Admin?)
    ensures var s' := Apply(p, s, a);
            && (q in s'.txns <==> q in s.txns)
            && (q in s.txns ==> s'.txns[q] == s.txns[q])
  {
    if !OfTxn(a) {
      TxnsStay(p, s, a);
    } else if a.AdminBegin? || a.AdminCheck? || a.AdminCommit? || a.Abort? {
      OthersAdminKept(p, s, a, q);
    } else if a.LoginRead? || a.LoginCommit? || a.LoginDeliver? {
    } else {
    }
  }

  lemma OthersAdminKept(p: Params, s: State, a: Action, q: TxnId)
    requires Enabled(p, s, a) && (a.AdminBegin? || a.AdminCheck? || a.AdminCommit? || a.Abort?) && a.r != q
    ensures var s' := Apply(p, s, a);
            && (q in s'.txns <==> q in s.txns)
            && (q in s.txns ==> s'.txns[q] == s.txns[q])
  {
    if a.AdminCommit? {
      assert Apply(p, s, a).txns == s.txns - {a.r};
    }
  }

  ghost predicate KeepsKey(s: State, s': State, t: Request) {
    HasKey(s.fleet.rows, PublishKey(t.user, t.seen)) ==> HasKey(s'.fleet.rows, PublishKey(t.user, t.seen))
  }

  ghost predicate RequestOk(q: TxnId, t: Request, s: State) {
    ReadOk(t, s.db.users, s.usedIds, s.fleet.rows) && PhaseOk(q, t, s)
  }

  lemma RequestKept(q: TxnId, t: Request, s: State, s': State)
    requires RequestOk(q, t, s) && Advances(s, s') && KeepsKey(s, s', t)
    requires (q in s'.txns <==> q in s.txns) && (q in s.txns ==> s'.txns[q] == s.txns[q])
    requires q in s.txns && s.txns[q].Admin? && s.txns[q].checked ==> Untouched(s, s', t.user)
    ensures RequestOk(q, t, s')
  {
  }

  lemma OthersKept(p: Params, s: State, a: Action, q: TxnId, t: Request, s': State)
    requires Inv(s) && AllConsistent(s.db.users) && Enabled(p, s, a) && s' == Apply(p, s, a)
    requires RequestOk(q, t, s) && !ActsFor(a, q) && KeepsKey(s, s', t)
    ensures RequestOk(q, t, s')
  {
    ActionAdvances(p, s, a);
    OthersTxnKept(p, s, a, q);
    if q in s.txns && s.txns[q].checked {
      assert TxnOk(q, s.txns[q], s.issued, s.unsettled, s.delivered, s.rowLocks, s.policyLock, s.db.users);
      LockedRowStays(p, s, a, t.user);
    }
    RequestKept(q, t, s, s');
  }

  // ----- a fresh read is the premise of `Protocol` -----

  lemma FreshRefusal(db: Db, t: Request)
    requires Fresh(t, db.users)
    ensures SeenRefusal(db, t).None? ==> OpRefusal(db, t.actor, t.user, Trimmed(t.op, t.seen)).None?
  {
    assert Superusers(db.users[t.user := t.seen]) - {t.user} == Superusers(db.users) - {t.user};
  }

  lemma FreshMerge(db: Db, id: UserId, seen: User, upd: Update)
    requires id in db.users && SameButProfile(seen, db.users[id])
    ensures MergedDb(db, id, seen, upd) == ChangedDb(db, id, Trimmed(Change(upd), seen).upd)
    ensures AuthorizationChanged(seen, upd) == AuthorizationChanged(db.users[id], Trimmed(Change(upd), seen).upd)
  {
    var trimmed := Trimmed(Change(upd), seen).upd;
    var u := db.users[id];
    var after := Applied(u, trimmed);
    assert MergedUser(u, seen, upd) == if AuthorizationChanged(u, trimmed) then after.(generation := u.generation + 1) else after;
  }

  lemma FreshCommit(p: Params, c: Machine, q: TxnId, ids: seq<SessionId>)
    requires CanCommitRequest(c, q, ids) && IsAdmin(c.s, q, true)
    requires PhaseOk(q, c.open[q], c.s)
    ensures CanCommitAdmin(c.s, q, ids) && Written(p, c, q, ids) == CommittedAdmin(p, c.s, q, ids)
  {
    var t := c.open[q];
    if t.op.Change? {
      FreshMerge(c.s.db, t.user, t.seen, t.op.upd);
    } else {
      assert Ended(c.s, q).db == c.s.db;
    }
  }

  // ----- a stale one that commits is no transition -----

  lemma StaleWrite(db: Db, id: UserId, seen: User, upd: Update)
    requires id in db.users && !Mismatched(seen) && !upd.role.Null? && !AuthorizationChanged(seen, upd)
    ensures var profile := MergedUser(db.users[id], seen, upd).profile;
            MergedDb(db, id, seen, upd) == db.(users := db.users[id := db.users[id].(profile := profile)])
  {
  }

  lemma StaleCommit(p: Params, c: Machine, q: TxnId, ids: seq<SessionId>) returns (profile: int)
    requires CanCommitRequest(c, q, ids) && RequestOk(q, c.open[q], c.s) && c.open[q].stale && c.open[q].op.Change?
    ensures Written(p, c, q, ids) == EditedProfile(Ended(c.s, q), c.open[q].user, profile)
  {
    var t := c.open[q];
    AnnouncedTwice(c.s.db, c.s.fleet.rows, t.user, t.seen, t.op.upd, ids);
    profile := MergedUser(c.s.db.users[t.user], t.seen, t.op.upd).profile;
    StaleWrite(c.s.db, t.user, t.seen, t.op.upd);
  }

  // ----- every step is a run of `Protocol` -----

  /** The run leads there, and its self-deletes are made with vouched-for tokens if `vouched`. */
  ghost predicate Leads(p: Params, s: State, run: seq<Action>, s': State, vouched: bool) {
    EnabledRun(p, s, run) && Run(p, s, run) == s' && (vouched ==> SelfDeletesVouched(p, s, run))
  }

  lemma OneStep(p: Params, s: State, a: Action, s': State, vouched: bool)
    requires Enabled(p, s, a) && Apply(p, s, a) == s' && (vouched ==> SelfDeleteVouched(s, a))
    ensures Leads(p, s, [a], s', vouched)
  {
    assert [a][1..] == [];
  }

  lemma BaseStep(p: Params, c: Machine, a: Action)
    requires MachineInv(c) && StepEnabled(p, c, Base(a)) && Retains(p, c, Base(a))
    ensures Leads(p, c.s, [a], Apply(p, c.s, a), SelfDeleteVouched(c.s, a))
    ensures MachineInv(c.(s := Apply(p, c.s, a)))
  {
    var s' := Apply(p, c.s, a);
    OneStep(p, c.s, a, s', SelfDeleteVouched(c.s, a));
    StepInv(p, c.s, a);
    ActionAdvances(p, c.s, a);
    forall q | q in c.open
      ensures RequestOk(q, c.open[q], s')
    {
      OthersKept(p, c.s, a, q, c.open[q], s');
    }
  }

  /** An administrative step of request q that enqueues and reaps nothing. */
  lemma OwnStep(p: Params, c: Machine, a: Action, q: TxnId, s': State)
    requires MachineInv(c) && Enabled(p, c.s, a) && s' == Apply(p, c.s, a)
    requires (a.AdminBegin? || a.AdminCheck? || a.AdminCommit? || a.Abort?) && a.r == q
    requires forall o | o in c.open && o != q :: KeepsKey(c.s, s', c.open[o])
    ensures Leads(p, c.s, [a], s', true) && Inv(s') && AllConsistent(s'.db.users)
    ensures forall o | o in c.open && o != q :: RequestOk(o, c.open[o], s')
  {
    OneStep(p, c.s, a, s', true);
    StepInv(p, c.s, a);
    ActionAdvances(p, c.s, a);
    forall o | o in c.open && o != q
      ensures RequestOk(o, c.open[o], s')
    {
      OthersKept(p, c.s, a, o, c.open[o], s');
    }
  }

  lemma LockStep(p: Params, c: Machine, q: TxnId) returns (run: seq<Action>)
    requires MachineInv(c) && StepEnabled(p, c, Lock(q))
    ensures Leads(p, c.s, run, StepApply(p, c, Lock(q)).s, true) && MachineInv(StepApply(p, c, Lock(q)))
  {
    var t := c.open[q];
    assert RequestOk(q, t, c.s);
    var a := AdminBegin(q, t.actor, t.user, Trimmed(t.op, t.seen));
    run := [a];
    OwnStep(p, c, a, q, BegunAdmin(c.s, q, t.actor, t.user, Trimmed(t.op, t.seen)));
  }

  lemma CheckStep(p: Params, c: Machine, q: TxnId) returns (run: seq<Action>)
    requires MachineInv(c) && StepEnabled(p, c, Check(q))
    ensures Leads(p, c.s, run, Checked(c, q).s, true) && MachineInv(Checked(c, q))
  {
    assert RequestOk(q, c.open[q], c.s);
    if Fresh(c.open[q], c.s.db.users) {
      FreshRefusal(c.s.db, c.open[q]);
      run := [AdminCheck(q)];
      OwnStep(p, c, AdminCheck(q), q, CheckedAdmin(c.s, q));
    } else {
      run := [];
    }
  }

  lemma CommitStep(p: Params, c: Machine, q: TxnId, ids: seq<SessionId>) returns (run: seq<Action>)
    requires MachineInv(c) && CanCommitRequest(c, q, ids) && (c.open[q].stale ==> c.open[q].op.Change?)
    requires forall o | o in c.open :: KeepsKey(c.s, Written(p, c, q, ids), c.open[o])
    ensures var s' := Written(p, c, q, ids); Leads(p, c.s, run, s', true) && MachineInv(Machine(s', c.open - {q}))
  {
    assert RequestOk(q, c.open[q], c.s);
    if c.open[q].stale {
      run := StaleCommitStep(p, c, q, ids);
    } else {
      FreshCommit(p, c, q, ids);
      run := [AdminCommit(q, ids)];
      OwnStep(p, c, AdminCommit(q, ids), q, Written(p, c, q, ids));
    }
  }

  lemma StaleCommitStep(p: Params, c: Machine, q: TxnId, ids: seq<SessionId>) returns (run: seq<Action>)
    requires MachineInv(c) && CanCommitRequest(c, q, ids) && c.open[q].stale && c.open[q].op.Change?
    ensures var s' := Written(p, c, q, ids); Leads(p, c.s, run, s', true) && MachineInv(Machine(s', c.open - {q}))
  {
    assert RequestOk(q, c.open[q], c.s);
    var profile := StaleCommit(p, c, q, ids);
    var mid, user := Ended(c.s, q), c.open[q].user;
    var s' := EditedProfile(mid, user, profile);
    run := [Abort(q)] + [EditProfile(user, profile)];
    OwnStep(p, c, Abort(q), q, mid);
    BaseStep(p, Machine(mid, c.open - {q}), EditProfile(user, profile));
    RunConcat(p, c.s, [Abort(q)], [EditProfile(user, profile)]);
    VouchedConcat(p, c.s, [Abort(q)], mid, [EditProfile(user, profile)]);
  }

  lemma GiveUpStep(p: Params, c: Machine, q: TxnId) returns (run: seq<Action>)
    requires MachineInv(c) && q in c.open
    ensures var c' := StepApply(p, c, GiveUp(q)); Leads(p, c.s, run, c'.s, true) && MachineInv(c')
  {
    if q in c.s.txns {
      run := [Abort(q)];
      OwnStep(p, c, Abort(q), q, Aborted(c.s, q));
    } else {
      run := [];
    }
  }

  lemma VouchedFirst(p: Params, s: State, a: Action, rest: seq<Action>)
    requires Enabled(p, s, a) && EnabledRun(p, Apply(p, s, a), rest)
    requires SelfDeleteVouched(s, a) && SelfDeletesVouched(p, Apply(p, s, a), rest)
    ensures EnabledRun(p, s, [a] + rest) && SelfDeletesVouched(p, s, [a] + rest)
  {
    assert ([a] + rest)[1..] == rest;
  }

  /** One step of a run and of its vouching. */
  lemma VouchedUnfold(p: Params, s: State, run: seq<Action>)
    requires run != [] && EnabledRun(p, s, run) && SelfDeletesVouched(p, s, run)
    ensures Enabled(p, s, run[0]) && EnabledRun(p, Apply(p, s, run[0]), run[1..])
    ensures SelfDeleteVouched(s, run[0]) && SelfDeletesVouched(p, Apply(p, s, run[0]), run[1..])
    ensures Run(p, s, run) == Run(p, Apply(p, s, run[0]), run[1..])
  {
  }

  lemma {:induction false} VouchedConcat(p: Params, s: State, first: seq<Action>, mid: State, second: seq<Action>)
    requires EnabledRun(p, s, first) && SelfDeletesVouched(p, s, first) && Run(p, s, first) == mid
    requires EnabledRun(p, mid, second) && SelfDeletesVouched(p, mid, second)
    ensures EnabledRun(p, s, first + second) && SelfDeletesVouched(p, s, first + second)
    decreases |first|
  {
    if first == [] {
      assert first + second == second;
    } else {
      VouchedUnfold(p, s, first);
      VouchedConcat(p, Apply(p, s, first[0]), first[1..], mid, second);
      VouchedFirst(p, s, first[0], first[1..] + second);
      assert [first[0]] + (first[1..] + second) == first + second;
    }
  }

  ghost predicate StepVouched(c: Machine, step: Step) {
    step.Base? ==> SelfDeleteVouched(c.s, step.a)
  }

  /** The step commits a deletion whose read has gone stale. */
  predicate StaleDeletion(c: Machine, step: Step) {
    step.Commit? && step.q in c.open && c.open[step.q].stale && c.open[step.q].op.Delete?
  }

  lemma StepRefines(p: Params, c: Machine, step: Step) returns (run: seq<Action>)
    requires MachineInv(c) && StepEnabled(p, c, step) && Retains(p, c, step) && !StaleDeletion(c, step)
    ensures var c' := StepApply(p, c, step); MachineInv(c') && Leads(p, c.s, run, c'.s, StepVouched(c, step))
  {
    run := [];
    if step.Base? {
      BaseStep(p, c, step.a);
      run := [step.a];
    } else if step.Lock? {
      run := LockStep(p, c, step.q);
    } else if step.Check? {
      run := CheckStep(p, c, step.q);
    } else if step.Commit? {
      run := CommitStep(p, c, step.q, step.ids);
    } else if step.GiveUp? {
      run := GiveUpStep(p, c, step.q);
    }
  }

  /** Every self-delete of the run is made with a token vouched for at that moment. */
  ghost predicate StepsVouched(p: Params, c: Machine, steps: seq<Step>)
    requires StepsEnabled(p, c, steps)
    decreases |steps|
  {
    steps == [] || (StepVouched(c, steps[0]) && StepsVouched(p, StepApply(p, c, steps[0]), steps[1..]))
  }

  lemma NoStaleDeleteStep(p: Params, c: Machine, step: Step)
    requires NoStaleDelete(c.open) && StepEnabled(p, c, step) && DeletesFresh(c, step)
    ensures NoStaleDelete(StepApply(p, c, step).open)
  {
  }

  lemma {:induction false} StepsRefine(p: Params, c: Machine, steps: seq<Step>) returns (run: seq<Action>)
    requires MachineInv(c) && NoStaleDelete(c.open)
    requires StepsEnabled(p, c, steps) && Retained(p, c, steps) && FreshDeletes(p, c, steps)
    ensures Leads(p, c.s, run, Steps(p, c, steps).s, StepsVouched(p, c, steps))
    decreases |steps|
  {
    run := [];
    if steps != [] {
      var c' := StepApply(p, c, steps[0]);
      var first := StepRefines(p, c, steps[0]);
      NoStaleDeleteStep(p, c, steps[0]);
      var rest := StepsRefine(p, c', steps[1..]);
      run := first + rest;
      LeadsOn(p, c.s, first, c'.s, rest, Steps(p, c, steps).s, StepsVouched(p, c, steps));
    }
  }

  lemma LeadsOn(p: Params, s: State, first: seq<Action>, mid: State, rest: seq<Action>, end: State, vouched: bool)
    requires Leads(p, s, first, mid, vouched) && Leads(p, mid, rest, end, vouched)
    ensures Leads(p, s, first + rest, end, vouched)
  {
    RunConcat(p, s, first, rest);
    if vouched {
      VouchedConcat(p, s, first, mid, rest);
    }
  }

  /** Over every run of requests that read before they lock, whatever happens between the two:
      if no publish row is reaped from under a request and deletions check fresh reads, some
      run of `Protocol` leads to the same state. Every theorem about its runs carries over. */
  lemma RetainedRowsRestoreThePremise(p: Params, c: Machine, steps: seq<Step>) returns (run: seq<Action>)
    requires MachineStart(c) && StepsEnabled(p, c, steps) && Retained(p, c, steps) && FreshDeletes(p, c, steps)
    ensures Start(c.s) && EnabledRun(p, c.s, run) && Run(p, c.s, run) == Steps(p, c, steps).s
  {
    StartInv(c.s);
    run := StepsRefine(p, c, steps);
  }

  /** So the superuser set never becomes empty. */
  lemma LastSuperuserSurvivesWhenRetained(p: Params, c: Machine, steps: seq<Step>)
    requires MachineStart(c) && StepsEnabled(p, c, steps) && Retained(p, c, steps) && FreshDeletes(p, c, steps)
    requires StepsVouched(p, c, steps) && Superusers(c.s.db.users) != {}
    ensures Superusers(Steps(p, c, steps).s.db.users) != {}
  {
    StartInv(c.s);
    var run := StepsRefine(p, c, steps);
    LastSuperuserSurvives(p, c.s, run);
  }

  // ----- stale deletions as well: all but the history of deletions is as before -----

  /** The state without its history of deletions, whose terminal generations a stale deletion
      gets wrong. */
  function Blank(s: State): State {
    s.(deleted := map[])
  }

  function Blanked(c: Machine): Machine {
    c.(s := Blank(c.s))
  }

  lemma BlankInv(c: Machine)
    requires MachineInv(c)
    ensures MachineInv(Blanked(c))
  {
    assert Inv(Blank(c.s));
  }

  /** No step but a deletion touches that history, and none reads it. */
  lemma BlankAction(p: Params, s: State, a: Action)
    requires Enabled(p, s, a) && !a.AdminCommit?
    ensures Enabled(p, Blank(s), a) && Apply(p, Blank(s), a) == Blank(Apply(p, s, a))
  {
    if OfTxn(a) {
      BlankTxn(p, s, a);
    } else if WritesUser(a) {
      BlankAccount(p, s, a);
    } else {
      BlankOther(p, s, a);
    }
  }

  lemma BlankTxn(p: Params, s: State, a: Action)
    requires Enabled(p, s, a) && OfTxn(a) && !a.AdminCommit?
    ensures Enabled(p, Blank(s), a) && Apply(p, Blank(s), a) == Blank(Apply(p, s, a))
  {
    if a.LoginRead? || a.LoginCommit? || a.LoginDeliver? {
    } else if a.RefreshBegin? || a.RefreshRotate? || a.RefreshReuse? || a.RefreshCommit? {
    } else {
    }
  }

  lemma BlankAccount(p: Params, s: State, a: Action)
    requires Enabled(p, s, a) && WritesUser(a) && !a.AdminCommit?
    ensures Enabled(p, Blank(s), a) && Apply(p, Blank(s), a) == Blank(Apply(p, s, a))
  {
  }

  lemma BlankOther(p: Params, s: State, a: Action)
    requires Enabled(p, s, a) && !OfTxn(a) && !WritesUser(a)
    ensures Enabled(p, Blank(s), a) && Apply(p, Blank(s), a) == Blank(Apply(p, s, a))
  {
    if a.Work? {
      BlankWork(p, s, a.step, a.wrote);
    }
  }

  lemma BlankWork(p: Params, s: State, step: F.Action, wrote: bool)
    requires CanWork(p, s, step)
    ensures CanWork(p, Blank(s), step) && Worked(p, Blank(s), step, wrote) == Blank(Worked(p, s, step, wrote))
  {
  }

  lemma BlankCommit(p: Params, c: Machine, q: TxnId, ids: seq<SessionId>)
    requires CanCommitRequest(c, q, ids)
    ensures CanCommitRequest(Blanked(c), q, ids) && Blank(Written(p, Blanked(c), q, ids)) == Blank(Written(p, c, q, ids))
  {
    assert Ended(Blank(c.s), q) == Blank(Ended(c.s, q));
  }

  lemma BlankStep(p: Params, c: Machine, step: Step)
    requires StepEnabled(p, c, step)
    ensures StepEnabled(p, Blanked(c), step)
    ensures Blanked(StepApply(p, Blanked(c), step)) == Blanked(StepApply(p, c, step))
  {
    if step.Base? {
      BlankAction(p, c.s, step.a);
    } else if step.Commit? {
      BlankCommit(p, c, step.q, step.ids);
    }
  }

  lemma BlankDeletedInv(s: State, id: UserId, seen: User)
    requires Inv(s) && CanWriteUser(s, id)
    ensures var s' := Blank(StaleDeletedBy(s, id, seen)); Inv(s') && s'.db.users == s.db.users - {id}
  {
    RemoveKeeps(s, id);
  }

  lemma StaleDeleteInv(p: Params, c: Machine, q: TxnId, ids: seq<SessionId>)
    requires MachineInv(c) && CanCommitRequest(c, q, ids) && StaleDeletion(c, Commit(q, ids))
    ensures MachineInv(Machine(Blank(Written(p, c, q, ids)), c.open - {q}))
  {
    var t, mid := c.open[q], Ended(c.s, q);
    assert RequestOk(q, t, c.s);
    OwnStep(p, c, Abort(q), q, mid);
    BlankDeletedInv(mid, t.user, t.seen);
    var s' := Blank(Written(p, c, q, ids));
    forall o | o in c.open && o != q
      ensures RequestOk(o, c.open[o], s')
    {
      RemovedKeepsRequest(mid, s', o, c.open[o], t.user);
    }
  }

  lemma RemovedKeepsRequest(s: State, s': State, o: TxnId, t: Request, id: UserId)
    requires Inv(s) && RequestOk(o, t, s) && id !in s.rowLocks
    requires s'.db.users == s.db.users - {id} && s'.usedIds == s.usedIds && s'.fleet == s.fleet && s'.txns == s.txns
    ensures RequestOk(o, t, s')
  {
    if o in s.txns && s.txns[o].checked {
      assert TxnOk(o, s.txns[o], s.issued, s.unsettled, s.delivered, s.rowLocks, s.policyLock, s.db.users);
    }
  }

  lemma BlankedStep(p: Params, c: Machine, step: Step)
    requires MachineInv(Blanked(c)) && StepEnabled(p, c, step) && Retains(p, c, step)
    ensures MachineInv(Blanked(StepApply(p, c, step)))
  {
    var b := Blanked(c);
    BlankStep(p, c, step);
    if StaleDeletion(b, step) {
      StaleDeleteInv(p, b, step.q, step.ids);
    } else {
      RetainsBlanked(p, c, step);
      var run := StepRefines(p, b, step);
      BlankInv(StepApply(p, b, step));
    }
  }

  lemma RetainsBlanked(p: Params, c: Machine, step: Step)
    requires StepEnabled(p, c, step) && Retains(p, c, step) && StepEnabled(p, Blanked(c), step)
    requires Blanked(StepApply(p, Blanked(c), step)) == Blanked(StepApply(p, c, step))
    ensures Retains(p, Blanked(c), step)
  {
    assert StepApply(p, Blanked(c), step).s.fleet == StepApply(p, c, step).s.fleet;
  }

  lemma {:induction false} BlankedRun(p: Params, c: Machine, steps: seq<Step>)
    requires MachineInv(Blanked(c)) && StepsEnabled(p, c, steps) && Retained(p, c, steps)
    ensures MachineInv(Blanked(Steps(p, c, steps)))
    decreases |steps|
  {
    if steps != [] {
      BlankedStep(p, c, steps[0]);
      BlankedRun(p, StepApply(p, c, steps[0]), steps[1..]);
    }
  }

  /** Over every run that retains its publish rows, stale deletions included, a token the status
      decision answers active for carries its owner's current claims. */
  lemma VouchedTokensAreCurrentWhenRetained(p: Params, c: Machine, steps: seq<Step>, jti: Jti, user: UserId)
    requires MachineStart(c) && StepsEnabled(p, c, steps) && Retained(p, c, steps)
    ensures var e := Steps(p, c, steps).s;
            Vouches(e, jti, user) ==>
              jti in e.issued && user in e.db.users && e.issued[jti] == TokenOf(user, e.db.users[user])
  {
    StartInv(c.s);
    BlankInv(c);
    BlankedRun(p, c, steps);
    var e := Steps(p, c, steps).s;
    if Vouches(e, jti, user) {
      VouchedTokenIsCurrent(Blank(e), jti, user);
    }
  }

  // ----- only a reap can take a publish row away -----

  predicate Reaps(p: Params, step: Step, row: Row) {
    step.Base? && step.a.Work? && step.a.step.Reap? && Reapable(p.worker, row, step.a.step.at)
  }

  lemma RowKept(p: Params, c: Machine, step: Step, k: RowId)
    requires MachineInv(c) && StepEnabled(p, c, step) && k in c.s.fleet.rows && !Reaps(p, step, c.s.fleet.rows[k])
    ensures var rows := StepApply(p, c, step).s.fleet.rows; k in rows && KeyOf(rows[k]) == KeyOf(c.s.fleet.rows[k])
  {
    if step.Base? {
      BaseRowKept(p, c.s, step.a, k);
    } else if step.Commit? {
      CommitRowKept(p, c, step.q, step.ids, k);
    } else {
      assert StepApply(p, c, step).s.fleet == c.s.fleet;
    }
  }

  lemma CommitRowKept(p: Params, c: Machine, q: TxnId, ids: seq<SessionId>, k: RowId)
    requires CanCommitRequest(c, q, ids) && k in c.s.fleet.rows && k < c.s.fleet.nextId
    ensures var rows := Written(p, c, q, ids).fleet.rows; k in rows && rows[k] == c.s.fleet.rows[k]
  {
  }

  lemma BaseRowKept(p: Params, s: State, a: Action, k: RowId)
    requires Inv(s) && Enabled(p, s, a) && k in s.fleet.rows && !Reaps(p, Base(a), s.fleet.rows[k])
    ensures var rows := Apply(p, s, a).fleet.rows; k in rows && KeyOf(rows[k]) == KeyOf(s.fleet.rows[k])
  {
    if a.Work? {
      F.RowsKeepIdentity(p.worker, s.fleet, a.step);
      if !a.step.Reap? && k !in Apply(p, s, a).fleet.rows {
        F.OnlyReapedRowsDisappear(p.worker, s.fleet, a.step, k);
      }
    } else {
      var quiet, id, ids := T.FleetChange(p, s, a);
    }
  }

  /** A row kept for its retention protects every request open meanwhile: a step is retaining
      unless it reaps the very publish row a request in flight would collide with. */
  lemma OnlyReapingForgets(p: Params, c: Machine, step: Step)
    requires MachineInv(c) && StepEnabled(p, c, step)
    requires forall q, k | q in c.open && k in c.s.fleet.rows && KeyOf(c.s.fleet.rows[k]) == PublishKey(c.open[q].user, c.open[q].seen) ::
               !Reaps(p, step, c.s.fleet.rows[k])
    ensures Retains(p, c, step)
  {
    forall q | q in c.open && HasKey(c.s.fleet.rows, PublishKey(c.open[q].user, c.open[q].seen))
      ensures HasKey(StepApply(p, c, step).s.fleet.rows, PublishKey(c.open[q].user, c.open[q].seen))
    {
      var k :| k in c.s.fleet.rows && KeyOf(c.s.fleet.rows[k]) == PublishKey(c.open[q].user, c.open[q].seen);
      RowKept(p, c, step, k);
    }
  }
}
