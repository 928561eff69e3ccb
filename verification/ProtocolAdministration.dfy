/** Administration over every run: the last superuser, all-or-nothing changes, and the
    outbox key. */
module ProtocolAdministration {
  import opened Basics
  import opened OutboxRows
  import opened Authorization
  import opened Protocol
  import opened ProtocolInvariant
  import opened ProtocolTheorems
  import F = OutboxFleet

  // ----- the last superuser -----

  predicate Leaves(u: User, op: Op) {
    match op
    case Delete => IsActiveCanonicalSuperuser(u)
    case Change(upd) => WouldLeaveSet(u, upd)
  }

  /** A transaction past its guards that takes its target out of the set leaves another
      member behind, and the policy lock keeps that so until it commits. */
  ghost predicate GuardsHold(txns: map<TxnId, Txn>, users: Users) {
    forall r | r in txns && txns[r].Admin? && txns[r].checked && txns[r].user in users ::
      Leaves(users[txns[r].user], txns[r].op) ==> exists id | id in users && id != txns[r].user :: IsActiveCanonicalSuperuser(users[id])
  }

  /** Steps that take no policy lock can only grow the set, and leave locked rows alone. */
  lemma UnlockedStepsOnlyGrowTheSet(p: Params, s: State, a: Action)
    requires Inv(s) && Enabled(p, s, a) && !a.AdminCommit? && !a.SelfDelete?
    ensures Superusers(s.db.users) <= Superusers(Apply(p, s, a).db.users)
    ensures forall id | id in s.db.users && id in s.rowLocks :: Untouched(s, Apply(p, s, a), id)
  {
    if a.CreateUser? {
    } else if a.EditProfile? {
    } else if a.Repair? {
    } else {
      UsersStay(p, s, a);
    }
  }

  predicate Untouched(s: State, s': State, id: UserId) {
    id in s.db.users && id in s'.db.users && s'.db.users[id] == s.db.users[id]
  }

  /** A row locked by one transaction is left alone by the steps of every other. */
  lemma LockedRowStays(p: Params, s: State, a: Action, id: UserId)
    requires Inv(s) && Enabled(p, s, a) && id in s.rowLocks && id in s.db.users
    requires a.AdminCommit? ==> s.rowLocks[id] != a.r
    ensures Untouched(s, Apply(p, s, a), id)
  {
    if a.AdminCommit? {
      assert TxnOk(a.r, s.txns[a.r], s.issued, s.unsettled, s.delivered, s.rowLocks, s.policyLock, s.db.users);
      OthersUntouched(p, s, a.r, a.ids);
    } else if !a.SelfDelete? {
      UnlockedStepsOnlyGrowTheSet(p, s, a);
    }
  }

  lemma GuardsGrow(p: Params, s: State, a: Action)
    requires Inv(s) && GuardsHold(s.txns, s.db.users) && Enabled(p, s, a) && !a.AdminCommit? && !a.SelfDelete? && !a.AdminCheck?
    ensures var s' := Apply(p, s, a); GuardsHold(s'.txns, s'.db.users)
  {
    var s' := Apply(p, s, a);
    UnlockedStepsOnlyGrowTheSet(p, s, a);
    forall r | r in s'.txns && s'.txns[r].Admin? && s'.txns[r].checked && s'.txns[r].user in s'.db.users
      && Leaves(s'.db.users[s'.txns[r].user], s'.txns[r].op)
      ensures exists id | id in s'.db.users && id != s'.txns[r].user :: IsActiveCanonicalSuperuser(s'.db.users[id])
    {
      SameAdmin(p, s, a, r);
      var t := s.txns[r];
      assert TxnOk(r, t, s.issued, s.unsettled, s.delivered, s.rowLocks, s.policyLock, s.db.users);
      assert Untouched(s, s', t.user);
      var id :| id in s.db.users && id != t.user && IsActiveCanonicalSuperuser(s.db.users[id]);
      assert id in Superusers(s.db.users);
      assert id in Superusers(s'.db.users);
    }
  }

  lemma SameAdmin(p: Params, s: State, a: Action, r: TxnId)
    requires Enabled(p, s, a) && !a.AdminCheck?
    requires var s' := Apply(p, s, a); r in s'.txns && s'.txns[r].Admin? && s'.txns[r].checked
    ensures r in s.txns && s.txns[r] == Apply(p, s, a).txns[r]
  {
    if !OfTxn(a) {
      TxnsStay(p, s, a);
    } else if a.AdminBegin? || a.AdminCommit? || a.Abort? {
      SameAdminLeft(p, s, a, r);
    } else {
      NoAdminAdded(p, s, a, r);
    }
  }

  lemma SameAdminLeft(p: Params, s: State, a: Action, r: TxnId)
    requires Enabled(p, s, a) && (a.AdminBegin? || a.AdminCommit? || a.Abort?)
    requires var s' := Apply(p, s, a); r in s'.txns && s'.txns[r].Admin? && s'.txns[r].checked
    ensures r in s.txns && s.txns[r] == Apply(p, s, a).txns[r]
  {
    if a.AdminCommit? {
      assert Apply(p, s, a).txns == s.txns - {a.r};
    }
  }

  lemma NoAdminAdded(p: Params, s: State, a: Action, r: TxnId)
    requires Enabled(p, s, a) && OfTxn(a) && !a.AdminBegin? && !a.AdminCheck? && !a.AdminCommit? && !a.Abort?
    requires r in Apply(p, s, a).txns && Apply(p, s, a).txns[r].Admin?
    ensures r in s.txns && s.txns[r] == Apply(p, s, a).txns[r]
  {
    if a.LoginRead? || a.LoginCommit? || a.LoginDeliver? {
    } else {
    }
  }

  lemma GuardsAtCheck(s: State, r: TxnId)
    requires Inv(s) && GuardsHold(s.txns, s.db.users) && CanCheckAdmin(s, r)
    ensures GuardsHold(CheckedAdmin(s, r).txns, s.db.users)
  {
    var t := s.txns[r];
    if Leaves(s.db.users[t.user], t.op) {
      var others := Superusers(s.db.users) - {t.user};
      assert others != {};
      var id :| id in others;
      assert id in s.db.users && id != t.user && IsActiveCanonicalSuperuser(s.db.users[id]);
    }
  }

  /** A commit that passed its guards leaves a superuser: the target, or another. */
  lemma CommitKeepsSuperuser(p: Params, s: State, r: TxnId, ids: seq<SessionId>)
    requires Inv(s) && GuardsHold(s.txns, s.db.users) && CanCommitAdmin(s, r, ids)
    requires Superusers(s.db.users) != {}
    ensures Superusers(CommittedAdmin(p, s, r, ids).db.users) != {}
  {
    var t := s.txns[r];
    OthersUntouched(p, s, r, ids);
    var after := CommittedAdmin(p, s, r, ids).db.users;
    if Leaves(s.db.users[t.user], t.op) {
      var id :| id in s.db.users && id != t.user && IsActiveCanonicalSuperuser(s.db.users[id]);
      assert id in Superusers(after);
    } else {
      var id :| id in Superusers(s.db.users);
      assert id in Superusers(after);
    }
  }

  lemma OthersUntouched(p: Params, s: State, r: TxnId, ids: seq<SessionId>)
    requires CanCommitAdmin(s, r, ids)
    ensures var t := s.txns[r];
            var after := CommittedAdmin(p, s, r, ids).db.users;
            && (forall id | id in s.db.users && id != t.user :: id in after && after[id] == s.db.users[id])
            && (IsActiveCanonicalSuperuser(s.db.users[t.user]) && !Leaves(s.db.users[t.user], t.op) ==>
                  t.user in after && IsActiveCanonicalSuperuser(after[t.user]))
  {
    var t := s.txns[r];
    if t.op.Change? {
      ChangeTouchesOne(s.db, t.user, t.op.upd);
    }
  }

  lemma ChangeTouchesOne(db: Db, id: UserId, upd: Update)
    requires id in db.users
    ensures var after := ChangedDb(db, id, upd).users;
            && (forall k | k in db.users && k != id :: k in after && after[k] == db.users[k])
            && (IsActiveCanonicalSuperuser(db.users[id]) && !WouldLeaveSet(db.users[id], upd) ==>
                  id in after && IsActiveCanonicalSuperuser(after[id]))
  {
  }

  /** No other transaction is past its guards while this one commits. */
  lemma GuardsAfterCommit(p: Params, s: State, r: TxnId, ids: seq<SessionId>)
    requires Inv(s) && CanCommitAdmin(s, r, ids)
    ensures var e := CommittedAdmin(p, s, r, ids); GuardsHold(e.txns, e.db.users)
  {
    forall q | q in s.txns && s.txns[q].Admin?
      ensures q == r
    {
      assert TxnOk(q, s.txns[q], s.issued, s.unsettled, s.delivered, s.rowLocks, s.policyLock, s.db.users);
      assert TxnOk(r, s.txns[r], s.issued, s.unsettled, s.delivered, s.rowLocks, s.policyLock, s.db.users);
    }
  }

  /** A self-delete made with a token the status decision vouches for: its claims are the
      row's, so the route's guard on the claims keeps every member of the set. */
  lemma VouchedSelfDeleteKeepsSet(s: State, jti: Jti)
    requires Inv(s) && jti in s.issued && Vouches(s, jti, s.issued[jti].sub)
    ensures Superusers(SelfDeleted(s, jti).db.users) == Superusers(s.db.users)
  {
    VouchedTokenIsCurrent(s, jti, s.issued[jti].sub);
  }

  lemma GuardsAfterSelfDelete(s: State, jti: Jti, asked: bool)
    requires Inv(s) && GuardsHold(s.txns, s.db.users) && CanSelfDelete(s, jti, asked)
    requires Vouches(s, jti, s.issued[jti].sub)
    ensures GuardsHold(s.txns, SelfDeleted(s, jti).db.users)
  {
    VouchedSelfDeleteKeepsSet(s, jti);
    var users := SelfDeleted(s, jti).db.users;
    forall r | r in s.txns && s.txns[r].Admin? && s.txns[r].checked && s.txns[r].user in users
      && Leaves(users[s.txns[r].user], s.txns[r].op)
      ensures exists id | id in users && id != s.txns[r].user :: IsActiveCanonicalSuperuser(users[id])
    {
      var id :| id in s.db.users && id != s.txns[r].user && IsActiveCanonicalSuperuser(s.db.users[id]);
      assert id in Superusers(s.db.users);
      assert id in Superusers(users);
    }
  }

  /** Whether a step is no self-delete, or one with a vouched-for token. */
  ghost predicate SelfDeleteVouched(s: State, a: Action) {
    a.SelfDelete? && a.jti in s.issued ==> Vouches(s, a.jti, s.issued[a.jti].sub)
  }

  lemma SuperuserStep(p: Params, s: State, a: Action)
    requires Inv(s) && GuardsHold(s.txns, s.db.users) && Enabled(p, s, a) && SelfDeleteVouched(s, a)
    ensures var s' := Apply(p, s, a);
            && GuardsHold(s'.txns, s'.db.users)
            && (Superusers(s.db.users) != {} ==> Superusers(s'.db.users) != {})
  {
    if a.AdminCommit? {
      GuardsAfterCommit(p, s, a.r, a.ids);
      if Superusers(s.db.users) != {} {
        CommitKeepsSuperuser(p, s, a.r, a.ids);
      }
    } else if a.SelfDelete? {
      VouchedSelfDeleteKeepsSet(s, a.jti);
      GuardsAfterSelfDelete(s, a.jti, a.asked);
    } else {
      UnlockedStepsOnlyGrowTheSet(p, s, a);
      if a.AdminCheck? {
        GuardsAtCheck(s, a.r);
      } else {
        GuardsGrow(p, s, a);
      }
    }
  }

  /** Every self-delete of the run is made with a token vouched for at that moment. */
  ghost predicate SelfDeletesVouched(p: Params, s: State, run: seq<Action>)
    requires EnabledRun(p, s, run)
    decreases |run|
  {
    run == [] || (SelfDeleteVouched(s, run[0]) && SelfDeletesVouched(p, Apply(p, s, run[0]), run[1..]))
  }

  lemma {:induction false} SuperuserRun(p: Params, s: State, run: seq<Action>)
    requires Inv(s) && GuardsHold(s.txns, s.db.users) && EnabledRun(p, s, run) && SelfDeletesVouched(p, s, run)
    requires Superusers(s.db.users) != {}
    ensures Superusers(Run(p, s, run).db.users) != {}
    decreases |run|
  {
    if run != [] {
      StepInv(p, s, run[0]);
      SuperuserStep(p, s, run[0]);
      SuperuserRun(p, Apply(p, s, run[0]), run[1..]);
    }
  }

  /** Over every interleaving of changes and deletions, in their separate lock, check and
      commit steps, with steps that take no lock and with self-deletes made with vouched-for
      tokens, the set of active canonical superusers never becomes empty. */
  lemma LastSuperuserSurvives(p: Params, s: State, run: seq<Action>)
    requires Start(s) && EnabledRun(p, s, run) && SelfDeletesVouched(p, s, run) && Superusers(s.db.users) != {}
    ensures Superusers(Run(p, s, run).db.users) != {}
  {
    StartInv(s);
    SuperuserRun(p, s, run);
  }

  // ----- the self-service delete with an outdated token -----

  /** The self-service delete trusts the claims of its token. It empties the set exactly when
      the account is the one remaining member and the token does not say so. */
  lemma SelfDeleteEmptiesIff(s: State, jti: Jti)
    requires jti in s.issued && Superusers(s.db.users) != {}
    ensures Superusers(SelfDeleted(s, jti).db.users) == {}
            <==> && Superusers(s.db.users) == {s.issued[jti].sub}
                 && !HasSuperuserPrivileges(s.issued[jti].role, s.issued[jti].isSuperuser)
  {
    var id := s.issued[jti].sub;
    if SelfDeletes(s, jti) {
      assert Superusers(SelfDeleted(s, jti).db.users) == Superusers(s.db.users) - {id};
      if Superusers(s.db.users) - {id} == {} {
        assert Superusers(s.db.users) <= {id};
      }
    } else if Superusers(s.db.users) == {id} {
      assert id in Superusers(s.db.users);
    }
  }

  /** Account 1 is the superuser, account 0 is not. */
  function TwoAccounts(): State {
    State(
      Db(map[0 := User(Ranked(0), false, true, 1, 0), 1 := User(SuperAdmin, true, true, 1, 0)], map[], map[], map[], 0),
      F.Fleet(0.0, map[], 0, map[], {}), map[], {}, None, map[], map[], {}, map[], {}, {}, multiset{}, {0, 1}, map[])
  }

  function Promotion(): Update { Update(Set(SuperAdmin), Unset, None) }

  function Demotion(): Update { Update(Set(Ranked(0)), Unset, None) }

  /** What one login of account 0, row 7 and token 1, leaves. */
  predicate LoggedIn(s: State, e: State) {
    && 0 in s.db.users
    && e == s.(db := s.db.(sessions := map[7 := ClientSession(0, 1, Some(1), false, 9.0, 9.0)]),
               issued := map[1 := TokenOf(0, s.db.users[0])], delivered := {1}, allowlist := {1})
  }

  lemma LoginOfAccount0(p: Params, s: State) returns (run: seq<Action>)
    requires s == TwoAccounts()
    ensures EnabledRun(p, s, run) && LoggedIn(s, Run(p, s, run))
  {
    var s1 := Apply(p, s, LoginRead(5, 0, 1));
    var s2 := Apply(p, s1, LoginCommit(5, 7, 9.0, 9.0));
    run := Extend(p, s, [], s, LoginRead(5, 0, 1));
    run := Extend(p, s, run, s1, LoginCommit(5, 7, 9.0, 9.0));
    run := Extend(p, s, run, s2, LoginDeliver(5, true));
  }

  /** A request alone: nothing is locked or in flight. */
  predicate Quiet(s: State) {
    s.txns == map[] && s.rowLocks == map[] && s.policyLock == None
  }

  /** The whole transaction of one change that captures the sessions `ids`. */
  lemma WholeChange(p: Params, s: State, r: TxnId, actor: UserId, id: UserId, upd: Update, ids: seq<SessionId>) returns (run: seq<Action>)
    requires Quiet(s) && AffectsSet(Change(upd)) && id in s.db.users
    requires ChangeRefusal(s.db, actor, id, upd).None? && Lists(ids, ActiveSessions(s.db, id, s.fleet.now))
    ensures EnabledRun(p, s, run) && Run(p, s, run) == ChangedBy(p, s, id, upd, ids)
  {
    var begun := Apply(p, s, AdminBegin(r, actor, id, Change(upd)));
    var checked := Apply(p, begun, AdminCheck(r));
    assert Ended(checked, r) == s;
    run := Extend(p, s, [], s, AdminBegin(r, actor, id, Change(upd)));
    run := Extend(p, s, run, begun, AdminCheck(r));
    run := Extend(p, s, run, checked, AdminCommit(r, ids));
  }

  /** Such a run exists: account 0 logs in, account 1 promotes it and is then demoted, and the
      old token deletes account 0 before its blacklist effect is drained. */
  lemma OutdatedTokenEmptiesSet(p: Params) returns (s: State, run: seq<Action>, last: Action)
    ensures Start(s) && Superusers(s.db.users) != {}
    ensures EnabledRun(p, s, run) && Superusers(Run(p, s, run).db.users) != {}
    ensures last == SelfDelete(1, true) && Enabled(p, Run(p, s, run), last)
    ensures Superusers(Apply(p, Run(p, s, run), last).db.users) == {}
  {
    s := TwoAccounts();
    assert 1 in Superusers(s.db.users);
    var login := LoginOfAccount0(p, s);
    var s1 := Run(p, s, login);
    var promote, s2 := PromoteAccount0(p, s, s1);
    var demote, s3 := DemoteAccount1(p, s2);
    RunConcat(p, s, login, promote);
    RunConcat(p, s, login + promote, demote);
    run := login + promote + demote;
    last := SelfDelete(1, true);
    SelfDeleteEmptiesIff(s3, 1);
  }

  lemma PromoteAccount0(p: Params, s: State, s1: State) returns (run: seq<Action>, s2: State)
    requires s == TwoAccounts() && LoggedIn(s, s1)
    ensures EnabledRun(p, s1, run) && Run(p, s1, run) == s2
    ensures Quiet(s2) && s2.issued == s1.issued && s2.delivered == {1} && s2.blacklist == map[]
    ensures s2.db.users == map[0 := User(SuperAdmin, true, true, 2, 0), 1 := s.db.users[1]] && s2.db.sessions == map[]
  {
    assert ActiveSessions(s1.db, 0, s1.fleet.now) == {7};
    run := WholeChange(p, s1, 6, 1, 0, Promotion(), [7]);
    s2 := Run(p, s1, run);
    assert s2.db == ChangedDb(s1.db, 0, Promotion());
  }

  lemma DemoteAccount1(p: Params, s2: State) returns (run: seq<Action>, s3: State)
    requires Quiet(s2) && s2.db.sessions == map[]
    requires s2.db.users == map[0 := User(SuperAdmin, true, true, 2, 0), 1 := User(SuperAdmin, true, true, 1, 0)]
    ensures EnabledRun(p, s2, run) && Run(p, s2, run) == s3 && Quiet(s3)
    ensures s3.issued == s2.issued && s3.delivered == s2.delivered && s3.blacklist == s2.blacklist
    ensures 0 in s3.db.users && Superusers(s3.db.users) == {0}
  {
    assert 0 in Superusers(s2.db.users) - {1};
    run := WholeChange(p, s2, 6, 0, 1, Demotion(), []);
    s3 := Run(p, s2, run);
    assert s3.db == ChangedDb(s2.db, 1, Demotion());
    assert IsActiveCanonicalSuperuser(s3.db.users[0]) && !IsActiveCanonicalSuperuser(s3.db.users[1]);
  }

  // ----- all or nothing -----

  /** A committed change either is an authorization transition (next generation, no
      session row left, one publish row and one blacklist row per captured session) or
      touches none of these; and it is a transition exactly when the role or the
      activation of the row changed. */
  lemma ChangeIsAllOrNothing(db: Db, actor: UserId, id: UserId, upd: Update, ids: seq<SessionId>, now: real)
    requires id in db.users && Lists(ids, ActiveSessions(db, id, now))
    requires ChangeOutcome(db, actor, id, upd, ids).Committed?
    ensures var Committed(d, rows) := ChangeOutcome(db, actor, id, upd, ids);
            && d.users.Keys == db.users.Keys && d.tombstones == db.tombstones
            && (forall k | k in db.users && k != id :: d.users[k] == db.users[k])
            && (rows != [] <==> d.users[id].role != db.users[id].role || d.users[id].isActive != db.users[id].isActive)
            && (rows == [] ==>
                  && d.users[id].generation == db.users[id].generation
                  && d == db.(users := d.users))
            && (rows != [] ==>
                  && d.users[id].generation == db.users[id].generation + 1 <= GENERATION_MAX
                  && d.revision == db.revision + 1
                  && d.sessions == (map k | k in db.sessions && db.sessions[k].owner != id :: db.sessions[k])
                  && |rows| == |ActiveSessions(db, id, now)| + 1
                  && (forall k | k in ActiveSessions(db, id, now) ::
                        NewRow(id, d.users[id].generation, Blacklist(db.sessions[k].jti, db.sessions[k].jwtExpiresAt)) in rows)
                  && rows[|rows| - 1] == NewRow(id, d.users[id].generation, Publish))
  {
    var active := ActiveSessions(db, id, now);
    ListSize(ids, active);
    WritesAre(db, id, upd, ChangedDb(db, id, upd));
    EnqueuedAre(db, id, upd, ids, active, ChangeOutcome(db, actor, id, upd, ids).enqueued);
  }

  lemma EnqueuedAre(db: Db, id: UserId, upd: Update, ids: seq<SessionId>, active: set<SessionId>, rows: seq<Row>)
    requires id in db.users && Lists(ids, active) && active <= db.sessions.Keys && |ids| == |active|
    requires rows == if AuthorizationChanged(db.users[id], upd) then Effects(db, id, db.users[id].generation + 1, ids) else []
    ensures rows != [] <==> AuthorizationChanged(db.users[id], upd)
    ensures rows != [] ==>
              var generation := db.users[id].generation + 1;
              && |rows| == |active| + 1 && rows[|rows| - 1] == NewRow(id, generation, Publish)
              && forall k | k in active :: NewRow(id, generation, Blacklist(db.sessions[k].jti, db.sessions[k].jwtExpiresAt)) in rows
  {
    EffectsOfEach(db, id, db.users[id].generation + 1, ids, active);
  }

  lemma WritesAre(db: Db, id: UserId, upd: Update, d: Db)
    requires id in db.users && d == ChangedDb(db, id, upd)
    ensures d.users.Keys == db.users.Keys && d.tombstones == db.tombstones
    ensures forall k | k in db.users && k != id :: d.users[k] == db.users[k]
    ensures AuthorizationChanged(db.users[id], upd) <==> d.users[id].role != db.users[id].role || d.users[id].isActive != db.users[id].isActive
    ensures !AuthorizationChanged(db.users[id], upd) ==>
              d.users[id].generation == db.users[id].generation && d == db.(users := d.users)
    ensures AuthorizationChanged(db.users[id], upd) ==>
              && d.users[id].generation == db.users[id].generation + 1 && d.revision == db.revision + 1
              && d.sessions == (map k | k in db.sessions && db.sessions[k].owner != id :: db.sessions[k])
  {
  }

  lemma EffectsOfEach(db: Db, id: UserId, generation: nat, ids: seq<SessionId>, active: set<SessionId>)
    requires Lists(ids, active) && active <= db.sessions.Keys
    ensures var rows := Effects(db, id, generation, ids);
            && (forall k | k in active :: NewRow(id, generation, Blacklist(db.sessions[k].jti, db.sessions[k].jwtExpiresAt)) in rows)
            && rows[|rows| - 1] == NewRow(id, generation, Publish)
  {
    var rows := Effects(db, id, generation, ids);
    forall k | k in active
      ensures NewRow(id, generation, Blacklist(db.sessions[k].jti, db.sessions[k].jwtExpiresAt)) in rows
    {
      var i :| 0 <= i < |ids| && ids[i] == k;
      assert rows[i] == NewRow(id, generation, Blacklist(db.sessions[k].jti, db.sessions[k].jwtExpiresAt));
    }
  }

  lemma {:induction false} ListSize(ids: seq<SessionId>, s: set<SessionId>)
    requires Lists(ids, s)
    ensures |ids| == |s|
  {
    if ids == [] {
      assert s == {};
    } else {
      var n := |ids| - 1;
      var rest := s - {ids[n]};
      assert ids == ids[..n] + [ids[n]];
      ListSize(ids[..n], rest);
    }
  }

  /** Deactivation revokes every key of the owner, and nothing a change commits ever
      clears the flag of a revoked key or touches another owner's keys. */
  lemma KeysOnlyRevokedByDeactivation(db: Db, actor: UserId, id: UserId, upd: Update, ids: seq<SessionId>, k: nat)
    requires id in db.users && (forall i | 0 <= i < |ids| :: ids[i] in db.sessions) && k in db.keys
    requires ChangeOutcome(db, actor, id, upd, ids).Committed?
    ensures var d := ChangeOutcome(db, actor, id, upd, ids).db;
            && k in d.keys && d.keys[k].owner == db.keys[k].owner
            && d.keys[k].revoked == (db.keys[k].revoked
                 || (db.keys[k].owner == id && db.users[id].isActive && !d.users[id].isActive))
  {
  }

  /** Over every run no two outbox rows share (user, generation, effect, target), so no
      enqueue ever violates the unique constraint; each row's generation is at most its
      account's. */
  lemma OutboxKeysStayUnique(p: Params, s: State, run: seq<Action>, a: RowId, b: RowId)
    requires Start(s) && EnabledRun(p, s, run)
    requires var e := Run(p, s, run); a in e.fleet.rows && b in e.fleet.rows
    ensures var e := Run(p, s, run);
            && (a != b ==> KeyOf(e.fleet.rows[a]) != KeyOf(e.fleet.rows[b]))
            && (e.fleet.rows[a].user in e.db.users ==> e.fleet.rows[a].generation <= e.db.users[e.fleet.rows[a].user].generation)
  {
    StartInv(s);
    RunInv(p, s, run);
  }
}
