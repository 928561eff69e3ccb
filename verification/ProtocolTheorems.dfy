/** What the protocol guarantees over every run. */
module ProtocolTheorems {
  import opened Basics
  import opened OutboxRows
  import opened Authorization
  import opened Protocol
  import opened ProtocolInvariant
  import F = OutboxFleet

  // ----- the invariant over runs -----

  /** The steps of requests in flight; no other touches the transaction table. */
  predicate OfTxn(a: Action) {
    || a.LoginRead? || a.LoginCommit? || a.LoginDeliver?
    || a.RefreshBegin? || a.RefreshRotate? || a.RefreshReuse? || a.RefreshCommit?
    || a.AdminBegin? || a.AdminCheck? || a.AdminCommit? || a.Abort?
  }

  lemma TxnsStay(p: Params, s: State, a: Action)
    requires Enabled(p, s, a) && !OfTxn(a)
    ensures Apply(p, s, a).txns == s.txns
  {
  }

  lemma StepInv(p: Params, s: State, a: Action)
    requires Inv(s) && Enabled(p, s, a)
    ensures Inv(Apply(p, s, a))
  {
    if OfTxn(a) {
      TxnStepInv(p, s, a);
    } else if a.CreateUser? {
      CreateUserInv(s, a.user, a.role, a.active, a.profile);
    } else if a.EditProfile? {
      EditProfileInv(s, a.user, a.profile);
    } else if a.Repair? {
      RepairInv(p, s, a.user, a.role, a.ids);
    } else if a.SelfDelete? {
      SelfDeleteInv(s, a.jti, a.asked);
    } else if a.DropSessions? {
      DropSessionsInv(s, a.rows, a.captured);
    } else if a.Logout? {
      LogoutInv(s, a.jti);
    } else {
      BackgroundInv(p, s, a);
    }
  }

  lemma TxnStepInv(p: Params, s: State, a: Action)
    requires Inv(s) && Enabled(p, s, a) && OfTxn(a)
    ensures Inv(Apply(p, s, a))
  {
    if a.LoginRead? {
      ReadLoginInv(s, a.r, a.user, a.jti);
    } else if a.LoginCommit? {
      CommitLoginInv(s, a.r, a.row, a.jwtExp, a.refreshExp);
    } else if a.LoginDeliver? {
      DeliverLoginInv(s, a.r, a.registered);
    } else if a.RefreshBegin? {
      BeginRefreshInv(s, a.r, a.oldJti, a.newJti, a.viaRedis);
    } else if a.RefreshRotate? {
      RotateInv(s, a.r);
    } else if a.RefreshReuse? {
      ReuseInv(s, a.r);
    } else if a.RefreshCommit? {
      CommitRefreshInv(s, a.r, a.row, a.jwtExp, a.refreshExp);
    } else if a.AdminBegin? {
      BeginAdminInv(s, a.r, a.actor, a.user, a.op);
    } else if a.AdminCheck? {
      CheckAdminInv(s, a.r);
    } else if a.AdminCommit? {
      CommitAdminInv(p, s, a.r, a.ids);
    } else if a.Abort? {
      AbortInv(s, a.r);
    }
  }

  lemma BackgroundInv(p: Params, s: State, a: Action)
    requires Inv(s) && Enabled(p, s, a)
    requires a.ApplyEffect? || a.ForgetEffect? || a.Work? || a.CleanTombstones? || a.RedisLoss?
    ensures Inv(Apply(p, s, a))
  {
    if a.ApplyEffect? {
      ApplyEffectInv(s, a.jti, a.ttl, a.drop);
    } else if a.ForgetEffect? {
      ForgetInv(s, s.effects - {a.jti}, s.allowlist, s.blacklist);
    } else if a.Work? {
      WorkInv(p, s, a.step, a.wrote);
    } else if a.CleanTombstones? {
      CleanInv(p, s);
    } else if a.RedisLoss? {
      ForgetInv(s, s.effects, s.allowlist - a.allow, s.blacklist - a.black);
    }
  }

  lemma ForgetInv(s: State, effects: set<Jti>, allowlist: set<Jti>, blacklist: map<Jti, real>)
    requires Inv(s) && effects <= s.effects && blacklist.Keys <= s.blacklist.Keys
    ensures Inv(s.(effects := effects, allowlist := allowlist, blacklist := blacklist))
  {
  }

  lemma {:induction false} RunInv(p: Params, s: State, run: seq<Action>)
    requires Inv(s) && EnabledRun(p, s, run)
    ensures Inv(Run(p, s, run))
    decreases |run|
  {
    if run != [] {
      StepInv(p, s, run[0]);
      RunInv(p, Apply(p, s, run[0]), run[1..]);
    }
  }

  lemma {:induction false} RunAppend(p: Params, s: State, run: seq<Action>, a: Action)
    requires EnabledRun(p, s, run) && Enabled(p, Run(p, s, run), a)
    ensures EnabledRun(p, s, run + [a]) && Run(p, s, run + [a]) == Apply(p, Run(p, s, run), a)
    decreases |run|
  {
    if run == [] {
      assert run + [a] == [a] && [a][1..] == [];
    } else {
      RunAppend(p, Apply(p, s, run[0]), run[1..], a);
      assert (run + [a])[1..] == run[1..] + [a];
    }
  }

  lemma {:induction false} RunConcat(p: Params, s: State, first: seq<Action>, second: seq<Action>)
    requires EnabledRun(p, s, first) && EnabledRun(p, Run(p, s, first), second)
    ensures EnabledRun(p, s, first + second) && Run(p, s, first + second) == Run(p, Run(p, s, first), second)
    decreases |first|
  {
    if first == [] {
      assert first + second == second;
    } else {
      RunConcat(p, Apply(p, s, first[0]), first[1..], second);
      assert (first + second)[1..] == first[1..] + second;
    }
  }

  /** One more step of a run that has reached `at`. */
  lemma Extend(p: Params, s: State, run: seq<Action>, at: State, a: Action) returns (longer: seq<Action>)
    requires EnabledRun(p, s, run) && Run(p, s, run) == at && Enabled(p, at, a)
    ensures EnabledRun(p, s, longer) && Run(p, s, longer) == Apply(p, at, a)
  {
    longer := run + [a];
    RunAppend(p, s, run, a);
  }

  // ----- race-proof revocation -----

  /** Under the invariant the ordered decision reduces to one live row. */
  ghost predicate LiveRow(db: Db, jti: Jti, user: UserId) {
    user in db.users && exists id | id in db.sessions :: IsLive(db.sessions[id], jti, user, db.users[user].generation)
  }

  predicate IsLive(row: ClientSession, jti: Jti, user: UserId, generation: nat) {
    row.jti == jti && row.owner == user && !row.revoked && row.stamp == Some(generation)
  }

  lemma VouchesIffLive(s: State, jti: Jti, user: UserId)
    requires Inv(s)
    ensures Vouches(s, jti, user) <==> LiveRow(s.db, jti, user)
  {
    var found := SessionOf(s.db.sessions, jti);
    if LiveRow(s.db, jti, user) {
      var id :| id in s.db.sessions && IsLive(s.db.sessions[id], jti, user, s.db.users[user].generation);
      var row := s.db.sessions[id];
      assert RowOk(row, s.db.users, s.issued, s.unsettled);
      assert TokenAgrees(s.issued[jti], s.db.users[user]);
      assert found == Some(row);
    }
  }

  lemma VouchedTokenIsCurrent(s: State, jti: Jti, user: UserId)
    requires Inv(s) && Vouches(s, jti, user)
    ensures jti in s.issued && user in s.db.users && s.issued[jti] == TokenOf(user, s.db.users[user])
  {
    VouchesIffLive(s, jti, user);
    var id :| id in s.db.sessions && IsLive(s.db.sessions[id], jti, user, s.db.users[user].generation);
    assert RowOk(s.db.sessions[id], s.db.users, s.issued, s.unsettled);
    assert TokenAgrees(s.issued[jti], s.db.users[user]);
  }

  /** Over every run, a token the status decision answers active for carries exactly the
      role, superuser flag and activation of its owner's current row. */
  lemma VouchedTokensAreCurrent(p: Params, s: State, run: seq<Action>, jti: Jti, user: UserId)
    requires Start(s) && EnabledRun(p, s, run)
    ensures var e := Run(p, s, run);
            Vouches(e, jti, user) ==>
              jti in e.issued && user in e.db.users && e.issued[jti] == TokenOf(user, e.db.users[user])
  {
    StartInv(s);
    RunInv(p, s, run);
    if Vouches(Run(p, s, run), jti, user) {
      VouchedTokenIsCurrent(Run(p, s, run), jti, user);
    }
  }

  /** A login that read its account before a concurrent change and commits after it is
      vouched for exactly when no transition intervened. */
  lemma SlowLoginVouchedIffUnchanged(p: Params, s: State, r: TxnId, row: SessionId, jwtExp: real, refreshExp: real)
    requires Inv(s) && Enabled(p, s, LoginCommit(r, row, jwtExp, refreshExp))
    requires row in s.db.sessions ==> !s.db.sessions[row].revoked
    ensures var t := s.txns[r];
            var e := Apply(p, s, LoginCommit(r, row, jwtExp, refreshExp));
            Vouches(e, t.jti, t.user) <==> s.db.users[t.user].generation == t.snapshot.generation
  {
    var t := s.txns[r];
    var e := Apply(p, s, LoginCommit(r, row, jwtExp, refreshExp));
    StepInv(p, s, LoginCommit(r, row, jwtExp, refreshExp));
    VouchesIffLive(e, t.jti, t.user);
    assert e.db.sessions[row].jti == t.jti;
    assert TxnOk(r, t, s.issued, s.unsettled, s.delivered, s.rowLocks, s.policyLock, s.db.users);
    if s.db.users[t.user].generation == t.snapshot.generation {
      assert IsLive(e.db.sessions[row], t.jti, t.user, e.db.users[t.user].generation);
    }
  }

  // ----- the cache agrees with the database -----

  /** Over every run the Redis step of the status check never changes the answer: Redis
      up, down, expired or flushed, it is the database decision. */
  lemma RedisNeverChangesTheAnswer(p: Params, s: State, run: seq<Action>, jti: Jti, user: UserId, hasRedis: bool)
    requires Start(s) && EnabledRun(p, s, run)
    ensures var e := Run(p, s, run);
            AnswersActive(e, jti, user, hasRedis) <==> Vouches(e, jti, user)
  {
    StartInv(s);
    RunInv(p, s, run);
    var e := Run(p, s, run);
    VouchesIffLive(e, jti, user);
    assert jti in e.blacklist ==> Gone(jti, e.db.sessions, e.issued, e.unsettled);
  }

  // ----- revocation is permanent -----

  predicate Settled(s: State, jti: Jti) {
    jti in s.issued && jti !in s.unsettled
  }

  /** A step keeps a session row, and the generation it is measured against, as they are,
      or removes the row, or writes a row for a token that had none yet. */
  ghost predicate NoRevival(before: Db, after: Db, unsettled: set<Jti>) {
    forall id | id in after.sessions && after.sessions[id].jti !in unsettled ::
      && id in before.sessions && after.sessions[id] == before.sessions[id]
      && var owner := after.sessions[id].owner;
         owner in after.users ==> owner in before.users && after.users[owner].generation == before.users[owner].generation
  }

  /** Steps that write an account row. */
  predicate WritesUser(a: Action) {
    a.CreateUser? || a.EditProfile? || a.Repair? || a.AdminCommit? || a.SelfDelete?
  }

  lemma UsersStay(p: Params, s: State, a: Action)
    requires Enabled(p, s, a) && !WritesUser(a)
    ensures Apply(p, s, a).db.users == s.db.users
  {
  }

  lemma IdsStayUsed(p: Params, s: State, a: Action)
    requires Enabled(p, s, a)
    ensures s.usedIds <= Apply(p, s, a).usedIds
  {
  }

  /** Only the two session writes add or alter a row. */
  lemma SessionsShrink(p: Params, s: State, a: Action)
    requires Enabled(p, s, a) && !a.LoginCommit? && !a.RefreshCommit?
    ensures var after := Apply(p, s, a).db.sessions;
            forall id | id in after :: id in s.db.sessions && after[id] == s.db.sessions[id]
  {
    if a.AdminCommit? {
      CommitShrinks(p, s, a.r, a.ids);
    }
  }

  lemma CommitShrinks(p: Params, s: State, r: TxnId, ids: seq<SessionId>)
    requires CanCommitAdmin(s, r, ids)
    ensures var after := CommittedAdmin(p, s, r, ids).db.sessions;
            forall k | k in after :: k in s.db.sessions && after[k] == s.db.sessions[k]
  {
    if s.txns[r].op.Change? {
      ChangeShrinks(s.db, s.txns[r].user, s.txns[r].op.upd);
    }
  }

  lemma ChangeShrinks(db: Db, id: UserId, upd: Update)
    requires id in db.users
    ensures var after := ChangedDb(db, id, upd).sessions;
            forall k | k in after :: k in db.sessions && after[k] == db.sessions[k]
  {
  }

  lemma StepNoRevival(p: Params, s: State, a: Action)
    requires Inv(s) && Enabled(p, s, a)
    ensures NoRevival(s.db, Apply(p, s, a).db, s.unsettled)
  {
    if a.AdminCommit? {
      AdminNoRevival(p, s, a.r, a.ids);
    } else if a.LoginCommit? {
      LoginNoRevival(s, a.r, a.row, a.jwtExp, a.refreshExp);
    } else if a.RefreshCommit? {
      RefreshNoRevival(s, a.r, a.row, a.jwtExp, a.refreshExp);
    } else if a.Repair? {
      RepairNoRevival(s.db, a.user, a.role, s.unsettled);
    } else if WritesUser(a) {
      AccountNoRevival(p, s, a);
    } else {
      UsersStay(p, s, a);
      SessionsShrink(p, s, a);
    }
  }

  lemma AccountNoRevival(p: Params, s: State, a: Action)
    requires Inv(s) && Enabled(p, s, a) && (a.CreateUser? || a.EditProfile? || a.SelfDelete?)
    ensures NoRevival(s.db, Apply(p, s, a).db, s.unsettled)
  {
    if a.CreateUser? {
      assert forall k | k in s.db.sessions :: s.db.sessions[k].owner != a.user;
    } else if a.SelfDelete? {
      SelfDeleteNoRevival(s, a.jti);
    }
  }

  lemma SelfDeleteNoRevival(s: State, jti: Jti)
    requires Inv(s) && jti in s.issued
    ensures NoRevival(s.db, SelfDeleted(s, jti).db, s.unsettled)
  {
  }

  lemma RepairNoRevival(db: Db, id: UserId, role: Role, unsettled: set<Jti>)
    requires id in db.users
    ensures NoRevival(db, RepairedDb(db, id, role), unsettled)
  {
  }

  lemma LoginNoRevival(s: State, r: TxnId, row: SessionId, jwtExp: real, refreshExp: real)
    requires Inv(s) && CanCommitLogin(s, r, row)
    ensures NoRevival(s.db, CommittedLogin(s, r, row, jwtExp, refreshExp).db, s.unsettled)
  {
    assert TxnOk(r, s.txns[r], s.issued, s.unsettled, s.delivered, s.rowLocks, s.policyLock, s.db.users);
  }

  lemma RefreshNoRevival(s: State, r: TxnId, row: SessionId, jwtExp: real, refreshExp: real)
    requires Inv(s) && CanCommitRefresh(s, r, row)
    ensures NoRevival(s.db, CommittedRefresh(s, r, row, jwtExp, refreshExp).db, s.unsettled)
  {
    assert TxnOk(r, s.txns[r], s.issued, s.unsettled, s.delivered, s.rowLocks, s.policyLock, s.db.users);
  }

  lemma AdminNoRevival(p: Params, s: State, r: TxnId, ids: seq<SessionId>)
    requires CanCommitAdmin(s, r, ids)
    ensures NoRevival(s.db, CommittedAdmin(p, s, r, ids).db, s.unsettled)
  {
    var t := s.txns[r];
    if t.op.Change? {
      ChangeNoRevival(s.db, t.user, t.op.upd, s.unsettled);
    }
  }

  lemma ChangeNoRevival(db: Db, id: UserId, upd: Update, unsettled: set<Jti>)
    requires id in db.users
    ensures NoRevival(db, ChangedDb(db, id, upd), unsettled)
  {
  }

  lemma StepSettled(p: Params, s: State, a: Action, jti: Jti)
    requires Inv(s) && Enabled(p, s, a) && Settled(s, jti)
    ensures Settled(Apply(p, s, a), jti)
  {
    if a.LoginRead? {
    } else if a.RefreshBegin? {
    } else {
      NothingIssued(p, s, a);
    }
  }

  /** Only a login's read and a refresh's begin sign a token. */
  lemma NothingIssued(p: Params, s: State, a: Action)
    requires Enabled(p, s, a) && !a.LoginRead? && !a.RefreshBegin?
    ensures Apply(p, s, a).issued == s.issued && Apply(p, s, a).unsettled <= s.unsettled
  {
    if OfTxn(a) {
      TxnIssuesNothing(p, s, a);
    } else if WritesUser(a) {
    }
  }

  lemma TxnIssuesNothing(p: Params, s: State, a: Action)
    requires Enabled(p, s, a) && OfTxn(a) && !a.LoginRead? && !a.RefreshBegin?
    ensures Apply(p, s, a).issued == s.issued && Apply(p, s, a).unsettled <= s.unsettled
  {
    if a.LoginCommit? || a.LoginDeliver? {
    } else if a.RefreshRotate? || a.RefreshReuse? || a.RefreshCommit? {
    }
  }

  lemma {:induction false} NeverActiveAgain(p: Params, s: State, run: seq<Action>, jti: Jti, user: UserId)
    requires Inv(s) && EnabledRun(p, s, run) && Settled(s, jti) && !Vouches(s, jti, user)
    ensures !Vouches(Run(p, s, run), jti, user)
    decreases |run|
  {
    if run != [] {
      var s' := Apply(p, s, run[0]);
      StepInv(p, s, run[0]);
      StepSettled(p, s, run[0], jti);
      StepNoRevival(p, s, run[0]);
      VouchesIffLive(s, jti, user);
      VouchesIffLive(s', jti, user);
      NeverActiveAgain(p, s', run[1..], jti, user);
    }
  }

  /** Once the decision has answered active for a token and later inactive, no continuation
      (reactivation, repair, new logins, tombstone cleanup) makes it active again. */
  lemma RevocationIsPermanent(p: Params, s: State, first: seq<Action>, second: seq<Action>, third: seq<Action>, jti: Jti, user: UserId)
    requires Start(s) && EnabledRun(p, s, first) && EnabledRun(p, Run(p, s, first), second)
    requires EnabledRun(p, Run(p, Run(p, s, first), second), third)
    requires Vouches(Run(p, s, first), jti, user) && !Vouches(Run(p, Run(p, s, first), second), jti, user)
    ensures !Vouches(Run(p, Run(p, Run(p, s, first), second), third), jti, user)
  {
    var a := Run(p, s, first);
    StartInv(s);
    RunInv(p, s, first);
    VouchesIffLive(a, jti, user);
    assert Settled(a, jti) by {
      var id :| id in a.db.sessions && IsLive(a.db.sessions[id], jti, user, a.db.users[user].generation);
      assert RowOk(a.db.sessions[id], a.db.users, a.issued, a.unsettled);
    }
    RunSettled(p, a, second, jti);
    RunInv(p, a, second);
    NeverActiveAgain(p, Run(p, a, second), third, jti, user);
  }

  lemma {:induction false} RunSettled(p: Params, s: State, run: seq<Action>, jti: Jti)
    requires Inv(s) && EnabledRun(p, s, run) && Settled(s, jti)
    ensures Settled(Run(p, s, run), jti)
    decreases |run|
  {
    if run != [] {
      StepInv(p, s, run[0]);
      StepSettled(p, s, run[0], jti);
      RunSettled(p, Apply(p, s, run[0]), run[1..], jti);
    }
  }

  // ----- the theorems are about something -----

  /** From one account and nothing else, a login is vouched for and its logout ends that. */
  lemma LoginThenLogout(p: Params) returns (s: State, first: seq<Action>, second: seq<Action>)
    ensures Start(s) && EnabledRun(p, s, first) && Vouches(Run(p, s, first), 1, 0)
    ensures EnabledRun(p, Run(p, s, first), second) && !Vouches(Run(p, Run(p, s, first), second), 1, 0)
  {
    s := OneAccount();
    first := LoginOf(p, s);
    var e := Run(p, s, first);
    assert e.db.sessions[7].jti == 1;
    assert SessionOf(e.db.sessions, 1) == Some(e.db.sessions[7]);
    second := Extend(p, e, [], e, Logout(1));
  }

  lemma LoginOf(p: Params, s: State) returns (run: seq<Action>)
    requires s == OneAccount()
    ensures EnabledRun(p, s, run)
    ensures var e := Run(p, s, run);
            && e.db == s.db.(sessions := map[7 := ClientSession(0, 1, Some(1), false, 9.0, 9.0)])
            && 1 in e.delivered
  {
    var s1 := Apply(p, s, LoginRead(5, 0, 1));
    var s2 := Apply(p, s1, LoginCommit(5, 7, 9.0, 9.0));
    run := Extend(p, s, [], s, LoginRead(5, 0, 1));
    run := Extend(p, s, run, s1, LoginCommit(5, 7, 9.0, 9.0));
    run := Extend(p, s, run, s2, LoginDeliver(5, true));
  }

  function OneAccount(): State {
    State(
      Db(map[0 := User(Ranked(0), false, true, 1, 0)], map[], map[], map[], 0),
      F.Fleet(0.0, map[], 0, map[], {}), map[], {}, None, map[], map[], {}, map[], {}, {}, multiset{}, {0}, map[])
  }
}
