/** Each refresh token is good for one successful refresh. */
module ProtocolRefresh {
  import opened Basics
  import opened OutboxRows
  import opened Authorization
  import opened Protocol
  import opened ProtocolInvariant
  import opened ProtocolTheorems
  import F = OutboxFleet

  // ----- by the lineage check under the row lock, whatever Redis does -----

  /** At most one session row per account: what the atomic select-then-insert keeps. */
  ghost predicate OneRow(sessions: Sessions) {
    forall a, b | a in sessions && b in sessions && sessions[a].owner == sessions[b].owner :: a == b
  }

  /** A consumed identifier is gone, and no refresh in flight is consuming it again. */
  ghost predicate Consumed(s: State) {
    && (forall j | j in s.refreshed :: s.refreshed[j] == 1 && Gone(j, s.db.sessions, s.issued, s.unsettled))
    && (forall r | r in s.txns && s.txns[r].Refresh? :: s.txns[r].oldJti !in s.refreshed)
  }

  lemma OneRowStep(p: Params, s: State, a: Action)
    requires OneRow(s.db.sessions) && Enabled(p, s, a)
    ensures OneRow(Apply(p, s, a).db.sessions)
  {
    if a.LoginCommit? || a.RefreshCommit? {
      OneRowWrite(s.db, a.row, s.txns[a.r], a.jwtExp, a.refreshExp);
    } else {
      SessionsShrink(p, s, a);
      OneRowShrinks(s.db.sessions, Apply(p, s, a).db.sessions);
    }
  }

  lemma OneRowWrite(db: Db, row: SessionId, t: Txn, jwtExp: real, refreshExp: real)
    requires OneRow(db.sessions) && SignedJti(t).Some? && WritableRow(db, row, t.user)
    ensures OneRow(WithSession(db, row, t.user, t.snapshot.generation, SignedJti(t).value, jwtExp, refreshExp).sessions)
  {
  }

  lemma OneRowShrinks(before: Sessions, after: Sessions)
    requires OneRow(before) && forall id | id in after :: id in before && after[id] == before[id]
    ensures OneRow(after)
  {
  }

  lemma GoneStays(p: Params, s: State, a: Action, jti: Jti)
    requires Inv(s) && Enabled(p, s, a) && Gone(jti, s.db.sessions, s.issued, s.unsettled)
    ensures var s' := Apply(p, s, a); Gone(jti, s'.db.sessions, s'.issued, s'.unsettled)
  {
    StepNoRevival(p, s, a);
    StepSettled(p, s, a, jti);
  }

  /** The identifier a committing refresh consumed has no row left afterwards: the one row
      of the account now carries the new identifier. */
  lemma CommitConsumes(s: State, r: TxnId, row: SessionId, jwtExp: real, refreshExp: real)
    requires Inv(s) && OneRow(s.db.sessions) && CanCommitRefresh(s, r, row)
    ensures var e := CommittedRefresh(s, r, row, jwtExp, refreshExp);
            Gone(s.txns[r].oldJti, e.db.sessions, e.issued, e.unsettled)
  {
    var t := s.txns[r];
    assert TxnOk(r, t, s.issued, s.unsettled, s.delivered, s.rowLocks, s.policyLock, s.db.users);
    forall id | id in s.db.sessions && s.db.sessions[id].jti == t.oldJti
      ensures id == row
    {
      assert RowOk(s.db.sessions[id], s.db.users, s.issued, s.unsettled);
    }
  }

  /** Two refreshes of one identifier would hold the same row lock. */
  lemma OneRefreshPerIdentifier(s: State, r: TxnId, q: TxnId)
    requires Inv(s) && IsRefresh(s, r) && IsRefresh(s, q)
    ensures r != q ==> s.txns[r].oldJti != s.txns[q].oldJti
  {
    assert TxnOk(r, s.txns[r], s.issued, s.unsettled, s.delivered, s.rowLocks, s.policyLock, s.db.users);
    assert TxnOk(q, s.txns[q], s.issued, s.unsettled, s.delivered, s.rowLocks, s.policyLock, s.db.users);
  }

  /** Only a begin adds a refresh, and a refresh in flight keeps its identifier. */
  lemma RefreshesKept(p: Params, s: State, a: Action, r: TxnId)
    requires Enabled(p, s, a) && IsRefresh(Apply(p, s, a), r)
    ensures (IsRefresh(s, r) && s.txns[r].oldJti == Apply(p, s, a).txns[r].oldJti && !(a.RefreshCommit? && a.r == r))
         || (a.RefreshBegin? && a.r == r && Apply(p, s, a).txns[r].oldJti == a.oldJti)
  {
    if !OfTxn(a) {
      TxnsStay(p, s, a);
    } else if a.LoginRead? || a.LoginCommit? || a.LoginDeliver? {
    } else if a.RefreshBegin? || a.RefreshRotate? || a.RefreshReuse? || a.RefreshCommit? {
    } else if a.AdminCommit? {
      assert Apply(p, s, a).txns == s.txns - {a.r};
    }
  }

  lemma RefreshedKept(p: Params, s: State, a: Action)
    requires Enabled(p, s, a)
    ensures Apply(p, s, a).refreshed == if a.RefreshCommit? then s.refreshed + multiset{s.txns[a.r].oldJti} else s.refreshed
  {
  }

  lemma ConsumedStaysGone(p: Params, s: State, a: Action, j: Jti)
    requires Inv(s) && OneRow(s.db.sessions) && Consumed(s) && Enabled(p, s, a) && j in Apply(p, s, a).refreshed
    ensures var s' := Apply(p, s, a); s'.refreshed[j] == 1 && Gone(j, s'.db.sessions, s'.issued, s'.unsettled)
  {
    RefreshedKept(p, s, a);
    if j in s.refreshed {
      GoneStays(p, s, a, j);
    } else if a.RefreshCommit? {
      CommitConsumes(s, a.r, a.row, a.jwtExp, a.refreshExp);
    }
  }

  lemma NoneConsumesAgain(p: Params, s: State, a: Action, r: TxnId)
    requires Inv(s) && Consumed(s) && Enabled(p, s, a) && IsRefresh(Apply(p, s, a), r)
    ensures Apply(p, s, a).txns[r].oldJti !in Apply(p, s, a).refreshed
  {
    RefreshedKept(p, s, a);
    RefreshesKept(p, s, a, r);
    if a.RefreshCommit? {
      OneRefreshPerIdentifier(s, r, a.r);
    } else if a.RefreshBegin? && a.r == r {
      BegunIsFresh(s, a.r, a.oldJti, a.newJti);
    }
  }

  /** A lineage that is still current was not consumed. */
  lemma BegunIsFresh(s: State, r: TxnId, oldJti: Jti, newJti: Jti)
    requires Consumed(s) && CanBeginRefresh(s, r, oldJti, newJti)
    ensures oldJti !in s.refreshed
  {
  }

  lemma ConsumedStep(p: Params, s: State, a: Action)
    requires Inv(s) && OneRow(s.db.sessions) && Consumed(s) && Enabled(p, s, a)
    ensures Consumed(Apply(p, s, a))
  {
    var s' := Apply(p, s, a);
    forall j | j in s'.refreshed
      ensures s'.refreshed[j] == 1 && Gone(j, s'.db.sessions, s'.issued, s'.unsettled)
    {
      ConsumedStaysGone(p, s, a, j);
    }
    forall r | r in s'.txns && s'.txns[r].Refresh?
      ensures s'.txns[r].oldJti !in s'.refreshed
    {
      NoneConsumesAgain(p, s, a, r);
    }
  }

  lemma {:induction false} ConsumedRun(p: Params, s: State, run: seq<Action>)
    requires Inv(s) && OneRow(s.db.sessions) && Consumed(s) && EnabledRun(p, s, run)
    ensures Consumed(Run(p, s, run))
    decreases |run|
  {
    if run != [] {
      StepInv(p, s, run[0]);
      OneRowStep(p, s, run[0]);
      ConsumedStep(p, s, run[0]);
      ConsumedRun(p, Apply(p, s, run[0]), run[1..]);
    }
  }

  /** Over every interleaving of refreshes, logins and logouts, with Redis up for some
      requests and down for others, an identifier is refreshed at most once. */
  lemma RefreshIsSingleUse(p: Params, s: State, run: seq<Action>, jti: Jti)
    requires Start(s) && OneRow(s.db.sessions) && EnabledRun(p, s, run)
    ensures Run(p, s, run).refreshed[jti] <= 1
  {
    StartInv(s);
    ConsumedRun(p, s, run);
  }

  // ----- by the atomic swap, whatever rows an account has -----

  ghost predicate Swapped(s: State) {
    && (forall j | j in s.refreshed :: s.refreshed[j] == 1 && j in s.delivered && j !in s.allowlist)
    && (forall r | r in s.txns && s.txns[r].Refresh? ::
          && s.txns[r].viaRedis
          && (s.txns[r].rotated ==> s.txns[r].oldJti !in s.allowlist && s.txns[r].oldJti !in s.refreshed))
  }

  predicate ViaRedis(a: Action) {
    a.RefreshBegin? ==> a.viaRedis
  }

  /** Redis is up for every refresh of the run. */
  predicate ViaRedisRun(run: seq<Action>) {
    run == [] || (ViaRedis(run[0]) && ViaRedisRun(run[1..]))
  }

  /** Registration only ever admits an identifier no client holds yet. */
  lemma AllowlistGrowth(p: Params, s: State, a: Action)
    requires Inv(s) && Enabled(p, s, a)
    ensures forall j | j in s.delivered && j in Apply(p, s, a).allowlist :: j in s.allowlist
  {
    if a.LoginDeliver? || a.RefreshRotate? {
      assert TxnOk(a.r, s.txns[a.r], s.issued, s.unsettled, s.delivered, s.rowLocks, s.policyLock, s.db.users);
    } else {
      AllowlistShrinks(p, s, a);
    }
  }

  lemma AllowlistShrinks(p: Params, s: State, a: Action)
    requires Enabled(p, s, a) && !a.LoginDeliver? && !a.RefreshRotate?
    ensures Apply(p, s, a).allowlist <= s.allowlist
  {
  }

  lemma DeliveredGrows(p: Params, s: State, a: Action)
    requires Enabled(p, s, a)
    ensures s.delivered <= Apply(p, s, a).delivered
  {
  }

  lemma SwappedOut(p: Params, s: State, a: Action, j: Jti)
    requires Inv(s) && Swapped(s) && Enabled(p, s, a) && j in Apply(p, s, a).refreshed
    ensures var s' := Apply(p, s, a); s'.refreshed[j] == 1 && j in s'.delivered && j !in s'.allowlist
  {
    RefreshedKept(p, s, a);
    AllowlistGrowth(p, s, a);
    DeliveredGrows(p, s, a);
    if a.RefreshCommit? {
      assert TxnOk(a.r, s.txns[a.r], s.issued, s.unsettled, s.delivered, s.rowLocks, s.policyLock, s.db.users);
    }
  }

  lemma SwapKept(p: Params, s: State, a: Action, r: TxnId)
    requires Inv(s) && Swapped(s) && Enabled(p, s, a) && ViaRedis(a) && IsRefresh(Apply(p, s, a), r)
    ensures var s' := Apply(p, s, a);
            && s'.txns[r].viaRedis
            && (s'.txns[r].rotated ==> s'.txns[r].oldJti !in s'.allowlist && s'.txns[r].oldJti !in s'.refreshed)
  {
    RefreshedKept(p, s, a);
    AllowlistGrowth(p, s, a);
    RefreshesKept(p, s, a, r);
    RotationKept(p, s, a, r);
    if r in s.txns {
      assert TxnOk(r, s.txns[r], s.issued, s.unsettled, s.delivered, s.rowLocks, s.policyLock, s.db.users);
    }
    if a.RefreshCommit? && IsRefresh(s, r) {
      OneRefreshPerIdentifier(s, r, a.r);
    }
  }

  lemma SwappedStep(p: Params, s: State, a: Action)
    requires Inv(s) && Swapped(s) && Enabled(p, s, a) && ViaRedis(a)
    ensures Swapped(Apply(p, s, a))
  {
    var s' := Apply(p, s, a);
    forall j | j in s'.refreshed
      ensures s'.refreshed[j] == 1 && j in s'.delivered && j !in s'.allowlist
    {
      SwappedOut(p, s, a, j);
    }
    forall r | r in s'.txns && s'.txns[r].Refresh?
      ensures s'.txns[r].viaRedis
      ensures s'.txns[r].rotated ==> s'.txns[r].oldJti !in s'.allowlist && s'.txns[r].oldJti !in s'.refreshed
    {
      SwapKept(p, s, a, r);
    }
  }

  lemma RotationKept(p: Params, s: State, a: Action, r: TxnId)
    requires Inv(s) && Enabled(p, s, a) && IsRefresh(Apply(p, s, a), r)
    ensures var t := Apply(p, s, a).txns[r];
            if a.RefreshBegin? && a.r == r then t.viaRedis == a.viaRedis && !t.rotated
            else if a.RefreshRotate? && a.r == r then
              IsRefresh(s, r) && s.txns[r].viaRedis && t.viaRedis && t.oldJti in s.allowlist && t.oldJti !in Apply(p, s, a).allowlist
            else IsRefresh(s, r) && s.txns[r] == t
  {
    if a.RefreshBegin? && a.r == r {
    } else if a.RefreshRotate? && a.r == r {
      assert TxnOk(r, s.txns[r], s.issued, s.unsettled, s.delivered, s.rowLocks, s.policyLock, s.db.users);
    } else {
      OtherRefreshKept(p, s, a, r);
    }
  }

  lemma OtherRefreshKept(p: Params, s: State, a: Action, r: TxnId)
    requires Enabled(p, s, a) && IsRefresh(Apply(p, s, a), r) && !((a.RefreshBegin? || a.RefreshRotate?) && a.r == r)
    ensures IsRefresh(s, r) && s.txns[r] == Apply(p, s, a).txns[r]
  {
    if !OfTxn(a) {
      TxnsStay(p, s, a);
    } else if a.LoginRead? || a.LoginCommit? || a.LoginDeliver? {
    } else if a.RefreshBegin? || a.RefreshRotate? || a.RefreshReuse? || a.RefreshCommit? {
    } else if a.AdminCommit? {
      assert Apply(p, s, a).txns == s.txns - {a.r};
    }
  }

  lemma {:induction false} SwappedRun(p: Params, s: State, run: seq<Action>)
    requires Inv(s) && Swapped(s) && EnabledRun(p, s, run) && ViaRedisRun(run)
    ensures Swapped(Run(p, s, run))
    decreases |run|
  {
    if run != [] {
      StepInv(p, s, run[0]);
      SwappedStep(p, s, run[0]);
      SwappedRun(p, Apply(p, s, run[0]), run[1..]);
    }
  }

  /** With Redis up for every refresh the swap alone gives single use, even for accounts
      that a race left with several session rows. */
  lemma SwapAloneIsSingleUse(p: Params, s: State, run: seq<Action>, jti: Jti)
    requires Start(s) && EnabledRun(p, s, run) && ViaRedisRun(run)
    ensures Run(p, s, run).refreshed[jti] <= 1
  {
    StartInv(s);
    SwappedRun(p, s, run);
  }

  // ----- and neither, when an account has two rows and Redis is down -----

  /** The account has a live row for a token a client holds, another row, and a free lock. */
  ghost predicate SecondRow(s: State, id: UserId, jti: Jti, live: SessionId, other: SessionId) {
    && CanWriteUser(s, id) && CanSign(s.db.users[id]) && jti in s.delivered && jti in s.issued && s.issued[jti].sub == id
    && live != other && live in s.db.sessions && other in s.db.sessions && s.db.sessions[other].owner == id
    && s.db.sessions[live].jti == jti && !IsStale(s.db.sessions[live].stamp, s.db.users[id].generation)
  }

  /** One refresh that overwrites the other row leaves everything another one needs. */
  lemma OneRefresh(p: Params, s: State, id: UserId, jti: Jti, live: SessionId, other: SessionId, r: TxnId, newJti: Jti)
    returns (run: seq<Action>, end: State)
    requires SecondRow(s, id, jti, live, other) && r !in s.txns && newJti !in s.issued
    ensures EnabledRun(p, s, run) && Run(p, s, run) == end
    ensures SecondRow(end, id, jti, live, other) && end.txns == s.txns
    ensures end.issued == s.issued[newJti := TokenOf(id, s.db.users[id])]
    ensures end.refreshed == s.refreshed + multiset{jti}
  {
    var begin, commit := RefreshBegin(r, jti, newJti, false), RefreshCommit(r, other, 9.0, 9.0);
    var mid := Apply(p, s, begin);
    end := Apply(p, mid, commit);
    run := Extend(p, s, [], s, begin);
    run := Extend(p, s, run, mid, commit);
    assert end.txns == s.txns;
  }

  /** Nothing in the schema makes a session unique per account. In every state in which an
      account with a live token has a second row, a refresh may overwrite the other row; with
      Redis down nothing else records that the identifier was used, and it is refreshed twice. */
  lemma TwoRowsAndNoRedisAllowReuse(p: Params, s: State, id: UserId, jti: Jti, live: SessionId, other: SessionId,
                                    r: TxnId, first: Jti, second: Jti) returns (run: seq<Action>)
    requires SecondRow(s, id, jti, live, other) && r !in s.txns
    requires first !in s.issued && second !in s.issued && first != second
    ensures EnabledRun(p, s, run) && Run(p, s, run).refreshed == s.refreshed + multiset{jti, jti}
  {
    var once, s1 := OneRefresh(p, s, id, jti, live, other, r, first);
    var twice, s2 := OneRefresh(p, s1, id, jti, live, other, r, second);
    RunConcat(p, s, once, twice);
    run := once + twice;
    assert s.refreshed + multiset{jti} + multiset{jti} == s.refreshed + multiset{jti, jti};
  }

  /** An account with two sessions from before stamps. */
  function TwoLegacyRows(): State {
    var t := Token(0, Ranked(0), false, true, None);
    State(
      Db(map[0 := User(Ranked(0), false, true, 1, 0)],
         map[10 := ClientSession(0, 1, None, false, 9.0, 9.0), 11 := ClientSession(0, 2, None, false, 9.0, 9.0)],
         map[], map[], 0),
      F.Fleet(0.0, map[], 0, map[], {}), map[], {}, None, map[], map[], {},
      map[1 := t, 2 := t], {}, {1, 2}, multiset{}, {0}, map[])
  }

  /** After the login row 10 carries token 3, and row 11 is the second one. */
  predicate Restamped(e: State) {
    && e.db.users == TwoLegacyRows().db.users && e.rowLocks == map[]
    && e.db.sessions == map[10 := ClientSession(0, 3, Some(1), false, 9.0, 9.0), 11 := ClientSession(0, 2, None, false, 9.0, 9.0)]
    && 3 in e.delivered && e.issued.Keys == {1, 2, 3} && e.issued[3].sub == 0 && e.txns == map[] && e.refreshed == multiset{}
  }

  lemma LoginRestamps(p: Params, s: State) returns (run: seq<Action>, e: State)
    requires s == TwoLegacyRows()
    ensures EnabledRun(p, s, run) && Run(p, s, run) == e && Restamped(e)
  {
    var u := s.db.users[0];
    var s1 := ReadLogin(s, 5, 0, 3);
    var s2 := CommittedLogin(s1, 5, 10, 9.0, 9.0);
    LoginCommits(s, s1, s2);
    run := Extend(p, s, [], s, LoginRead(5, 0, 3));
    run := Extend(p, s, run, s1, LoginCommit(5, 10, 9.0, 9.0));
    run := Extend(p, s, run, s2, LoginDeliver(5, false));
    e := DeliveredLogin(s2, 5, false);
  }

  lemma LoginCommits(s: State, s1: State, s2: State)
    requires s == TwoLegacyRows() && s1 == ReadLogin(s, 5, 0, 3)
    requires IsLogin(s1, 5, false) && s2 == CommittedLogin(s1, 5, 10, 9.0, 9.0)
    ensures CanCommitLogin(s1, 5, 10) && IsLogin(s2, 5, true) && Restamped(DeliveredLogin(s2, 5, false))
  {
  }

  lemma ReuseAfterLogin(p: Params, s: State, login: seq<Action>, e: State) returns (run: seq<Action>)
    requires EnabledRun(p, s, login) && Run(p, s, login) == e && Restamped(e)
    ensures EnabledRun(p, s, run) && Run(p, s, run).refreshed[3] == 2
  {
    var reuse := TwoRowsAndNoRedisAllowReuse(p, e, 0, 3, 10, 11, 6, 4, 5);
    RunConcat(p, s, login, reuse);
    run := login + reuse;
  }

  /** Such a state is reached from a starting deployment by one login. */
  lemma LegacyRowsAllowReuse(p: Params) returns (s: State, run: seq<Action>)
    ensures Start(s) && EnabledRun(p, s, run) && Run(p, s, run).refreshed[3] == 2
  {
    s := TwoLegacyRows();
    var login, e := LoginRestamps(p, s);
    run := ReuseAfterLogin(p, s, login, e);
  }
}
