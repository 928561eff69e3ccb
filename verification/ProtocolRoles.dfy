/** Who raises whom over every run: a role rises only by the hand of another account, or by an
    operator's repair. */
module ProtocolRoles {
  import opened Basics
  import opened OutboxRows
  import opened Authorization
  import opened Protocol
  import opened ProtocolInvariant
  import opened ProtocolTheorems
  import opened ProtocolAdministration
  import opened RoleMatrix

  /** A request past its guards by the account it is about raises nothing. */
  ghost predicate SelfGuarded(txns: map<TxnId, Txn>, users: Users) {
    forall r | r in txns && txns[r].Admin? && txns[r].checked && txns[r].op.Change? && txns[r].actor == txns[r].user && txns[r].user in users ::
      !Raises(users[txns[r].user], txns[r].op.upd)
  }

  lemma SelfGuardedStep(p: Params, s: State, a: Action)
    requires Inv(s) && SelfGuarded(s.txns, s.db.users) && Enabled(p, s, a)
    ensures var s' := Apply(p, s, a); SelfGuarded(s'.txns, s'.db.users)
  {
    var s' := Apply(p, s, a);
    forall r | r in s'.txns && s'.txns[r].Admin? && s'.txns[r].checked && s'.txns[r].op.Change?
      && s'.txns[r].actor == s'.txns[r].user && s'.txns[r].user in s'.db.users
      ensures !Raises(s'.db.users[s'.txns[r].user], s'.txns[r].op.upd)
    {
      if a.AdminCheck? {
        SelfGuardedCheck(s, a.r, r);
      } else {
        SameAdmin(p, s, a, r);
        assert TxnOk(r, s.txns[r], s.issued, s.unsettled, s.delivered, s.rowLocks, s.policyLock, s.db.users);
        if a.AdminCommit? {
          CommitEnds(p, s, a.r, a.ids);
        }
        LockedRowStays(p, s, a, s.txns[r].user);
      }
    }
  }

  lemma CommitEnds(p: Params, s: State, r: TxnId, ids: seq<SessionId>)
    requires CanCommitAdmin(s, r, ids)
    ensures r !in CommittedAdmin(p, s, r, ids).txns
  {
  }

  lemma SelfGuardedCheck(s: State, q: TxnId, r: TxnId)
    requires SelfGuarded(s.txns, s.db.users) && CanCheckAdmin(s, q)
    requires var t := CheckedAdmin(s, q).txns; r in t && t[r].Admin? && t[r].checked && t[r].op.Change? && t[r].actor == t[r].user && t[r].user in s.db.users
    ensures !Raises(s.db.users[CheckedAdmin(s, q).txns[r].user], CheckedAdmin(s, q).txns[r].op.upd)
  {
    if r == q {
      var t := s.txns[q];
      ChangeRefusedIff(s.db, t.actor, t.user, t.op.upd, []);
    }
  }

  /** The step commits a change of the account by somebody else, or repairs it. */
  predicate MayRaise(s: State, a: Action, id: UserId) {
    || (a.Repair? && a.user == id)
    || (a.AdminCommit? && a.r in s.txns && s.txns[a.r].Admin? && s.txns[a.r].user == id && s.txns[a.r].actor != id)
  }

  lemma OnlyTheseRaise(p: Params, s: State, a: Action, id: UserId)
    requires Inv(s) && SelfGuarded(s.txns, s.db.users) && Enabled(p, s, a) && !MayRaise(s, a, id)
    requires id in s.db.users && id in Apply(p, s, a).db.users
    ensures !Outranks(Apply(p, s, a).db.users[id].role, s.db.users[id].role)
  {
    if a.AdminCommit? {
      CommitRaisesNothing(p, s, a.r, a.ids, id);
    } else if !WritesUser(a) {
      UsersStay(p, s, a);
    } else if a.CreateUser? {
    } else if a.EditProfile? {
    } else if a.Repair? {
    }
  }

  lemma CommitRaisesNothing(p: Params, s: State, r: TxnId, ids: seq<SessionId>, id: UserId)
    requires Inv(s) && SelfGuarded(s.txns, s.db.users) && CanCommitAdmin(s, r, ids)
    requires !(s.txns[r].user == id && s.txns[r].actor != id)
    requires id in s.db.users && id in CommittedAdmin(p, s, r, ids).db.users
    ensures !Outranks(CommittedAdmin(p, s, r, ids).db.users[id].role, s.db.users[id].role)
  {
    var t := s.txns[r];
    OthersUntouched(p, s, r, ids);
    if t.user == id && t.op.Change? {
      RowAfterChange(s.db, id, t.op.upd);
    }
  }

  lemma RowAfterChange(db: Db, id: UserId, upd: Update)
    requires id in db.users
    ensures id in ChangedDb(db, id, upd).users
    ensures ChangedDb(db, id, upd).users[id].role == if upd.role.Set? then upd.role.value else db.users[id].role
  {
  }

  /** Some step of the run commits a change of the account by somebody else, or repairs it. */
  predicate MayRaiseIn(p: Params, s: State, run: seq<Action>, id: UserId)
    requires EnabledRun(p, s, run)
    decreases |run|
  {
    run != [] && (MayRaise(s, run[0], id) || MayRaiseIn(p, Apply(p, s, run[0]), run[1..], id))
  }

  lemma {:induction false} GoneForGood(p: Params, s: State, run: seq<Action>, id: UserId)
    requires Inv(s) && EnabledRun(p, s, run) && id in s.usedIds && id !in s.db.users
    ensures id !in Run(p, s, run).db.users
    decreases |run|
  {
    if run != [] {
      StepInv(p, s, run[0]);
      AccountsStayGone(p, s, run[0], id);
      GoneForGood(p, Apply(p, s, run[0]), run[1..], id);
    }
  }

  lemma AccountsStayGone(p: Params, s: State, a: Action, id: UserId)
    requires Enabled(p, s, a) && id in s.usedIds && id !in s.db.users
    ensures id in Apply(p, s, a).usedIds && id !in Apply(p, s, a).db.users
  {
    if a.AdminCommit? {
      CommitAddsNobody(p, s, a.r, a.ids);
    } else if !WritesUser(a) {
      UsersStay(p, s, a);
    }
    IdsStayUsed(p, s, a);
  }

  lemma CommitAddsNobody(p: Params, s: State, r: TxnId, ids: seq<SessionId>)
    requires CanCommitAdmin(s, r, ids)
    ensures CommittedAdmin(p, s, r, ids).db.users.Keys <= s.db.users.Keys
  {
    if s.txns[r].op.Change? {
      WritesAre(s.db, s.txns[r].user, s.txns[r].op.upd, ChangedDb(s.db, s.txns[r].user, s.txns[r].op.upd));
    }
  }

  lemma {:induction false} RolesRiseRun(p: Params, s: State, run: seq<Action>, id: UserId)
    requires Inv(s) && SelfGuarded(s.txns, s.db.users) && EnabledRun(p, s, run) && !MayRaiseIn(p, s, run, id)
    requires id in s.db.users && id in Run(p, s, run).db.users
    ensures !Outranks(Run(p, s, run).db.users[id].role, s.db.users[id].role)
    decreases |run|
  {
    if run != [] {
      var s' := Apply(p, s, run[0]);
      StepInv(p, s, run[0]);
      SelfGuardedStep(p, s, run[0]);
      if id !in s'.db.users {
        IdsStayUsed(p, s, run[0]);
        GoneForGood(p, s', run[1..], id);
      } else {
        OnlyTheseRaise(p, s, run[0], id);
        RolesRiseRun(p, s', run[1..], id);
        OutranksTransitive(Run(p, s, run).db.users[id].role, s'.db.users[id].role, s.db.users[id].role);
      }
    }
  }

  /** Over every run an account's role rises only by a committed change whose actor is another
      account, or by an operator's repair. */
  lemma RolesRiseOnlyByOthers(p: Params, s: State, first: seq<Action>, second: seq<Action>, id: UserId)
    requires Start(s) && EnabledRun(p, s, first) && EnabledRun(p, Run(p, s, first), second)
    requires id in Run(p, s, first).db.users && id in Run(p, Run(p, s, first), second).db.users
    requires Outranks(Run(p, Run(p, s, first), second).db.users[id].role, Run(p, s, first).db.users[id].role)
    ensures MayRaiseIn(p, Run(p, s, first), second, id)
  {
    StartInv(s);
    SelfGuardedRun(p, s, first);
    var m := Run(p, s, first);
    if !MayRaiseIn(p, m, second, id) {
      RolesRiseRun(p, m, second, id);
    }
  }

  lemma {:induction false} SelfGuardedRun(p: Params, s: State, run: seq<Action>)
    requires Inv(s) && SelfGuarded(s.txns, s.db.users) && EnabledRun(p, s, run)
    ensures Inv(Run(p, s, run)) && SelfGuarded(Run(p, s, run).txns, Run(p, s, run).db.users)
    decreases |run|
  {
    if run != [] {
      StepInv(p, s, run[0]);
      SelfGuardedStep(p, s, run[0]);
      SelfGuardedRun(p, Apply(p, s, run[0]), run[1..]);
    }
  }
}
