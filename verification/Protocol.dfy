/** The issuer as one state machine: logins that read without a lock and commit later,
    refreshes under the user's row lock, administrative transactions under the policy
    and row locks, revocations, the outbox fleet and Redis, interleaved step by step.

    A step is one committed transaction, one lock acquisition with the reads under it,
    or one atomic Redis command. The last five fields of the state are history. */
module Protocol {
  import opened Basics
  import opened OutboxRows
  import opened Authorization
  import F = OutboxFleet

  type TxnId = nat

  /** The claims signed into an access token. `generation` is history, not a claim: that of
      the row the token was signed from, or None for a token older than generations. */
  datatype Token = Token(sub: UserId, role: Role, isSuperuser: bool, isActive: bool, generation: Option<nat>)

  function TokenOf(id: UserId, u: User): Token {
    Token(id, u.role, u.isSuperuser, u.isActive, Some(u.generation))
  }

  datatype Op = Change(upd: Update) | Delete

  /** A request in flight. A login has signed its token from `snapshot` and may not have
      committed its session; a refresh holds the row lock; an administrative transaction
      holds the policy lock, and the row lock once its guards passed. The allowlist check
      that opens a refresh is not a step: it only turns requests away, so runs without it
      include every run with it. */
  datatype Txn =
    | Login(user: UserId, snapshot: User, jti: Jti, committed: bool)
    | Refresh(user: UserId, snapshot: User, oldJti: Jti, newJti: Jti, viaRedis: bool, rotated: bool)
    | Admin(actor: UserId, user: UserId, op: Op, checked: bool)

  datatype Deletion = Deletion(at: real, terminal: nat)

  datatype State = State(
    db: Db, fleet: F.Fleet, blacklist: map<Jti, real>, allowlist: set<Jti>,
    policyLock: Option<TxnId>, rowLocks: map<UserId, TxnId>, txns: map<TxnId, Txn>,
    /** Revoked identifiers whose post-commit Redis step has not run yet. */
    effects: set<Jti>,
    /** Every token ever signed. */
    issued: map<Jti, Token>,
    /** Signed tokens whose session write may still happen. */
    unsettled: set<Jti>,
    /** Tokens a client may hold: their session was committed. */
    delivered: set<Jti>,
    /** Successful refreshes, by the identifier they consumed. */
    refreshed: multiset<Jti>,
    usedIds: set<UserId>,
    /** Accounts removed by the delete transaction. */
    deleted: map<UserId, Deletion>)

  /** The worker's configuration and the tombstone horizon. */
  datatype Params = Params(worker: Config, retention: real)

  datatype Action =
    | CreateUser(user: UserId, role: Role, active: bool, profile: int)
    | EditProfile(user: UserId, profile: int)
    | LoginRead(r: TxnId, user: UserId, jti: Jti)
    | LoginCommit(r: TxnId, row: SessionId, jwtExp: real, refreshExp: real)
    | LoginDeliver(r: TxnId, registered: bool)
    | RefreshBegin(r: TxnId, oldJti: Jti, newJti: Jti, viaRedis: bool)
    | RefreshRotate(r: TxnId)
    | RefreshReuse(r: TxnId)
    | RefreshCommit(r: TxnId, row: SessionId, jwtExp: real, refreshExp: real)
    | AdminBegin(r: TxnId, actor: UserId, user: UserId, op: Op)
    | AdminCheck(r: TxnId)
    | AdminCommit(r: TxnId, ids: seq<SessionId>)
    | Abort(r: TxnId)
    | Repair(user: UserId, role: Role, ids: seq<SessionId>)
    | DropSessions(rows: set<SessionId>, captured: set<SessionId>)
    | Logout(jti: Jti)
    | ApplyEffect(jti: Jti, ttl: int, drop: bool)
    | ForgetEffect(jti: Jti)
    | Work(step: F.Action, wrote: bool)
    | CleanTombstones
    | RedisLoss(allow: set<Jti>, black: set<Jti>)
    | SelfDelete(jti: Jti, asked: bool)

  predicate AffectsSet(op: Op) {
    op.Delete? || op.upd.role.Set? || op.upd.isActive.Set?
  }

  predicate IsLogin(s: State, r: TxnId, committed: bool) {
    r in s.txns && s.txns[r].Login? && s.txns[r].committed == committed
  }

  predicate IsRefresh(s: State, r: TxnId) {
    r in s.txns && s.txns[r].Refresh?
  }

  predicate IsAdmin(s: State, r: TxnId, checked: bool) {
    r in s.txns && s.txns[r].Admin? && s.txns[r].checked == checked
  }

  /** Ends a transaction and releases the locks it holds. */
  function Ended(s: State, r: TxnId): State {
    s.(txns := s.txns - {r},
       rowLocks := map id | id in s.rowLocks && s.rowLocks[id] != r :: s.rowLocks[id],
       policyLock := if s.policyLock == Some(r) then None else s.policyLock)
  }

  function JtisOf(sessions: map<SessionId, ClientSession>, ids: set<SessionId>): set<Jti>
    requires ids <= sessions.Keys
  {
    set id | id in ids :: sessions[id].jti
  }

  // ----- accounts -----

  predicate CanCreateUser(s: State, id: UserId) {
    id !in s.usedIds
  }

  function CreatedUser(s: State, id: UserId, role: Role, active: bool, profile: int): State {
    var u := User(role, DeriveIsSuperuser(role), active, GENERATION_START, profile);
    s.(db := s.db.(users := s.db.users[id := u]), usedIds := s.usedIds + {id})
  }

  /** A statement that writes the user row needs its lock. */
  predicate CanWriteUser(s: State, id: UserId) {
    id in s.db.users && id !in s.rowLocks
  }

  function EditedProfile(s: State, id: UserId, profile: int): State
    requires id in s.db.users
  {
    s.(db := s.db.(users := s.db.users[id := s.db.users[id].(profile := profile)]))
  }

  /** The self-service delete of the account a token names: no policy lock, no count, no
      tombstone. A token is accepted on its own claims, and on the blacklist if Redis is
      asked; only the DELETE itself waits for the row lock. */
  predicate CanSelfDelete(s: State, jti: Jti, asked: bool) {
    && jti in s.delivered && jti in s.issued && s.issued[jti].isActive
    && !(asked && jti in s.blacklist && s.fleet.now < s.blacklist[jti])
    && (SelfDeletes(s, jti) ==> s.issued[jti].sub !in s.rowLocks)
  }

  /** Superuser claims are answered 403, a missing account 404. */
  predicate SelfDeletes(s: State, jti: Jti)
    requires jti in s.issued
  {
    var t := s.issued[jti];
    !HasSuperuserPrivileges(t.role, t.isSuperuser) && t.sub in s.db.users
  }

  function SelfDeleted(s: State, jti: Jti): State
    requires jti in s.issued
  {
    if SelfDeletes(s, jti) then s.(db := WithoutUser(s.db, s.issued[jti].sub)) else s
  }

  // ----- login -----

  predicate CanSign(u: User) {
    u.isActive && Consistent(u.role, u.isSuperuser)
  }

  predicate CanReadLogin(s: State, r: TxnId, id: UserId, jti: Jti) {
    r !in s.txns && jti !in s.issued && id in s.db.users && CanSign(s.db.users[id])
  }

  function ReadLogin(s: State, r: TxnId, id: UserId, jti: Jti): State
    requires id in s.db.users
  {
    var u := s.db.users[id];
    s.(txns := s.txns[r := Login(id, u, jti, false)],
       issued := s.issued[jti := TokenOf(id, u)], unsettled := s.unsettled + {jti})
  }

  /** The session's foreign key: a login whose account is gone aborts instead. */
  predicate CanCommitLogin(s: State, r: TxnId, row: SessionId) {
    IsLogin(s, r, false) && s.txns[r].user in s.db.users && WritableRow(s.db, row, s.txns[r].user)
  }

  function CommittedLogin(s: State, r: TxnId, row: SessionId, jwtExp: real, refreshExp: real): State
    requires IsLogin(s, r, false)
  {
    var t := s.txns[r];
    s.(db := WithSession(s.db, row, t.user, t.snapshot.generation, t.jti, jwtExp, refreshExp),
       txns := s.txns[r := t.(committed := true)], unsettled := s.unsettled - {t.jti})
  }

  function DeliveredLogin(s: State, r: TxnId, registered: bool): State
    requires IsLogin(s, r, true)
  {
    var jti := s.txns[r].jti;
    s.(txns := s.txns - {r}, delivered := s.delivered + {jti},
       allowlist := if registered then s.allowlist + {jti} else s.allowlist)
  }

  // ----- refresh -----

  predicate LineageCurrent(s: State, jti: Jti, u: User) {
    exists id | id in s.db.sessions :: s.db.sessions[id].jti == jti && !IsStale(s.db.sessions[id].stamp, u.generation)
  }

  /** Row lock, reload, lineage check and signing. */
  predicate CanBeginRefresh(s: State, r: TxnId, oldJti: Jti, newJti: Jti) {
    && r !in s.txns && oldJti in s.delivered && oldJti in s.issued && newJti !in s.issued
    && var id := s.issued[oldJti].sub;
       CanWriteUser(s, id) && CanSign(s.db.users[id]) && LineageCurrent(s, oldJti, s.db.users[id])
  }

  function BegunRefresh(s: State, r: TxnId, oldJti: Jti, newJti: Jti, viaRedis: bool): State
    requires oldJti in s.issued && s.issued[oldJti].sub in s.db.users
  {
    var id := s.issued[oldJti].sub;
    var u := s.db.users[id];
    s.(txns := s.txns[r := Refresh(id, u, oldJti, newJti, viaRedis, false)],
       rowLocks := s.rowLocks[id := r],
       issued := s.issued[newJti := TokenOf(id, u)], unsettled := s.unsettled + {newJti})
  }

  predicate AtSwap(s: State, r: TxnId) {
    IsRefresh(s, r) && s.txns[r].viaRedis && !s.txns[r].rotated
  }

  function RotatedRefresh(s: State, r: TxnId): State
    requires AtSwap(s, r)
  {
    var t := s.txns[r];
    s.(txns := s.txns[r := t.(rotated := true)], allowlist := s.allowlist - {t.oldJti} + {t.newJti})
  }

  /** The swap found the identifier gone: every session of the account is revoked. */
  function ReuseRefresh(s: State, r: TxnId): State
    requires AtSwap(s, r)
  {
    var t := s.txns[r];
    Ended(s.(db := WithoutSessionsOf(s.db, t.user),
             effects := s.effects + JtisOf(s.db.sessions, ActiveSessions(s.db, t.user, s.fleet.now)),
             unsettled := s.unsettled - {t.newJti}), r)
  }

  predicate CanCommitRefresh(s: State, r: TxnId, row: SessionId) {
    && IsRefresh(s, r) && (s.txns[r].viaRedis ==> s.txns[r].rotated)
    && WritableRow(s.db, row, s.txns[r].user)
  }

  function CommittedRefresh(s: State, r: TxnId, row: SessionId, jwtExp: real, refreshExp: real): State
    requires IsRefresh(s, r)
  {
    var t := s.txns[r];
    Ended(s.(db := WithSession(s.db, row, t.user, t.snapshot.generation, t.newJti, jwtExp, refreshExp),
             unsettled := s.unsettled - {t.newJti}, delivered := s.delivered + {t.newJti},
             refreshed := s.refreshed + multiset{t.oldJti}), r)
  }

  // ----- administration -----

  predicate CanBeginAdmin(s: State, r: TxnId, op: Op) {
    r !in s.txns && s.policyLock.None? && AffectsSet(op)
  }

  function BegunAdmin(s: State, r: TxnId, actor: UserId, id: UserId, op: Op): State {
    s.(txns := s.txns[r := Admin(actor, id, op, false)], policyLock := Some(r))
  }

  function OpRefusal(db: Db, actor: UserId, user: UserId, op: Op): Option<Refusal>
    requires user in db.users
  {
    match op
    case Change(upd) => ChangeRefusal(db, actor, user, upd)
    case Delete => DeleteRefusal(db, user)
  }

  /** Row lock and guards. The code reads the account before it locks it; here, as the
      code relies on, what it read equals the locked row (see `StaleRead`). */
  predicate CanCheckAdmin(s: State, r: TxnId) {
    IsAdmin(s, r, false) && CanWriteUser(s, s.txns[r].user)
    && OpRefusal(s.db, s.txns[r].actor, s.txns[r].user, s.txns[r].op).None?
  }

  function CheckedAdmin(s: State, r: TxnId): State
    requires IsAdmin(s, r, false)
  {
    s.(txns := s.txns[r := s.txns[r].(checked := true)], rowLocks := s.rowLocks[s.txns[r].user := r])
  }

  function Enqueued(p: Params, fleet: F.Fleet, rows: seq<Row>): F.Fleet
    requires forall i | 0 <= i < |rows| :: rows[i].status == Pending && rows[i].nextAttemptAt == None
  {
    F.Apply(p.worker, fleet, F.Enqueue(rows))
  }

  predicate CanCommitAdmin(s: State, r: TxnId, ids: seq<SessionId>) {
    && IsAdmin(s, r, true) && s.txns[r].user in s.db.users
    && Lists(ids, ActiveSessions(s.db, s.txns[r].user, s.fleet.now))
  }

  /** The fleet once the effects of a user's next generation are enqueued. */
  function Announced(p: Params, fleet: F.Fleet, db: Db, id: UserId, ids: seq<SessionId>): F.Fleet
    requires id in db.users && forall i | 0 <= i < |ids| :: ids[i] in db.sessions
  {
    Enqueued(p, fleet, Effects(db, id, db.users[id].generation + 1, ids))
  }

  function ChangedBy(p: Params, s: State, id: UserId, upd: Update, ids: seq<SessionId>): State
    requires id in s.db.users && forall i | 0 <= i < |ids| :: ids[i] in s.db.sessions
  {
    s.(db := ChangedDb(s.db, id, upd),
       fleet := if AuthorizationChanged(s.db.users[id], upd) then Announced(p, s.fleet, s.db, id, ids) else s.fleet)
  }

  function DeletedBy(s: State, id: UserId): State
    requires id in s.db.users
  {
    s.(db := DeletedDb(s.db, id, s.fleet.now),
       deleted := s.deleted[id := Deletion(s.fleet.now, s.db.users[id].generation + 1)])
  }

  function CommittedAdmin(p: Params, s: State, r: TxnId, ids: seq<SessionId>): State
    requires CanCommitAdmin(s, r, ids)
  {
    var t := s.txns[r];
    if t.op.Delete? then DeletedBy(Ended(s, r), t.user) else ChangedBy(p, Ended(s, r), t.user, t.op.upd, ids)
  }

  /** A crash, an error or a refusal: everything uncommitted is rolled back. */
  function Aborted(s: State, r: TxnId): State
    requires r in s.txns
  {
    var t := s.txns[r];
    Ended(s.(unsettled := if t.Login? then s.unsettled - {t.jti}
                          else if t.Refresh? then s.unsettled - {t.newJti} else s.unsettled), r)
  }

  predicate CanRepair(s: State, id: UserId, ids: seq<SessionId>) {
    && CanWriteUser(s, id) && Mismatched(s.db.users[id]) && CanAdvance(s.db.users[id].generation)
    && Lists(ids, ActiveSessions(s.db, id, s.fleet.now))
  }

  function Repaired(p: Params, s: State, id: UserId, role: Role, ids: seq<SessionId>): State
    requires CanRepair(s, id, ids)
  {
    s.(db := RepairedDb(s.db, id, role),
       fleet := Announced(p, s.fleet, s.db, id, ids))
  }

  // ----- revocation -----

  /** Administrative and expiry deletes: any rows go, and some of them are captured. */
  function DroppedSessions(s: State, rows: set<SessionId>, captured: set<SessionId>): State
    requires captured <= s.db.sessions.Keys
  {
    s.(db := s.db.(sessions := s.db.sessions - rows), effects := s.effects + JtisOf(s.db.sessions, captured))
  }

  function LoggedOut(s: State, jti: Jti): State {
    s.(db := s.db.(sessions := map id | id in s.db.sessions && s.db.sessions[id].jti != jti :: s.db.sessions[id]),
       effects := s.effects + {jti})
  }

  /** `drop`: a captured session's refresh identifier goes as well; a logout blacklists only. */
  function AppliedEffect(s: State, jti: Jti, ttl: int, drop: bool): State {
    s.(effects := s.effects - {jti}, allowlist := if drop then s.allowlist - {jti} else s.allowlist,
       blacklist := if ttl > 0 then s.blacklist[jti := s.fleet.now + ttl as real] else s.blacklist)
  }

  // ----- background work -----

  /** The Redis side of one worker step. `wrote` covers a delivery that set the blacklist
      key and then failed on the next command. */
  function WorkRedis(s: State, step: F.Action, wrote: bool): State
    requires step.Finish? ==> step.worker in s.fleet.held && s.fleet.held[step.worker].loaded.Some?
  {
    if !step.Finish? then s
    else
      var batch := s.fleet.held[step.worker];
      var row := batch.loaded.value.row;
      if row.effect.Publish? || Ttl(row.effect.expiresAt, batch.claimedAt) <= 0 || !(step.redisOk || wrote) then s
      else
        var until := batch.claimedAt + Ttl(row.effect.expiresAt, batch.claimedAt) as real;
        s.(blacklist := s.blacklist[row.effect.jti := until],
           allowlist := if step.redisOk then s.allowlist - {row.effect.jti} else s.allowlist)
  }

  predicate CanWork(p: Params, s: State, step: F.Action) {
    !step.Enqueue? && F.Enabled(p.worker, s.fleet, step)
  }

  function Worked(p: Params, s: State, step: F.Action, wrote: bool): State
    requires CanWork(p, s, step)
  {
    WorkRedis(s, step, wrote).(fleet := F.Apply(p.worker, s.fleet, step))
  }

  function Cleaned(p: Params, s: State): State {
    s.(db := s.db.(tombstones := CleanedTombstones(s.db.tombstones, Referenced(s.fleet.rows), s.fleet.now, p.retention)))
  }

  // ----- steps -----

  predicate Enabled(p: Params, s: State, a: Action) {
    match a
    case CreateUser(id, _, _, _) => CanCreateUser(s, id)
    case EditProfile(id, _) => CanWriteUser(s, id)
    case LoginRead(r, id, jti) => CanReadLogin(s, r, id, jti)
    case LoginCommit(r, row, _, _) => CanCommitLogin(s, r, row)
    case LoginDeliver(r, _) => IsLogin(s, r, true)
    case RefreshBegin(r, oldJti, newJti, _) => CanBeginRefresh(s, r, oldJti, newJti)
    case RefreshRotate(r) => AtSwap(s, r) && s.txns[r].oldJti in s.allowlist
    case RefreshReuse(r) => AtSwap(s, r) && s.txns[r].oldJti !in s.allowlist
    case RefreshCommit(r, row, _, _) => CanCommitRefresh(s, r, row)
    case AdminBegin(r, _, _, op) => CanBeginAdmin(s, r, op)
    case AdminCheck(r) => CanCheckAdmin(s, r)
    case AdminCommit(r, ids) => CanCommitAdmin(s, r, ids)
    case Abort(r) => r in s.txns
    case Repair(id, _, ids) => CanRepair(s, id, ids)
    case DropSessions(rows, captured) => captured <= rows <= s.db.sessions.Keys
    case Logout(jti) => jti in s.delivered
    case ApplyEffect(jti, _, _) => jti in s.effects
    case ForgetEffect(jti) => jti in s.effects
    case Work(step, _) => CanWork(p, s, step)
    case CleanTombstones => true
    case RedisLoss(_, _) => true
    case SelfDelete(jti, asked) => CanSelfDelete(s, jti, asked)
  }

  function Apply(p: Params, s: State, a: Action): State
    requires Enabled(p, s, a)
  {
    match a
    case CreateUser(id, role, active, profile) => CreatedUser(s, id, role, active, profile)
    case EditProfile(id, profile) => EditedProfile(s, id, profile)
    case LoginRead(r, id, jti) => ReadLogin(s, r, id, jti)
    case LoginCommit(r, row, jwtExp, refreshExp) => CommittedLogin(s, r, row, jwtExp, refreshExp)
    case LoginDeliver(r, registered) => DeliveredLogin(s, r, registered)
    case RefreshBegin(r, oldJti, newJti, viaRedis) => BegunRefresh(s, r, oldJti, newJti, viaRedis)
    case RefreshRotate(r) => RotatedRefresh(s, r)
    case RefreshReuse(r) => ReuseRefresh(s, r)
    case RefreshCommit(r, row, jwtExp, refreshExp) => CommittedRefresh(s, r, row, jwtExp, refreshExp)
    case AdminBegin(r, actor, id, op) => BegunAdmin(s, r, actor, id, op)
    case AdminCheck(r) => CheckedAdmin(s, r)
    case AdminCommit(r, ids) => CommittedAdmin(p, s, r, ids)
    case Abort(r) => Aborted(s, r)
    case Repair(id, role, ids) => Repaired(p, s, id, role, ids)
    case DropSessions(rows, captured) => DroppedSessions(s, rows, captured)
    case Logout(jti) => LoggedOut(s, jti)
    case ApplyEffect(jti, ttl, drop) => AppliedEffect(s, jti, ttl, drop)
    case ForgetEffect(jti) => s.(effects := s.effects - {jti})
    case Work(step, wrote) => Worked(p, s, step, wrote)
    case CleanTombstones => Cleaned(p, s)
    case RedisLoss(allow, black) => s.(allowlist := s.allowlist - allow, blacklist := s.blacklist - black)
    case SelfDelete(jti, _) => SelfDeleted(s, jti)
  }

  // ----- runs -----

  predicate EnabledRun(p: Params, s: State, run: seq<Action>)
    decreases |run|
  {
    run == [] || (Enabled(p, s, run[0]) && EnabledRun(p, Apply(p, s, run[0]), run[1..]))
  }

  function Run(p: Params, s: State, run: seq<Action>): State
    requires EnabledRun(p, s, run)
    decreases |run|
  {
    if run == [] then s else Run(p, Apply(p, s, run[0]), run[1..])
  }

  // ----- what the status endpoint answers -----

  ghost predicate Vouches(s: State, jti: Jti, expected: UserId) {
    Decide(s.db, jti, expected).Active?
  }

  /** The whole stateful answer: the database decision, then the blacklist if there is a
      Redis client. */
  ghost predicate AnswersActive(s: State, jti: Jti, expected: UserId, hasRedis: bool) {
    && Vouches(s, jti, expected)
    && !(hasRedis && jti in s.blacklist && s.fleet.now < s.blacklist[jti])
  }

  // ----- the starting state -----

  /** A deployment the mechanism is switched on in: accounts with any roles, flags and
      generations; live sessions that predate stamps; tokens that predate generations;
      no worker, transaction, outbox row or tombstone yet. */
  ghost predicate Start(s: State) {
    && F.Start(s.fleet) && s.blacklist == map[] && s.effects == {} && s.txns == map[]
    && s.policyLock == None && s.rowLocks == map[] && s.unsettled == {} && s.refreshed == multiset{}
    && s.db.tombstones == map[] && s.deleted == map[] && s.usedIds == s.db.users.Keys
    && (forall j | j in s.issued :: s.issued[j].generation == None && s.issued[j].sub in s.usedIds)
    && s.delivered <= s.issued.Keys && s.allowlist <= s.issued.Keys
    && (forall id | id in s.db.sessions ::
          var row := s.db.sessions[id];
          && row.owner in s.db.users && row.stamp == None
          && row.jti in s.issued && s.issued[row.jti].sub == row.owner)
    && (forall a, b | a in s.db.sessions && b in s.db.sessions && a != b :: s.db.sessions[a].jti != s.db.sessions[b].jti)
  }
}
