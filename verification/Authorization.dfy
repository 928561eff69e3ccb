/** The database rows behind authorization, and each transaction on them as a function:
    role and activation changes, account deletion, audited repair, the session writes,
    and the subject-bound status decision. */
module Authorization {
  import opened Basics
  import opened OutboxRows

  const GENERATION_START: nat := 1
  const GENERATION_MAX: nat := 0x7fff_ffff_ffff_ffff

  /** The role hierarchy belongs to the SDK; all that is used of it is a linear order
      with SUPERADMIN on top. */
  datatype Role = Ranked(rank: nat) | SuperAdmin

  predicate HasMinimumRole(role: Role, minimum: Role) {
    role.SuperAdmin? || (minimum.Ranked? && role.rank >= minimum.rank)
  }

  /** `profile` stands for every column no authorization decision reads. */
  datatype User = User(role: Role, isSuperuser: bool, isActive: bool, generation: nat, profile: int)

  datatype ClientSession = ClientSession(
    owner: UserId, jti: Jti, stamp: Option<nat>, revoked: bool,
    jwtExpiresAt: real, refreshExpiresAt: real)

  datatype Tombstone = Tombstone(terminal: nat, updatedAt: real)

  datatype ApiKey = ApiKey(owner: UserId, revoked: bool)

  datatype Db = Db(
    users: map<UserId, User>, sessions: map<SessionId, ClientSession>,
    tombstones: map<UserId, Tombstone>, keys: map<nat, ApiKey>, revision: nat)

  // ----- superuser evidence -----

  function DeriveIsSuperuser(role: Role): bool {
    role == SuperAdmin
  }

  /** The pair of privilege claims is consistent: the flag is the derived one. */
  predicate Consistent(role: Role, isSuperuser: bool) {
    isSuperuser == DeriveIsSuperuser(role)
  }

  predicate HasSuperuserPrivileges(role: Role, isSuperuser: bool) {
    role == SuperAdmin && isSuperuser
  }

  predicate IsActiveCanonicalSuperuser(u: User) {
    HasSuperuserPrivileges(u.role, u.isSuperuser) && u.isActive
  }

  function Superusers(users: map<UserId, User>): set<UserId> {
    set id | id in users && IsActiveCanonicalSuperuser(users[id])
  }

  // ----- generations and the status decision -----

  predicate CanAdvance(generation: nat) {
    generation < GENERATION_MAX
  }

  predicate IsStale(stamp: Option<nat>, ownerGeneration: nat) {
    stamp.None? || stamp.value != ownerGeneration
  }

  datatype Decision = Inactive | Active(user: UserId, generation: nat)

  /** The row the query for one token identifier returns. */
  ghost function SessionOf(sessions: map<SessionId, ClientSession>, jti: Jti): (r: Option<ClientSession>)
    ensures r.None? <==> forall id | id in sessions :: sessions[id].jti != jti
    ensures r.Some? ==> exists id | id in sessions :: sessions[id] == r.value && r.value.jti == jti
  {
    if id :| id in sessions && sessions[id].jti == jti then Some(sessions[id]) else None
  }

  /** The ordered decision on the row found: tombstone, missing or revoked session,
      foreign subject, missing, inactive or inconsistent owner, stale stamp. */
  function DecideFor(db: Db, row: Option<ClientSession>, expected: UserId): Decision {
    if expected in db.tombstones then Inactive
    else if row.None? || row.value.revoked then Inactive
    else if row.value.owner != expected then Inactive
    else if expected !in db.users || !db.users[expected].isActive then Inactive
    else if !Consistent(db.users[expected].role, db.users[expected].isSuperuser) then Inactive
    else if IsStale(row.value.stamp, db.users[expected].generation) then Inactive
    else Active(expected, db.users[expected].generation)
  }

  ghost function Decide(db: Db, jti: Jti, expected: UserId): Decision {
    DecideFor(db, SessionOf(db.sessions, jti), expected)
  }

  // ----- session rows -----

  /** Select-then-insert, taken as one step: it re-stamps `row` if that is a row of the
      user, and otherwise inserts `row`. The revoked flag of a reused row is kept. */
  function WithSession(db: Db, row: SessionId, owner: UserId, generation: nat, jti: Jti, jwtExp: real, refreshExp: real): Db {
    var revoked := row in db.sessions && db.sessions[row].revoked;
    db.(sessions := db.sessions[row := ClientSession(owner, jti, Some(generation), revoked, jwtExp, refreshExp)])
  }

  /** The row create_client_session may write: some row of the user, or a new one if the
      user has none. */
  predicate WritableRow(db: Db, row: SessionId, owner: UserId) {
    if row in db.sessions then db.sessions[row].owner == owner
    else forall id | id in db.sessions :: db.sessions[id].owner != owner
  }

  function WithoutSessionsOf(db: Db, user: UserId): Db {
    db.(sessions := map id | id in db.sessions && db.sessions[id].owner != user :: db.sessions[id])
  }

  /** Rows captured for the accelerators: not revoked and not past the refresh expiry. */
  function ActiveSessions(db: Db, user: UserId, now: real): set<SessionId> {
    set id | id in db.sessions && db.sessions[id].owner == user
             && !db.sessions[id].revoked && db.sessions[id].refreshExpiresAt > now
  }

  /** `ids` lists a set once each, in some order. */
  predicate Lists(ids: seq<SessionId>, s: set<SessionId>) {
    && (forall i, j | 0 <= i < j < |ids| :: ids[i] != ids[j])
    && (forall i | 0 <= i < |ids| :: ids[i] in s)
    && (forall id | id in s :: id in ids)
  }

  function BlacklistRows(sessions: map<SessionId, ClientSession>, user: UserId, generation: nat, ids: seq<SessionId>): (rows: seq<Row>)
    requires forall i | 0 <= i < |ids| :: ids[i] in sessions
    ensures |rows| == |ids|
    ensures forall i | 0 <= i < |ids| ::
              rows[i] == NewRow(user, generation, Blacklist(sessions[ids[i]].jti, sessions[ids[i]].jwtExpiresAt))
  {
    if ids == [] then []
    else
      var last := sessions[ids[|ids| - 1]];
      BlacklistRows(sessions, user, generation, ids[..|ids| - 1])
      + [NewRow(user, generation, Blacklist(last.jti, last.jwtExpiresAt))]
  }

  /** One blacklist row per captured session, then one publish row. */
  function Effects(db: Db, user: UserId, generation: nat, ids: seq<SessionId>): (rows: seq<Row>)
    requires forall i | 0 <= i < |ids| :: ids[i] in db.sessions
    ensures |rows| == |ids| + 1
  {
    BlacklistRows(db.sessions, user, generation, ids) + [NewRow(user, generation, Publish)]
  }

  // ----- admin update -----

  /** A payload field: not supplied, supplied as null, or supplied. */
  datatype Field<+T> = Unset | Null | Set(value: T)

  datatype Update = Update(role: Field<Role>, isActive: Field<bool>, profile: Option<int>)

  datatype Intent = Intent(
    roleRequested: bool, activeRequested: bool, previousRole: Role, previousActive: bool,
    intendedRole: Role, intendedActive: bool)
  {
    predicate AffectsSet() { roleRequested || activeRequested }
    predicate ActivationChanged() { activeRequested && intendedActive != previousActive }
    predicate Deactivated() { activeRequested && previousActive && !intendedActive }
  }

  function ResolveIntent(u: User, upd: Update): Intent {
    Intent(upd.role.Set?, upd.isActive.Set?, u.role, u.isActive,
           if upd.role.Set? then upd.role.value else u.role,
           if upd.isActive.Set? then upd.isActive.value else u.isActive)
  }

  predicate IsPromotion(previous: Role, intended: Role) {
    intended != previous && HasMinimumRole(intended, previous)
  }

  datatype Refusal =
    | SelfPromotion | LastSuperuser | GenerationOverflow | NullRole | UserNotFound | NotMismatched | DuplicateEffect

  datatype Outcome =
    | Refused(reason: Refusal)
    | Committed(db: Db, enqueued: seq<Row>)

  /** The allowlisted fields and the re-derived flag. A role supplied as null violates
      NOT NULL and aborts, so it is handled before this. */
  function Applied(u: User, upd: Update): User {
    var profile := if upd.profile.Some? then upd.profile.value else u.profile;
    var v := u.(profile := profile);
    var w := if upd.role.Set? then v.(role := upd.role.value, isSuperuser := DeriveIsSuperuser(upd.role.value)) else v;
    if upd.isActive.Set? then w.(isActive := upd.isActive.value) else w
  }

  /** Whether the update is an authorization transition. */
  predicate AuthorizationChanged(u: User, upd: Update) {
    (upd.role.Set? && upd.role.value != u.role) || ResolveIntent(u, upd).ActivationChanged()
  }

  /** The guard on the superuser set: the target is in it and would leave it. */
  predicate WouldLeaveSet(u: User, upd: Update) {
    var intent := ResolveIntent(u, upd);
    && IsActiveCanonicalSuperuser(u)
    && !(HasSuperuserPrivileges(intent.intendedRole, DeriveIsSuperuser(intent.intendedRole)) && intent.intendedActive)
  }

  function RevokedKeys(keys: map<nat, ApiKey>, owner: UserId): map<nat, ApiKey> {
    map k | k in keys :: if keys[k].owner == owner then keys[k].(revoked := true) else keys[k]
  }

  /** The guards of a change, in the order the code evaluates them. */
  function ChangeRefusal(db: Db, actor: UserId, id: UserId, upd: Update): Option<Refusal>
    requires id in db.users
  {
    var u := db.users[id];
    var intent := ResolveIntent(u, upd);
    if intent.roleRequested && actor == id && IsPromotion(intent.previousRole, intent.intendedRole) then Some(SelfPromotion)
    else if intent.AffectsSet() && WouldLeaveSet(u, upd) && Superusers(db.users) - {id} == {} then Some(LastSuperuser)
    else if (upd.role.Null? || AuthorizationChanged(u, upd)) && !CanAdvance(u.generation) then Some(GenerationOverflow)
    else if upd.role.Null? then Some(NullRole)
    else None
  }

  /** The committed effect of a change no guard refuses. */
  function ChangedDb(db: Db, id: UserId, upd: Update): Db
    requires id in db.users
  {
    var u := db.users[id];
    var v := Applied(u, upd);
    if !AuthorizationChanged(u, upd) then db.(users := db.users[id := v])
    else
      var bumped := v.(generation := u.generation + 1);
      var revoked := WithoutSessionsOf(db.(users := db.users[id := bumped]), id);
      revoked.(
        keys := if ResolveIntent(u, upd).Deactivated() then RevokedKeys(db.keys, id) else db.keys,
        revision := db.revision + 1)
  }

  function ChangeOutcome(db: Db, actor: UserId, id: UserId, upd: Update, ids: seq<SessionId>): Outcome
    requires id in db.users
    requires forall i | 0 <= i < |ids| :: ids[i] in db.sessions
  {
    var refusal := ChangeRefusal(db, actor, id, upd);
    if refusal.Some? then Refused(refusal.value)
    else Committed(
      ChangedDb(db, id, upd),
      if AuthorizationChanged(db.users[id], upd) then Effects(db, id, db.users[id].generation + 1, ids) else [])
  }

  // ----- account deletion -----

  function DeleteRefusal(db: Db, id: UserId): Option<Refusal>
    requires id in db.users
  {
    if IsActiveCanonicalSuperuser(db.users[id]) && Superusers(db.users) - {id} == {} then Some(LastSuperuser)
    else if !CanAdvance(db.users[id].generation) then Some(GenerationOverflow)
    else None
  }

  /** Row removal with the cascades of its foreign keys. */
  function WithoutUser(db: Db, id: UserId): Db {
    WithoutSessionsOf(db, id).(
      users := db.users - {id},
      keys := map k | k in db.keys && db.keys[k].owner != id :: db.keys[k])
  }

  /** The idempotent upsert: a replayed delete can only raise the terminal generation. */
  function WithTombstone(db: Db, id: UserId, generation: nat, now: real): Db {
    var terminal := generation + 1;
    if id in db.tombstones && terminal <= db.tombstones[id].terminal then db
    else db.(tombstones := db.tombstones[id := Tombstone(terminal, now)])
  }

  function DeletedDb(db: Db, id: UserId, now: real): Db
    requires id in db.users
  {
    var d := WithoutUser(WithTombstone(db, id, db.users[id].generation, now), id);
    d.(revision := db.revision + 1)
  }

  function DeletionOutcome(db: Db, id: UserId, now: real): Outcome
    requires id in db.users
  {
    var refusal := DeleteRefusal(db, id);
    if refusal.Some? then Refused(refusal.value) else Committed(DeletedDb(db, id, now), [])
  }

  // ----- audited repair -----

  predicate Mismatched(u: User) {
    !Consistent(u.role, u.isSuperuser)
  }

  function RepairedDb(db: Db, id: UserId, role: Role): Db
    requires id in db.users
  {
    var u := db.users[id];
    var v := u.(role := role, isSuperuser := DeriveIsSuperuser(role), generation := u.generation + 1);
    WithoutSessionsOf(db.(users := db.users[id := v]), id)
  }

  function RepairOutcome(db: Db, id: UserId, role: Role, ids: seq<SessionId>): Outcome
    requires forall i | 0 <= i < |ids| :: ids[i] in db.sessions
  {
    if id !in db.users then Refused(UserNotFound)
    else if !Mismatched(db.users[id]) then
      if db.users[id].role != role then Refused(NotMismatched) else Committed(db, [])
    else if !CanAdvance(db.users[id].generation) then Refused(GenerationOverflow)
    else Committed(RepairedDb(db, id, role), Effects(db, id, db.users[id].generation + 1, ids))
  }

  // ----- tombstone cleanup -----

  function CleanedTombstones(tombstones: map<UserId, Tombstone>, referenced: set<UserId>, now: real, retention: real): map<UserId, Tombstone> {
    map id | id in tombstones && (id in referenced || now - tombstones[id].updatedAt < retention) :: tombstones[id]
  }

  /** The subjects named by an effect that is not completed. */
  function Referenced(rows: map<RowId, Row>): set<UserId> {
    set id | id in rows && Undelivered(rows[id]) :: rows[id].user
  }

  /** Max of the access and refresh token lifetimes, the completed-row retention and the
      declared consumer horizon, all in seconds. */
  function RetentionSeconds(accessMinutes: nat, refreshMinutes: nat, completedRetention: nat, consumerHorizon: nat): (r: nat)
    ensures accessMinutes * 60 <= r && refreshMinutes * 60 <= r && completedRetention <= r && consumerHorizon <= r
    ensures r in {accessMinutes * 60, refreshMinutes * 60, completedRetention, consumerHorizon}
  {
    Max(accessMinutes * 60, Max(refreshMinutes * 60, Max(completedRetention, consumerHorizon)))
  }
}
