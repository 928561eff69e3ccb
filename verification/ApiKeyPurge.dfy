/** Purging dead API keys: the batched sweep, and why nobody presenting a key can tell. */
module ApiKeyPurge {
  import opened Basics
  import opened BatchSelection
  import opened Retention

  type KeyId = nat
  type Digest = nat

  datatype Key = Key(hash: Digest, owner: UserId, revoked: bool, updatedAt: real, expiresAt: Option<real>, lastUsedAt: Option<real>)

  predicate Dead(k: Key, horizon: real) {
    || (k.revoked && k.updatedAt < horizon)
    || (k.expiresAt.Some? && k.expiresAt.value < horizon)
  }

  function DeadKeys(keys: map<KeyId, Key>, horizon: real): set<KeyId> {
    set id | id in keys && Dead(keys[id], horizon)
  }

  /** The one-line specification of the sweep. */
  function Purged(keys: map<KeyId, Key>, horizon: real): map<KeyId, Key> {
    keys - DeadKeys(keys, horizon)
  }

  /** ORDER BY id LIMIT batch. */
  predicate FirstById(ids: set<KeyId>, picked: set<KeyId>, batch: nat) {
    && picked <= ids && |picked| == (if |ids| <= batch then |ids| else batch)
    && forall x, y | x in picked && y in ids && y !in picked :: x < y
  }

  function ById(ids: set<KeyId>): Ranks {
    map id | id in ids :: id as real
  }

  /** Ids never tie, so the claim is the same set as long as the dead keys are. */
  lemma ByIdIsForced(ids: set<KeyId>, picked: set<KeyId>, other: set<KeyId>, batch: nat)
    requires FirstById(ids, picked, batch) && FirstById(ids, other, batch)
    ensures picked == other
  {
    FirstByIdIsFirstBatch(ids, picked, batch);
    FirstByIdIsFirstBatch(ids, other, batch);
    ForcedIffNoTieAtEdge(ById(ids), picked, batch);
  }

  lemma FirstByIdIsFirstBatch(ids: set<KeyId>, picked: set<KeyId>, batch: nat)
    ensures FirstById(ids, picked, batch) <==> FirstBatch(ById(ids), picked, batch)
  {
    assert ById(ids).Keys == ids && |ById(ids)| == |ById(ids).Keys|;
    if FirstBatch(ById(ids), picked, batch) {
      forall x, y | x in picked && y in ids && y !in picked
        ensures x < y
      {
        assert ById(ids)[x] <= ById(ids)[y];
      }
    }
  }

  /** The privileged-action row a purge leaves in the audit table. */
  datatype PurgeRecord = PurgeRecord(window: RetentionWindow, removed: nat, at: real)

  class KeyTable {
    var keys: map<KeyId, Key>
    var audit: seq<PurgeRecord>

    method ClaimBatch(horizon: real, batch: nat) returns (rows: set<KeyId>)
      ensures FirstById(DeadKeys(keys, horizon), rows, batch)
    {
      var dead := DeadKeys(keys, horizon);
      ghost var sample := SomeFirstBatch(ById(dead), batch);
      FirstByIdIsFirstBatch(dead, sample, batch);
      rows :| FirstById(dead, rows, batch);
    }

    /** Deletes and commits one batch; unless `honest`, an adversary undoes any of it. */
    method DeleteBatch(rows: set<KeyId>, honest: bool) returns (undone: set<KeyId>)
      modifies this`keys
      ensures undone <= rows && (honest ==> undone == {})
      ensures keys == old(keys) - (rows - undone)
    {
      undone := {};
      if !honest {
        undone :| undone <= rows;
      }
      keys := keys - (rows - undone);
    }

    /** The sweep: it ends against any adversary; with honest deletes it is the one-line
        specification; it reports a stall exactly when the last batch it claimed was full
        and came back whole; what it returns overstates the rows gone by those undone. */
    method SweepDeadKeys(horizon: real, batch: nat, honest: bool)
      returns (removed: nat, stalled: bool, ghost gone: set<KeyId>, ghost suppressed: nat,
               ghost lastClaimed: set<KeyId>, ghost lastUndone: set<KeyId>)
      requires batch >= 1
      modifies this`keys
      ensures gone <= DeadKeys(old(keys), horizon) && keys == old(keys) - gone
      ensures honest ==> !stalled && keys == Purged(old(keys), horizon) && removed == |DeadKeys(old(keys), horizon)|
      ensures stalled <==> |lastClaimed| == batch && lastUndone == lastClaimed
      ensures removed == |gone| + suppressed
    {
      removed, stalled, gone, suppressed, lastClaimed, lastUndone := 0, false, {}, 0, {}, {};
      ghost var left := DeadKeys(keys, horizon);
      var previous: set<KeyId> := {};
      while true
        invariant keys == old(keys) - gone && left == DeadKeys(keys, horizon)
        invariant gone !! left && gone + left == DeadKeys(old(keys), horizon)
        invariant removed == |gone| + suppressed && (honest ==> suppressed == 0)
        invariant previous == lastClaimed && lastUndone <= lastClaimed && (lastClaimed != {} ==> |lastClaimed| == batch)
        invariant honest ==> lastUndone == {}
        invariant lastClaimed != {} && lastUndone == lastClaimed ==> FirstById(left, lastClaimed, batch)
        invariant lastUndone != lastClaimed ==> !(lastClaimed <= left)
        decreases left, lastUndone != lastClaimed || lastClaimed == {}
      {
        var rows := ClaimBatch(horizon, batch);
        if lastClaimed != {} && lastUndone == lastClaimed {
          ByIdIsForced(left, lastClaimed, rows, batch);
        }
        if rows == {} {
          break;
        }
        if previous == rows {
          stalled := true;
          break;
        }
        var undone := DeleteBatch(rows, honest);
        BatchDeleted(old(keys), horizon, gone, left, rows, undone);
        gone, left := gone + (rows - undone), left - (rows - undone);
        suppressed := suppressed + |undone|;
        lastClaimed, lastUndone := rows, undone;
        removed := removed + |rows|;
        if |rows| < batch {
          break;
        }
        previous := rows;
      }
    }

    /** The operator's purge: below the floor nothing is touched; otherwise exactly the keys
        dead at the horizon go, and their number is recorded and returned. */
    method PurgeDeadApiKeys(window: RetentionWindow, floorSeconds: nat, now: real, batch: nat) returns (removed: Option<nat>)
      requires batch >= 1
      modifies this
      ensures removed.None? <==> WindowSeconds(window) < floorSeconds
      ensures removed.None? ==> keys == old(keys) && audit == old(audit)
      ensures removed.Some? ==>
                && keys == Purged(old(keys), Horizon(window, now)) && removed.value == |old(keys)| - |keys|
                && audit == old(audit) + [PurgeRecord(window, removed.value, now)]
                && (forall id :: id in keys <==>
                      && id in old(keys)
                      && (old(keys)[id].revoked ==> old(keys)[id].updatedAt >= now - WindowSeconds(window) as real)
                      && (old(keys)[id].expiresAt.Some? ==> old(keys)[id].expiresAt.value >= now - WindowSeconds(window) as real))
                && (forall id | id in keys :: keys[id] == old(keys)[id])
    {
      if WindowSeconds(window) < floorSeconds {
        return None;
      }
      ghost var before := keys;
      var n, _, _, _, _, _ := SweepDeadKeys(Horizon(window, now), batch, true);
      PurgedSize(before, Horizon(window, now));
      audit := audit + [PurgeRecord(window, n, now)];
      removed := Some(n);
    }

    /** The lookup behind every request that presents a key. */
    method GetActiveKey(digest: Digest, now: real) returns (found: Option<KeyId>)
      requires UniqueHashes(keys)
      ensures found == ActiveKey(keys, digest, now)
      ensures forall id :: found == Some(id) <==>
                && id in keys && keys[id].hash == digest && !keys[id].revoked
                && (keys[id].expiresAt.None? || now <= keys[id].expiresAt.value)
    {
      var matching := set id | id in keys && keys[id].hash == digest;
      if matching == {} {
        assert forall id | id in keys && keys[id].hash == digest :: id in matching;
        return None;
      }
      var id :| id in matching;
      if keys[id].revoked {
        return None;
      }
      if keys[id].expiresAt.Some? && keys[id].expiresAt.value < now {
        return None;
      }
      found := Some(id);
    }
  }

  /** The books after a batch: `gone` and `left` still split the dead keys. */
  lemma BatchDeleted(keys: map<KeyId, Key>, horizon: real, gone: set<KeyId>, left: set<KeyId>, rows: set<KeyId>, undone: set<KeyId>)
    requires left == DeadKeys(keys - gone, horizon) && gone !! left && gone + left == DeadKeys(keys, horizon)
    requires undone <= rows <= left
    ensures var gone', left' := gone + (rows - undone), left - (rows - undone);
            && keys - gone - (rows - undone) == keys - gone'
            && left' == DeadKeys(keys - gone', horizon) && gone' !! left' && gone' + left' == DeadKeys(keys, horizon)
            && |gone'| == |gone| + |rows| - |undone|
            && (undone == rows ==> left' == left) && (undone != rows ==> left' < left && !(rows <= left'))
  {
    RemoveMore(keys, gone, rows - undone);
    DeadAfterRemoval(keys, gone + (rows - undone), horizon);
    GoneGrows(gone, rows, undone);
    SplitMoves(gone, left, rows, undone);
  }

  lemma DeadAfterRemoval(keys: map<KeyId, Key>, s: set<KeyId>, horizon: real)
    ensures DeadKeys(keys - s, horizon) == DeadKeys(keys, horizon) - s
  {
  }

  lemma SplitMoves(gone: set<KeyId>, left: set<KeyId>, rows: set<KeyId>, undone: set<KeyId>)
    requires gone !! left && undone <= rows <= left
    ensures var gone', left' := gone + (rows - undone), left - (rows - undone);
            && gone' !! left' && gone' + left' == gone + left && gone + left - gone' == left'
            && (undone == rows ==> left' == left) && (undone != rows ==> left' < left && !(rows <= left'))
  {
    if undone != rows {
      var x :| x in rows && x !in undone;
      assert x in left && x !in left - (rows - undone);
    }
  }

  lemma RemoveMore(keys: map<KeyId, Key>, gone: set<KeyId>, more: set<KeyId>)
    ensures keys - gone - more == keys - (gone + more)
  {
  }

  lemma GoneGrows(gone: set<KeyId>, rows: set<KeyId>, undone: set<KeyId>)
    requires gone !! rows && undone <= rows
    ensures |gone + (rows - undone)| == |gone| + |rows| - |undone|
  {
    assert rows == undone + (rows - undone);
  }

  lemma PurgedSize(keys: map<KeyId, Key>, horizon: real)
    ensures |Purged(keys, horizon)| == |keys| - |DeadKeys(keys, horizon)|
  {
    assert Purged(keys, horizon).Keys == keys.Keys - DeadKeys(keys, horizon);
    assert keys.Keys == Purged(keys, horizon).Keys + DeadKeys(keys, horizon);
    assert |Purged(keys, horizon)| == |Purged(keys, horizon).Keys| && |keys| == |keys.Keys|;
  }

  // ----- what a caller presenting a key sees -----

  ghost predicate UniqueHashes(keys: map<KeyId, Key>) {
    forall a, b | a in keys && b in keys && keys[a].hash == keys[b].hash :: a == b
  }

  predicate Usable(k: Key, at: real) {
    !k.revoked && !(k.expiresAt.Some? && k.expiresAt.value < at)
  }

  ghost function ActiveKey(keys: map<KeyId, Key>, digest: Digest, at: real): Option<KeyId> {
    if id :| id in keys && keys[id].hash == digest then
      if Usable(keys[id], at) then Some(id) else None
    else None
  }

  /** Operations on the table after a purge; a new key's id and digest are new. */
  datatype Op =
    | Create(id: KeyId, key: Key)
    | Revoke(id: KeyId, at: real)
    | RevokeAll(owner: UserId, at: real)
    | Touch(id: KeyId, at: real)

  predicate CanApply(keys: map<KeyId, Key>, op: Op) {
    op.Create? ==> op.id !in keys && forall k | k in keys :: keys[k].hash != op.key.hash
  }

  function ApplyOp(keys: map<KeyId, Key>, op: Op): map<KeyId, Key> {
    match op
    case Create(id, key) => keys[id := key]
    case Revoke(id, at) => if id in keys then keys[id := keys[id].(revoked := true, updatedAt := at)] else keys
    case RevokeAll(owner, at) =>
      map k | k in keys :: if keys[k].owner == owner && !keys[k].revoked then keys[k].(revoked := true, updatedAt := at) else keys[k]
    case Touch(id, at) => if id in keys then keys[id := keys[id].(lastUsedAt := Some(at), updatedAt := at)] else keys
  }

  predicate CanRun(keys: map<KeyId, Key>, ops: seq<Op>)
    decreases |ops|
  {
    ops == [] || (CanApply(keys, ops[0]) && CanRun(ApplyOp(keys, ops[0]), ops[1..]))
  }

  function RunOps(keys: map<KeyId, Key>, ops: seq<Op>): map<KeyId, Key>
    decreases |ops|
  {
    if ops == [] then keys else RunOps(ApplyOp(keys, ops[0]), ops[1..])
  }

  // ----- how long a key works -----

  predicate Ends(op: Op, id: KeyId, owner: UserId) {
    (op.Revoke? && op.id == id) || (op.RevokeAll? && op.owner == owner)
  }

  lemma KeyStep(keys: map<KeyId, Key>, id: KeyId, op: Op, after: map<KeyId, Key>)
    requires UniqueHashes(keys) && id in keys && CanApply(keys, op) && after == ApplyOp(keys, op)
    ensures UniqueHashes(after) && id in after
    ensures after[id].hash == keys[id].hash && after[id].owner == keys[id].owner && after[id].expiresAt == keys[id].expiresAt
    ensures after[id].revoked <==> keys[id].revoked || Ends(op, id, keys[id].owner)
    ensures op.RevokeAll? && (keys[id].revoked || keys[id].owner != op.owner) ==> after[id] == keys[id]
  {
  }

  lemma {:induction false} KeyRun(keys: map<KeyId, Key>, id: KeyId, ops: seq<Op>)
    requires UniqueHashes(keys) && id in keys && CanRun(keys, ops)
    ensures var e := RunOps(keys, ops);
            && UniqueHashes(e) && id in e && e[id].hash == keys[id].hash && e[id].expiresAt == keys[id].expiresAt
            && (e[id].revoked <==> keys[id].revoked || exists i | 0 <= i < |ops| :: Ends(ops[i], id, keys[id].owner))
    decreases |ops|
  {
    if ops != [] {
      var after := ApplyOp(keys, ops[0]);
      KeyStep(keys, id, ops[0], after);
      KeyRun(after, id, ops[1..]);
      if i :| 0 <= i < |ops| && Ends(ops[i], id, keys[id].owner) {
        assert i > 0 ==> ops[1..][i - 1] == ops[i];
      }
    }
  }

  /** A key resolves from its creation until it or all its owner's keys are revoked, and, if it
      expires, up to and including its expiry, whatever else happens to the table. */
  lemma KeyWorksUntil(keys: map<KeyId, Key>, id: KeyId, key: Key, ops: seq<Op>, at: real)
    requires UniqueHashes(keys) && CanRun(keys, [Create(id, key)] + ops) && !key.revoked
    ensures ActiveKey(RunOps(keys, [Create(id, key)] + ops), key.hash, at) == Some(id)
            <==> && (key.expiresAt.Some? ==> at <= key.expiresAt.value)
                 && forall i | 0 <= i < |ops| :: !(ops[i].Revoke? && ops[i].id == id) && !(ops[i].RevokeAll? && ops[i].owner == key.owner)
  {
    var created := keys[id := key];
    assert ([Create(id, key)] + ops)[1..] == ops;
    assert UniqueHashes(created);
    KeyRun(created, id, ops);
  }

  /** The purged table is the full one without keys that are unusable from `at` on. */
  ghost predicate Simulates(full: map<KeyId, Key>, purged: map<KeyId, Key>, at: real) {
    && UniqueHashes(full) && purged.Keys <= full.Keys
    && (forall id | id in purged :: purged[id] == full[id])
    && (forall id | id in full && id !in purged :: !Usable(full[id], at))
  }

  lemma SimulatedLookup(full: map<KeyId, Key>, purged: map<KeyId, Key>, at: real, digest: Digest, later: real)
    requires Simulates(full, purged, at) && at <= later
    ensures ActiveKey(full, digest, later) == ActiveKey(purged, digest, later)
  {
  }

  lemma SimulatesStep(full: map<KeyId, Key>, purged: map<KeyId, Key>, at: real, op: Op)
    requires Simulates(full, purged, at) && CanApply(full, op)
    ensures Simulates(ApplyOp(full, op), ApplyOp(purged, op), at)
  {
  }

  lemma {:induction false} SimulatesRun(full: map<KeyId, Key>, purged: map<KeyId, Key>, at: real, ops: seq<Op>)
    requires Simulates(full, purged, at) && CanRun(full, ops)
    ensures Simulates(RunOps(full, ops), RunOps(purged, ops), at)
    decreases |ops|
  {
    if ops != [] {
      SimulatesStep(full, purged, at, ops[0]);
      SimulatesRun(ApplyOp(full, ops[0]), ApplyOp(purged, ops[0]), at, ops[1..]);
    }
  }

  /** No caller can ever tell that a purge ran: at every time from it onward, and after any
      later creations, revocations and uses, every presented key resolves as it would have. */
  lemma PurgeIsUnobservable(keys: map<KeyId, Key>, window: RetentionWindow, now: real, ops: seq<Op>, digest: Digest, later: real)
    requires UniqueHashes(keys) && CanRun(keys, ops) && now <= later
    ensures ActiveKey(RunOps(keys, ops), digest, later)
         == ActiveKey(RunOps(Purged(keys, Horizon(window, now)), ops), digest, later)
  {
    var horizon := Horizon(window, now);
    assert Simulates(keys, Purged(keys, horizon), now);
    SimulatesRun(keys, Purged(keys, horizon), now, ops);
    SimulatedLookup(RunOps(keys, ops), RunOps(Purged(keys, horizon), ops), now, digest, later);
  }

  /** For any horizon, lookups at `at` are unchanged exactly when no live key expires from
      `at` on and before the horizon: horizons up to `at` are always safe. */
  lemma LookupsUnchangedIff(keys: map<KeyId, Key>, horizon: real, at: real)
    requires UniqueHashes(keys)
    ensures (forall d :: ActiveKey(keys, d, at) == ActiveKey(Purged(keys, horizon), d, at))
            <==> forall id | id in keys && !keys[id].revoked && keys[id].expiresAt.Some? ::
                   !(at <= keys[id].expiresAt.value < horizon)
  {
    var purged := Purged(keys, horizon);
    if forall id | id in keys && !keys[id].revoked && keys[id].expiresAt.Some? :: !(at <= keys[id].expiresAt.value < horizon) {
      assert Simulates(keys, purged, at);
      forall d
        ensures ActiveKey(keys, d, at) == ActiveKey(purged, d, at)
      {
        SimulatedLookup(keys, purged, at, d, at);
      }
    } else {
      var id :| id in keys && !keys[id].revoked && keys[id].expiresAt.Some? && at <= keys[id].expiresAt.value < horizon;
      assert ActiveKey(keys, keys[id].hash, at) == Some(id);
      assert ActiveKey(purged, keys[id].hash, at) != Some(id);
    }
  }
}
