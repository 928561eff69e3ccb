/** One outbox worker as it runs: claim a batch, deliver it row by row, reap. */
module OutboxWorker {
  import opened Basics
  import opened OutboxRows
  import opened RedisStore

  /** The outbox table. Identifiers follow creation order. */
  class OutboxTable {
    var rows: map<RowId, Row>
    var nextId: RowId

    ghost predicate Valid()
      reads this
    {
      forall id | id in rows :: id < nextId
    }
  }

  /** Which of the two Redis commands of a blacklist effect raises, if any. */
  datatype Fault = NoFault | SetexRaises | DelRaises

  datatype DrainStats = DrainStats(claimed: nat, completed: nat, retried: nat, dead: nat)

  // ----- specification -----

  /** The first `limit` eligible rows from identifier `from` on, in creation order. */
  function FirstEligible(rows: map<RowId, Row>, now: real, from: RowId, nextId: RowId, limit: nat): seq<RowId>
    decreases nextId - from
  {
    if from >= nextId || limit == 0 then []
    else if from in rows && Eligible(rows[from], now) then
      [from] + FirstEligible(rows, now, from + 1, nextId, limit - 1)
    else FirstEligible(rows, now, from + 1, nextId, limit)
  }

  function ClaimedRows(c: Config, rows: map<RowId, Row>, ids: seq<RowId>, now: real): map<RowId, Row> {
    map id | id in rows :: if id in ids then Claimed(c, rows[id], now) else rows[id]
  }

  function RedisOk(hasRedis: bool, fault: Fault): bool {
    hasRedis && fault.NoFault?
  }

  function FaultOf(faults: map<RowId, Fault>, id: RowId): Fault {
    if id in faults then faults[id] else NoFault
  }

  /** The table after the rows `ids`, already claimed, were delivered. */
  function DeliveredRows(c: Config, rows: map<RowId, Row>, ids: seq<RowId>, hasRedis: bool,
                         faults: map<RowId, Fault>, now: real): map<RowId, Row> {
    map id | id in rows ::
      if id in ids then Processed(c, rows[id], RedisOk(hasRedis, FaultOf(faults, id)), now) else rows[id]
  }

  function CountStatus(rows: map<RowId, Row>, ids: seq<RowId>, status: Status): nat {
    if ids == [] then 0
    else
      CountStatus(rows, ids[..|ids| - 1], status)
      + (if ids[|ids| - 1] in rows && rows[ids[|ids| - 1]].status == status then 1 else 0)
  }

  /** A batch is what the query asks for: eligible rows in creation order, at most
      `limit`, and a row is passed over only when `limit` older ones were taken. */
  lemma {:induction false} FirstEligibleIsOldest(rows: map<RowId, Row>, now: real, from: RowId, nextId: RowId, limit: nat)
    ensures var ids := FirstEligible(rows, now, from, nextId, limit);
            && |ids| <= limit
            && (forall i | 0 <= i < |ids| :: from <= ids[i] < nextId && ids[i] in rows && Eligible(rows[ids[i]], now))
            && (forall i, j | 0 <= i < j < |ids| :: ids[i] < ids[j])
            && (forall id | from <= id < nextId && id in rows && Eligible(rows[id], now) && id !in ids ::
                  |ids| == limit && forall i | 0 <= i < |ids| :: ids[i] < id)
    decreases nextId - from
  {
    if from >= nextId || limit == 0 {
    } else if from in rows && Eligible(rows[from], now) {
      FirstEligibleIsOldest(rows, now, from + 1, nextId, limit - 1);
      var rest := FirstEligible(rows, now, from + 1, nextId, limit - 1);
      forall id | from <= id < nextId && id in rows && Eligible(rows[id], now) && id !in [from] + rest
        ensures |rest| == limit - 1 && forall i | 0 <= i < |rest| :: rest[i] < id
      {
        assert from in [from] + rest;
      }
    } else {
      FirstEligibleIsOldest(rows, now, from + 1, nextId, limit);
    }
  }

  lemma {:induction false} CountStatusFrame(a: map<RowId, Row>, b: map<RowId, Row>, ids: seq<RowId>, status: Status)
    requires forall id | id in ids && id in a :: id in b && a[id].status == b[id].status
    requires forall id | id in ids && id in b :: id in a
    ensures CountStatus(a, ids, status) == CountStatus(b, ids, status)
  {
    if ids != [] {
      CountStatusFrame(a, b, ids[..|ids| - 1], status);
    }
  }

  lemma ClaimedRowsStep(c: Config, rows: map<RowId, Row>, ids: seq<RowId>, id: RowId, now: real)
    requires id in rows && id !in ids
    ensures var before := ClaimedRows(c, rows, ids, now);
            && before[id] == rows[id]
            && ClaimedRows(c, rows, ids + [id], now) == before[id := Claimed(c, rows[id], now)]
  {
  }

  lemma DeliveredRowsStep(c: Config, rows: map<RowId, Row>, ids: seq<RowId>, id: RowId, hasRedis: bool,
                          faults: map<RowId, Fault>, now: real)
    requires id in rows && id !in ids
    ensures var before := DeliveredRows(c, rows, ids, hasRedis, faults, now);
            && before[id] == rows[id]
            && DeliveredRows(c, rows, ids + [id], hasRedis, faults, now)
               == before[id := Processed(c, rows[id], RedisOk(hasRedis, FaultOf(faults, id)), now)]
  {
  }

  function WithStatus(rows: map<RowId, Row>, ids: seq<RowId>, status: Status): set<RowId> {
    set id | id in ids && id in rows && rows[id].status == status
  }

  lemma WithStatusGrows(rows: map<RowId, Row>, ids: seq<RowId>, id: RowId, status: Status)
    requires id !in ids
    ensures WithStatus(rows, ids + [id], status)
         == WithStatus(rows, ids, status) + if id in rows && rows[id].status == status then {id} else {}
  {
  }

  lemma {:induction false} CountIsCardinality(rows: map<RowId, Row>, ids: seq<RowId>, status: Status)
    requires forall i, j | 0 <= i < j < |ids| :: ids[i] != ids[j]
    ensures CountStatus(rows, ids, status) == |WithStatus(rows, ids, status)|
  {
    if ids == [] {
      assert WithStatus(rows, ids, status) == {};
    } else {
      var n := |ids| - 1;
      CountIsCardinality(rows, ids[..n], status);
      assert ids == ids[..n] + [ids[n]] && ids[n] !in ids[..n];
      WithStatusGrows(rows, ids[..n], ids[n], status);
      assert ids[n] !in WithStatus(rows, ids[..n], status);
    }
  }

  predicate Tallied(rows: map<RowId, Row>, ids: seq<RowId>, completed: nat, retried: nat, dead: nat) {
    && completed + retried + dead == |ids|
    && completed == CountStatus(rows, ids, Completed)
    && retried == CountStatus(rows, ids, Pending)
    && dead == CountStatus(rows, ids, Dead)
  }

  lemma TalliedCounts(rows: map<RowId, Row>, ids: seq<RowId>, completed: nat, retried: nat, dead: nat)
    requires Tallied(rows, ids, completed, retried, dead) && forall i, j | 0 <= i < j < |ids| :: ids[i] != ids[j]
    ensures completed == |WithStatus(rows, ids, Completed)|
    ensures retried == |WithStatus(rows, ids, Pending)|
    ensures dead == |WithStatus(rows, ids, Dead)|
  {
    CountIsCardinality(rows, ids, Completed);
    CountIsCardinality(rows, ids, Pending);
    CountIsCardinality(rows, ids, Dead);
  }

  lemma TalliedStep(rows: map<RowId, Row>, ids: seq<RowId>, id: RowId, row: Row, completed: nat, retried: nat, dead: nat)
    requires Tallied(rows, ids, completed, retried, dead) && id in rows && id !in ids && row.status != Leased
    ensures Tallied(rows[id := row], ids + [id],
              if row.status == Completed then completed + 1 else completed,
              if row.status == Pending then retried + 1 else retried,
              if row.status == Dead then dead + 1 else dead)
  {
    assert (ids + [id])[..|ids|] == ids;
    CountStatusFrame(rows, rows[id := row], ids, Completed);
    CountStatusFrame(rows, rows[id := row], ids, Pending);
    CountStatusFrame(rows, rows[id := row], ids, Dead);
  }

  /** Waiting, or leased and abandoned; and past its retry time if it has one. */
  predicate Claimable(row: Row, now: real) {
    && (row.status == Leased ==> row.leaseUntil.Some? && row.leaseUntil.value < now) && row.status !in {Completed, Dead}
    && (row.nextAttemptAt.Some? ==> row.nextAttemptAt.value <= now)
  }

  // ----- the worker -----

  class Worker {
    const config: Config

    constructor (c: Config)
      requires c.Valid()
      ensures config == c
    {
      config := c;
    }

    /** The claim query: eligible rows in creation order, up to the batch size. */
    method SelectBatch(rows: map<RowId, Row>, nextId: RowId, now: real) returns (claimed: seq<RowId>)
      ensures claimed == FirstEligible(rows, now, 0, nextId, config.batchSize)
    {
      claimed := [];
      var id := 0;
      while id < nextId && |claimed| < config.batchSize
        invariant 0 <= id <= nextId && |claimed| <= config.batchSize
        invariant claimed + FirstEligible(rows, now, id, nextId, config.batchSize - |claimed|)
                  == FirstEligible(rows, now, 0, nextId, config.batchSize)
      {
        if id in rows && Eligible(rows[id], now) {
          assert claimed + ([id] + FirstEligible(rows, now, id + 1, nextId, config.batchSize - |claimed| - 1))
              == (claimed + [id]) + FirstEligible(rows, now, id + 1, nextId, config.batchSize - |claimed| - 1);
          claimed := claimed + [id];
        }
        id := id + 1;
      }
      assert claimed + [] == claimed;
    }

    method ClaimBatch(table: OutboxTable, now: real) returns (claimed: seq<RowId>)
      requires table.Valid()
      modifies table`rows
      ensures table.Valid()
      ensures claimed == FirstEligible(old(table.rows), now, 0, table.nextId, config.batchSize)
      ensures table.rows == ClaimedRows(config, old(table.rows), claimed, now)
      ensures table.rows.Keys == old(table.rows).Keys && |claimed| <= config.batchSize
      ensures forall id | id in table.rows ::
                && (id in claimed ==>
                      && Claimable(old(table.rows)[id], now)
                      && table.rows[id] == old(table.rows)[id].(status := Leased, leaseUntil := Some(now + config.leaseSeconds)))
                && (id !in claimed ==>
                      && table.rows[id] == old(table.rows)[id]
                      && (Claimable(table.rows[id], now) ==> |claimed| == config.batchSize && forall k | k in claimed :: k < id))
    {
      var rows := table.rows;
      claimed := SelectBatch(rows, table.nextId, now);
      FirstEligibleIsOldest(rows, now, 0, table.nextId, config.batchSize);
      for i := 0 to |claimed|
        invariant table.rows == ClaimedRows(config, rows, claimed[..i], now)
      {
        ClaimedRowsStep(config, rows, claimed[..i], claimed[i], now);
        assert claimed[..i + 1] == claimed[..i] + [claimed[i]];
        table.rows := table.rows[claimed[i] := Claimed(config, table.rows[claimed[i]], now)];
      }
      assert claimed[..|claimed|] == claimed;
    }

    /** Applies one effect; false is the retryable failure. */
    method ApplyEffect(row: Row, redis: Redis?, fault: Fault, now: real) returns (ok: bool)
      modifies if redis == null then {} else {redis}
      ensures ok == EffectSucceeds(row, RedisOk(redis != null, fault), now)
      ensures ok <==> row.effect.Publish? || row.effect.expiresAt < now + 1.0 || (redis != null && fault.NoFault?)
      ensures ok && redis != null && row.effect.Blacklist? && row.effect.expiresAt >= now + 1.0 ==>
                && row.effect.jti in redis.blacklist
                && row.effect.expiresAt - 1.0 < redis.blacklist[row.effect.jti] <= row.effect.expiresAt
      ensures ok && redis != null && row.effect.Blacklist? && Ttl(row.effect.expiresAt, now) > 0 ==>
                && redis.blacklist == old(redis.blacklist)[row.effect.jti := now + Ttl(row.effect.expiresAt, now) as real]
                && redis.allowlist == old(redis.allowlist) - {row.effect.jti}
      ensures redis != null && (row.effect.Publish? || Ttl(row.effect.expiresAt, now) <= 0) ==> unchanged(redis)
      ensures redis != null && fault.SetexRaises? ==> unchanged(redis)
      ensures redis != null && fault.DelRaises? && row.effect.Blacklist? && Ttl(row.effect.expiresAt, now) > 0 ==>
                && redis.blacklist == old(redis.blacklist)[row.effect.jti := now + Ttl(row.effect.expiresAt, now) as real]
                && redis.allowlist == old(redis.allowlist)
    {
      match row.effect {
        case Blacklist(jti, expiresAt) =>
          var ttl := Ttl(expiresAt, now);
          if ttl <= 0 {
            return true;
          }
          if redis == null || fault.SetexRaises? {
            return false;
          }
          redis.BlacklistJti(jti, ttl, now);
          if fault.DelRaises? {
            return false;
          }
          redis.Revoke(jti);
          return true;
        case Publish =>
          return true;
      }
    }

    method ProcessRow(table: OutboxTable, id: RowId, redis: Redis?, fault: Fault, now: real) returns (outcome: Status)
      requires id in table.rows
      modifies table`rows, if redis == null then {} else {redis}
      ensures table.rows == old(table.rows)[id := Processed(config, old(table.rows)[id], RedisOk(redis != null, fault), now)]
      ensures outcome == table.rows[id].status
      ensures outcome == Completed <==>
                var e := old(table.rows)[id].effect;
                e.Publish? || e.expiresAt < now + 1.0 || (redis != null && fault.NoFault?)
      ensures var was, row := old(table.rows)[id], table.rows[id];
              && row.user == was.user && row.generation == was.generation && row.effect == was.effect && row.leaseUntil == None
              && row.attempts == (if outcome == Completed then was.attempts else was.attempts + 1)
              && (outcome == Completed ==> row.completedAt == Some(now))
              && (outcome == Dead <==> outcome != Completed && row.attempts >= config.maxAttempts)
              && (outcome == Pending ==> row.nextAttemptAt == Some(now + Backoff(config, row.attempts)))
              && outcome != Leased
    {
      var row := table.rows[id];
      var ok := ApplyEffect(row, redis, fault, now);
      if !ok {
        row := row.(attempts := row.attempts + 1, leaseUntil := None);
        if row.attempts >= config.maxAttempts {
          row := row.(status := Dead);
        } else {
          row := row.(status := Pending, nextAttemptAt := Some(now + Backoff(config, row.attempts)));
        }
      } else {
        row := row.(status := Completed, completedAt := Some(now), leaseUntil := None);
      }
      table.rows := table.rows[id := row];
      outcome := row.status;
    }

    /** Delivers a claimed batch row by row. */
    method DeliverBatch(table: OutboxTable, ids: seq<RowId>, redis: Redis?, faults: map<RowId, Fault>, now: real)
      returns (completed: nat, retried: nat, dead: nat)
      requires forall i | 0 <= i < |ids| :: ids[i] in table.rows
      requires forall i, j | 0 <= i < j < |ids| :: ids[i] != ids[j]
      modifies table`rows, if redis == null then {} else {redis}
      ensures table.rows == DeliveredRows(config, old(table.rows), ids, redis != null, faults, now)
      ensures Tallied(table.rows, ids, completed, retried, dead)
    {
      ghost var claimed := table.rows;
      completed, retried, dead := 0, 0, 0;
      for i := 0 to |ids|
        invariant table.rows == DeliveredRows(config, claimed, ids[..i], redis != null, faults, now)
        invariant Tallied(table.rows, ids[..i], completed, retried, dead)
      {
        DeliveredRowsStep(config, claimed, ids[..i], ids[i], redis != null, faults, now);
        assert ids[..i + 1] == ids[..i] + [ids[i]];
        ghost var rows := table.rows;
        var outcome := ProcessRow(table, ids[i], redis, FaultOf(faults, ids[i]), now);
        TalliedStep(rows, ids[..i], ids[i], table.rows[ids[i]], completed, retried, dead);
        if outcome == Completed {
          completed := completed + 1;
        } else if outcome == Dead {
          dead := dead + 1;
        } else {
          retried := retried + 1;
        }
      }
      assert ids[..|ids|] == ids;
    }

    /** One drain. Its counters account for every claimed row, each counted under the
        status it was left in, and rows outside the batch are untouched. */
    method DrainOnce(table: OutboxTable, redis: Redis?, faults: map<RowId, Fault>, now: real) returns (stats: DrainStats)
      requires table.Valid()
      modifies table`rows, if redis == null then {} else {redis}
      ensures table.Valid()
      ensures var ids := FirstEligible(old(table.rows), now, 0, table.nextId, config.batchSize);
              && table.rows == DeliveredRows(config, ClaimedRows(config, old(table.rows), ids, now), ids, redis != null, faults, now)
              && stats.claimed == |ids|
              && Tallied(table.rows, ids, stats.completed, stats.retried, stats.dead)
              && stats.completed == |WithStatus(table.rows, ids, Completed)|
              && stats.retried == |WithStatus(table.rows, ids, Pending)|
              && stats.dead == |WithStatus(table.rows, ids, Dead)|
    {
      FirstEligibleIsOldest(table.rows, now, 0, table.nextId, config.batchSize);
      var ids := ClaimBatch(table, now);
      var completed, retried, dead := DeliverBatch(table, ids, redis, faults, now);
      stats := DrainStats(|ids|, completed, retried, dead);
      TalliedCounts(table.rows, ids, completed, retried, dead);
    }

    /** Deletes exactly the completed rows past retention and returns how many they were. */
    method ReapCompleted(table: OutboxTable, now: real) returns (reaped: nat)
      requires table.Valid()
      modifies table`rows
      ensures table.Valid()
      ensures table.rows == map id | id in old(table.rows) && !Reapable(config, old(table.rows)[id], now) :: old(table.rows)[id]
      ensures forall id :: id in table.rows <==>
                && id in old(table.rows)
                && !(var row := old(table.rows)[id];
                     row.status == Completed && row.completedAt.Some? && row.completedAt.value + config.retentionSeconds < now)
      ensures forall id | id in table.rows :: table.rows[id] == old(table.rows)[id]
      ensures reaped == |old(table.rows)| - |table.rows|
    {
      var doomed := set id | id in table.rows && Reapable(config, table.rows[id], now);
      table.rows := table.rows - doomed;
      reaped := |doomed|;
      assert table.rows.Keys == old(table.rows).Keys - doomed;
      assert |table.rows| == |table.rows.Keys| && |old(table.rows)| == |old(table.rows).Keys|;
    }
  }
}
