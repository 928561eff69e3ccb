/** Rows of the revocation outbox and what one worker does to one row. */
module OutboxRows {
  import opened Basics

  /** A blacklist row carries the captured token identifier and its expiry; the
      publish row is the single user-wide event of a generation. */
  datatype Effect = Blacklist(jti: Jti, expiresAt: real) | Publish

  datatype Status = Pending | Leased | Completed | Dead

  datatype Row = Row(
    user: UserId, generation: nat, effect: Effect, status: Status, attempts: nat,
    leaseUntil: Option<real>, nextAttemptAt: Option<real>, completedAt: Option<real>)

  datatype Config = Config(
    batchSize: nat, leaseSeconds: real, maxAttempts: nat,
    backoffBase: real, backoffCap: real, retentionSeconds: real)
  {
    /** The bounds the settings class enforces on the worker's configuration. */
    predicate Valid() {
      && batchSize >= 1 && leaseSeconds >= 1.0 && maxAttempts >= 1
      && backoffBase > 0.0 && backoffCap > 0.0 && retentionSeconds >= 0.0
    }
  }

  /** The target column: a JTI digest (taken to be injective) or the user-wide constant. */
  datatype Target = UserWide | Digest(jti: Jti)

  /** The four columns of the unique constraint; effect type and digest share a constructor. */
  datatype UniqueKey = UniqueKey(user: UserId, generation: nat, target: Target)

  function KeyOf(row: Row): UniqueKey {
    UniqueKey(row.user, row.generation, if row.effect.Publish? then UserWide else Digest(row.effect.jti))
  }

  function NewRow(user: UserId, generation: nat, effect: Effect): Row {
    Row(user, generation, effect, Pending, 0, None, None, None)
  }

  predicate Undelivered(row: Row) {
    row.status in {Pending, Leased, Dead}
  }

  // ----- retry schedule -----

  /** base * 2^n */
  function Doubled(base: real, n: nat): real {
    if n == 0 then base else 2.0 * Doubled(base, n - 1)
  }

  function Backoff(c: Config, attempts: nat): real {
    MinReal(Doubled(c.backoffBase, Max(attempts - 1, 0)), c.backoffCap)
  }

  // ----- claiming -----

  predicate Due(row: Row, now: real) {
    row.nextAttemptAt.None? || row.nextAttemptAt.value <= now
  }

  predicate Eligible(row: Row, now: real) {
    && (row.status == Pending || (row.status == Leased && row.leaseUntil.Some? && row.leaseUntil.value < now))
    && Due(row, now)
  }

  function Claimed(c: Config, row: Row, now: real): Row {
    row.(status := Leased, leaseUntil := Some(now + c.leaseSeconds))
  }

  // ----- delivering -----

  function Ttl(expiresAt: real, now: real): int {
    Trunc(expiresAt - now)
  }

  /** Whether applying the effect succeeds. `redisOk` says that a client exists and that
      its commands do not raise; a token past its expiry needs no Redis at all. */
  predicate EffectSucceeds(row: Row, redisOk: bool, now: real) {
    row.effect.Publish? || Ttl(row.effect.expiresAt, now) <= 0 || redisOk
  }

  function Delivered(row: Row, now: real): Row {
    row.(status := Completed, completedAt := Some(now), leaseUntil := None)
  }

  function Failed(c: Config, row: Row, now: real): Row {
    var n := row.attempts + 1;
    var released := row.(attempts := n, leaseUntil := None);
    if n >= c.maxAttempts then released.(status := Dead)
    else released.(status := Pending, nextAttemptAt := Some(now + Backoff(c, n)))
  }

  function Processed(c: Config, row: Row, redisOk: bool, now: real): Row {
    if EffectSucceeds(row, redisOk, now) then Delivered(row, now) else Failed(c, row, now)
  }

  predicate Reapable(c: Config, row: Row, now: real) {
    row.status == Completed && row.completedAt.Some? && row.completedAt.value < now - c.retentionSeconds
  }

  // ----- properties of the retry schedule -----

  lemma {:induction false} DoubledMonotone(base: real, m: nat, n: nat)
    requires base > 0.0 && m <= n
    ensures 0.0 < Doubled(base, m) <= Doubled(base, n)
    decreases n
  {
    if m < n {
      DoubledMonotone(base, m, n - 1);
    } else if n > 0 {
      DoubledMonotone(base, n - 1, n - 1);
    }
  }

  /** Delays never decrease from one retry to the next and never pass the cap. */
  lemma BackoffMonotoneAndCapped(c: Config, k: nat, m: nat)
    requires c.Valid() && k <= m
    ensures 0.0 < Backoff(c, k) <= Backoff(c, m) <= c.backoffCap
  {
    DoubledMonotone(c.backoffBase, Max(k - 1, 0), Max(m - 1, 0));
  }

  /** What a single worker makes of one row when it polls at `times` and every delivery
      it attempts fails: the row, and how many deliveries there were. */
  function Polled(c: Config, row: Row, times: seq<real>): (Row, nat) {
    if times == [] then (row, 0)
    else
      var t := times[|times| - 1];
      var (r, n) := Polled(c, row, times[..|times| - 1]);
      if Eligible(r, t) then (Failed(c, Claimed(c, r, t), t), n + 1) else (r, n)
  }

  /** However often the worker polls, a row that keeps failing is dead after exactly
      `maxAttempts` deliveries and is never delivered again. */
  lemma {:induction false} DeadAfterExactlyMaxAttempts(c: Config, user: UserId, generation: nat, effect: Effect, times: seq<real>)
    requires c.Valid()
    ensures var (row, deliveries) := Polled(c, NewRow(user, generation, effect), times);
            && row.attempts == deliveries <= c.maxAttempts
            && (row.status == Dead <==> deliveries == c.maxAttempts)
            && (row.status == Pending <==> deliveries < c.maxAttempts)
            && KeyOf(row) == KeyOf(NewRow(user, generation, effect))
  {
    if times != [] {
      DeadAfterExactlyMaxAttempts(c, user, generation, effect, times[..|times| - 1]);
    }
  }

  /** Retry k becomes due min(base * 2^(k-1), cap) after the k-th failure, and not before. */
  lemma RetrySchedule(c: Config, row: Row, now: real, later: real)
    requires c.Valid() && row.attempts + 1 < c.maxAttempts
    ensures var k := row.attempts + 1;
            Eligible(Failed(c, Claimed(c, row, now), now), later)
            <==> later >= now + MinReal(Doubled(c.backoffBase, k - 1), c.backoffCap)
  {
  }

  /** Completed and dead rows are never claimed again. */
  lemma FinishedNeverEligible(row: Row, now: real)
    ensures row.status in {Completed, Dead} ==> !Eligible(row, now)
  {
  }

  /** A new row can be claimed at once; a claimed one from the end of its lease on, exclusive. */
  lemma ClaimableOverLife(c: Config, user: UserId, generation: nat, effect: Effect, row: Row, now: real, later: real)
    requires c.Valid() && Eligible(row, now)
    ensures Eligible(NewRow(user, generation, effect), later)
    ensures Eligible(Claimed(c, row, now), later) <==> later > now + c.leaseSeconds
  {
  }

  /** The first delay is the base and each one twice the one before, all up to the cap. */
  lemma BackoffDoubles(c: Config, k: nat)
    requires c.Valid() && k >= 1
    ensures Backoff(c, 1) == MinReal(c.backoffBase, c.backoffCap)
    ensures Backoff(c, k + 1) == MinReal(2.0 * Backoff(c, k), c.backoffCap)
  {
    DoubledMonotone(c.backoffBase, 0, k - 1);
  }
}
