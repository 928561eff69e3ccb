/** What the outbox is for: a revocation it holds reaches Redis. */
module ProtocolDelivery {
  import opened Basics
  import opened OutboxRows
  import opened Authorization
  import opened Protocol
  import opened ProtocolTheorems
  import opened ProtocolTombstones
  import F = OutboxFleet

  /** Identifiers are handed out once, batches were claimed in the past, and a worker's copy
      carries the effect of its row. */
  ghost predicate CopiesAgree(f: F.Fleet) {
    && (forall k | k in f.rows :: k < f.nextId)
    && (forall w | w in f.held :: f.held[w].claimedAt <= f.now)
    && forall w | w in f.held && f.held[w].loaded.Some? ::
         var l := f.held[w].loaded.value;
         l.id < f.nextId && (l.id in f.rows ==> f.rows[l.id].effect == l.row.effect)
  }

  lemma FleetCopiesAgree(c: Config, f: F.Fleet, a: F.Action)
    requires CopiesAgree(f) && F.Enabled(c, f, a)
    ensures CopiesAgree(F.Apply(c, f, a)) && f.now <= F.Apply(c, f, a).now
    ensures forall k | k in f.rows && k in F.Apply(c, f, a).rows :: F.Apply(c, f, a).rows[k].effect == f.rows[k].effect
  {
  }

  /** A step that is not a worker's leaves every row as it is. */
  lemma QuietFleet(p: Params, s: State, a: Action)
    requires CopiesAgree(s.fleet) && Enabled(p, s, a) && !a.Work?
    ensures var f := Apply(p, s, a).fleet;
            && CopiesAgree(f) && f.now == s.fleet.now
            && forall k | k in s.fleet.rows :: k in f.rows && f.rows[k] == s.fleet.rows[k]
  {
    var quiet, id, ids := FleetChange(p, s, a);
    if !quiet {
      AnnouncedKeepsRows(p, s.fleet, s.db, id, ids);
    }
  }

  lemma AnnouncedKeepsRows(p: Params, fleet: F.Fleet, db: Db, id: UserId, ids: seq<SessionId>)
    requires CopiesAgree(fleet) && id in db.users && forall i | 0 <= i < |ids| :: ids[i] in db.sessions
    ensures var f := Announced(p, fleet, db, id, ids);
            && CopiesAgree(f) && f.now == fleet.now
            && forall k | k in fleet.rows :: k in f.rows && f.rows[k] == fleet.rows[k]
  {
    EnqueuedKeepsRows(p, fleet, Effects(db, id, db.users[id].generation + 1, ids));
  }

  lemma EnqueuedKeepsRows(p: Params, fleet: F.Fleet, added: seq<Row>)
    requires CopiesAgree(fleet) && forall i | 0 <= i < |added| :: added[i].status == Pending && added[i].nextAttemptAt == None
    ensures var f := Enqueued(p, fleet, added);
            && CopiesAgree(f) && f.now == fleet.now
            && forall k | k in fleet.rows :: k in f.rows && f.rows[k] == fleet.rows[k]
  {
    FleetCopiesAgree(p.worker, fleet, F.Enqueue(added));
  }

  predicate Queued(f: F.Fleet, k: RowId, effect: Effect) {
    k in f.rows && f.rows[k].effect == effect && Undelivered(f.rows[k])
  }

  /** Redis has the key, and it lives as long as the token to the second. */
  predicate Denied(s: State, effect: Effect)
    requires effect.Blacklist?
  {
    effect.jti in s.blacklist && effect.expiresAt - 1.0 < s.blacklist[effect.jti]
  }

  predicate Reached(s: State, effect: Effect)
    requires effect.Blacklist?
  {
    Denied(s, effect) || effect.expiresAt < s.fleet.now + 1.0
  }

  lemma DeliveryStep(p: Params, s: State, a: Action, k: RowId, effect: Effect)
    requires CopiesAgree(s.fleet) && Enabled(p, s, a) && effect.Blacklist? && Queued(s.fleet, k, effect)
    ensures var s' := Apply(p, s, a);
            && CopiesAgree(s'.fleet) && s.fleet.now <= s'.fleet.now
            && (Queued(s'.fleet, k, effect) || Reached(s', effect))
  {
    if a.Work? {
      FleetCopiesAgree(p.worker, s.fleet, a.step);
      WorkDelivers(p, s, a.step, a.wrote, k, effect);
    } else {
      QuietFleet(p, s, a);
    }
  }

  lemma WorkDelivers(p: Params, s: State, step: F.Action, wrote: bool, k: RowId, effect: Effect)
    requires CopiesAgree(s.fleet) && CanWork(p, s, step) && effect.Blacklist? && Queued(s.fleet, k, effect)
    ensures var s' := Worked(p, s, step, wrote); Queued(s'.fleet, k, effect) || Reached(s', effect)
  {
    if step.Finish? && s.fleet.held[step.worker].loaded.value.id == k {
      var batch := s.fleet.held[step.worker];
      assert batch.loaded.value.row.effect == effect;
    }
  }

  /** The identifier is in the blacklist, until its token's expiry, at some moment of the run. */
  predicate EverDenied(p: Params, s: State, run: seq<Action>, effect: Effect)
    requires EnabledRun(p, s, run) && effect.Blacklist?
    decreases |run|
  {
    Denied(s, effect) || (run != [] && EverDenied(p, Apply(p, s, run[0]), run[1..], effect))
  }

  lemma {:induction false} ClockAdvances(p: Params, s: State, run: seq<Action>)
    requires CopiesAgree(s.fleet) && EnabledRun(p, s, run)
    ensures CopiesAgree(Run(p, s, run).fleet) && s.fleet.now <= Run(p, s, run).fleet.now
    decreases |run|
  {
    if run != [] {
      if run[0].Work? {
        FleetCopiesAgree(p.worker, s.fleet, run[0].step);
      } else {
        QuietFleet(p, s, run[0]);
      }
      ClockAdvances(p, Apply(p, s, run[0]), run[1..]);
    }
  }

  lemma {:induction false} DeliveryRun(p: Params, s: State, run: seq<Action>, k: RowId, effect: Effect)
    requires CopiesAgree(s.fleet) && EnabledRun(p, s, run) && effect.Blacklist? && Queued(s.fleet, k, effect)
    ensures var e := Run(p, s, run);
            Queued(e.fleet, k, effect) || EverDenied(p, s, run, effect) || effect.expiresAt < e.fleet.now + 1.0
    decreases |run|
  {
    if run != [] {
      var s' := Apply(p, s, run[0]);
      DeliveryStep(p, s, run[0], k, effect);
      if Queued(s'.fleet, k, effect) {
        DeliveryRun(p, s', run[1..], k, effect);
      } else {
        ClockAdvances(p, s', run[1..]);
      }
    }
  }

  /** Over every run, with any number of workers that stall, crash and overwrite each other: a
      revocation that is in the outbox at some moment is there undelivered at every later one,
      or its identifier was in between put on Redis's blacklist until its token's expiry, to the
      second, or its token has expired. */
  lemma RevocationsReachRedis(p: Params, s: State, first: seq<Action>, second: seq<Action>, k: RowId)
    requires Start(s) && EnabledRun(p, s, first) && EnabledRun(p, Run(p, s, first), second)
    requires var f := Run(p, s, first).fleet; k in f.rows && f.rows[k].effect.Blacklist? && Undelivered(f.rows[k])
    ensures var m, e := Run(p, s, first), Run(p, Run(p, s, first), second);
            var effect := m.fleet.rows[k].effect;
            || (k in e.fleet.rows && e.fleet.rows[k].effect == effect && Undelivered(e.fleet.rows[k]))
            || EverDenied(p, m, second, effect)
            || effect.expiresAt < e.fleet.now + 1.0
  {
    ClockAdvances(p, s, first);
    var m := Run(p, s, first);
    DeliveryRun(p, m, second, k, m.fleet.rows[k].effect);
  }
}
