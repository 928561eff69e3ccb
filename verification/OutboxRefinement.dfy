/** The sequential worker's drain is one run of the concurrent machine. */
module OutboxRefinement {
  import opened Basics
  import opened OutboxRows
  import opened OutboxFleet
  import W = OutboxWorker

  function AsSet(ids: seq<RowId>): set<RowId> {
    set id | id in ids
  }

  predicate Increasing(ids: seq<RowId>) {
    forall i, j | 0 <= i < j < |ids| :: ids[i] < ids[j]
  }

  lemma {:induction false} AsSetSize(ids: seq<RowId>)
    ensures |AsSet(ids)| <= |ids|
  {
    if ids != [] {
      var n := |ids| - 1;
      AsSetSize(ids[..n]);
      assert ids == ids[..n] + [ids[n]];
      assert AsSet(ids) == AsSet(ids[..n]) + {ids[n]};
    }
  }

  /** When each row's delivery begins: the clock moves on during a drain, as far as it likes
      if no other worker holds a batch, and up to the end of the lease otherwise. */
  predicate Paced(c: Config, s: Fleet, clock: seq<real>, n: nat) {
    && n <= |clock|
    && (forall i, j | 0 <= i <= j < n :: s.now <= clock[i] <= clock[j])
    && (s.held == map[] || forall i | 0 <= i < n :: clock[i] <= s.now + c.leaseSeconds)
  }

  /** After the first n rows of the batch. */
  predicate Midway(c: Config, s: Fleet, e: Fleet, w: WorkerId, ids: seq<RowId>, clock: seq<real>, n: nat, hasRedis: bool,
                   faults: map<RowId, W.Fault>)
    requires n <= |ids| && n <= |clock|
  {
    && w in e.held && e.held[w].claimedAt == s.now && e.held[w].loaded == None
    && e.held[w].rival == (s.held != map[]) && e.now == (if n == 0 then s.now else clock[n - 1])
    && (forall i | n <= i < |ids| :: ids[i] in e.held[w].todo)
    && e.rows == W.DeliveredRows(c, W.ClaimedRows(c, s.rows, ids, s.now), ids[..n], hasRedis, faults, s.now)
  }

  lemma MergeOfOwnRead(row: Row, after: Row)
    requires KeyOf(row) == KeyOf(after) && row.effect == after.effect
    ensures Merge(row, row, after) == after
  {
  }

  lemma ClaimStep(c: Config, s: Fleet, w: WorkerId, clock: seq<real>, hasRedis: bool, faults: map<RowId, W.Fault>)
    requires w !in s.held
    ensures var ids := W.FirstEligible(s.rows, s.now, 0, s.nextId, c.batchSize);
            && Increasing(ids) && (forall i | 0 <= i < |ids| :: ids[i] in s.rows)
            && Enabled(c, s, Claim(w, s.now, AsSet(ids)))
            && Midway(c, s, Apply(c, s, Claim(w, s.now, AsSet(ids))), w, ids, clock, 0, hasRedis, faults)
  {
    var ids := W.FirstEligible(s.rows, s.now, 0, s.nextId, c.batchSize);
    W.FirstEligibleIsOldest(s.rows, s.now, 0, s.nextId, c.batchSize);
    AsSetSize(ids);
    assert ids[..0] == [];
  }

  /** The time passes, the row is read, its delivery is written back. */
  function Delivery(w: WorkerId, id: RowId, at: real, ok: bool): seq<Action> {
    [Tick(at), Load(w, id), Finish(w, ok)]
  }

  lemma DeliverStep(c: Config, s: Fleet, e: Fleet, w: WorkerId, ids: seq<RowId>, clock: seq<real>, n: nat, hasRedis: bool,
                    faults: map<RowId, W.Fault>)
    returns (f: Fleet)
    requires c.Valid() && n < |ids| && Increasing(ids) && (forall i | 0 <= i < |ids| :: ids[i] in s.rows)
    requires Paced(c, s, clock, |ids|) && Midway(c, s, e, w, ids, clock, n, hasRedis, faults)
    ensures var steps := Delivery(w, ids[n], clock[n], W.RedisOk(hasRedis, W.FaultOf(faults, ids[n])));
            EnabledRun(c, e, steps) && PromptRun(c, e, steps) && Run(c, e, steps) == f
    ensures Midway(c, s, f, w, ids, clock, n + 1, hasRedis, faults)
  {
    var ok := W.RedisOk(hasRedis, W.FaultOf(faults, ids[n]));
    var t := Apply(c, e, Tick(clock[n]));
    var l := Apply(c, t, Load(w, ids[n]));
    f := Apply(c, l, Finish(w, ok));
    W.DeliveredRowsStep(c, W.ClaimedRows(c, s.rows, ids, s.now), ids[..n], ids[n], hasRedis, faults, s.now);
    assert ids[..n + 1] == ids[..n] + [ids[n]];
    MergeOfOwnRead(e.rows[ids[n]], Processed(c, e.rows[ids[n]], ok, s.now));
    assert Safe(c, l.now, l.held[w]);
    ThreeSteps(c, e, Tick(clock[n]), Load(w, ids[n]), Finish(w, ok));
  }

  lemma ThreeSteps(c: Config, s: Fleet, a: Action, b: Action, d: Action)
    requires Enabled(c, s, a) && Prompt(c, s, a)
    requires Enabled(c, Apply(c, s, a), b) && Prompt(c, Apply(c, s, a), b)
    requires Enabled(c, Apply(c, Apply(c, s, a), b), d) && Prompt(c, Apply(c, Apply(c, s, a), b), d)
    ensures EnabledRun(c, s, [a, b, d]) && PromptRun(c, s, [a, b, d])
    ensures Run(c, s, [a, b, d]) == Apply(c, Apply(c, Apply(c, s, a), b), d)
  {
    var s1 := Apply(c, s, a);
    var s2 := Apply(c, s1, b);
    var s3 := Apply(c, s2, d);
    assert [a, b, d][1..] == [b, d] && [b, d][1..] == [d] && [d][1..] == [];
    assert EnabledRun(c, s3, []) && PromptRun(c, s3, []) && Run(c, s3, []) == s3;
    assert EnabledRun(c, s2, [d]) && PromptRun(c, s2, [d]) && Run(c, s2, [d]) == s3;
    assert EnabledRun(c, s1, [b, d]) && PromptRun(c, s1, [b, d]) && Run(c, s1, [b, d]) == s3;
  }

  lemma {:induction false} RunConcat(c: Config, s: Fleet, first: seq<Action>, second: seq<Action>)
    requires EnabledRun(c, s, first) && PromptRun(c, s, first)
    requires EnabledRun(c, Run(c, s, first), second) && PromptRun(c, Run(c, s, first), second)
    ensures EnabledRun(c, s, first + second) && PromptRun(c, s, first + second)
    ensures Run(c, s, first + second) == Run(c, Run(c, s, first), second)
    decreases |first|
  {
    if first == [] {
      assert first + second == second;
    } else {
      RunConcat(c, Apply(c, s, first[0]), first[1..], second);
      assert (first + second)[1..] == first[1..] + second;
    }
  }

  lemma {:induction false} DeliverRest(c: Config, s: Fleet, e: Fleet, w: WorkerId, ids: seq<RowId>, clock: seq<real>, n: nat,
                                       hasRedis: bool, faults: map<RowId, W.Fault>) returns (run: seq<Action>)
    requires c.Valid() && n <= |ids| && Increasing(ids) && (forall i | 0 <= i < |ids| :: ids[i] in s.rows)
    requires Paced(c, s, clock, |ids|) && Midway(c, s, e, w, ids, clock, n, hasRedis, faults)
    ensures EnabledRun(c, e, run) && PromptRun(c, e, run)
    ensures Midway(c, s, Run(c, e, run), w, ids, clock, |ids|, hasRedis, faults)
    decreases |ids| - n
  {
    if n == |ids| {
      run := [];
    } else {
      var f := DeliverStep(c, s, e, w, ids, clock, n, hasRedis, faults);
      var rest := DeliverRest(c, s, f, w, ids, clock, n + 1, hasRedis, faults);
      var steps := Delivery(w, ids[n], clock[n], W.RedisOk(hasRedis, W.FaultOf(faults, ids[n])));
      RunConcat(c, e, steps, rest);
      run := steps + rest;
    }
  }

  /** What the worker's drain method leaves in the table is what some prompt run of the
      concurrent machine leaves there, at whatever times its deliveries happen; so everything
      proved of prompt runs holds of it, also when it outlasts its lease. */
  lemma DrainIsPromptRun(c: Config, s: Fleet, w: WorkerId, clock: seq<real>, hasRedis: bool, faults: map<RowId, W.Fault>)
    returns (run: seq<Action>)
    requires c.Valid() && w !in s.held
    requires Paced(c, s, clock, |W.FirstEligible(s.rows, s.now, 0, s.nextId, c.batchSize)|)
    ensures EnabledRun(c, s, run) && PromptRun(c, s, run)
    ensures var ids := W.FirstEligible(s.rows, s.now, 0, s.nextId, c.batchSize);
            && Run(c, s, run).rows == W.DeliveredRows(c, W.ClaimedRows(c, s.rows, ids, s.now), ids, hasRedis, faults, s.now)
            && Run(c, s, run).now == if ids == [] then s.now else clock[|ids| - 1]
  {
    var ids := W.FirstEligible(s.rows, s.now, 0, s.nextId, c.batchSize);
    ClaimStep(c, s, w, clock, hasRedis, faults);
    var claim := Claim(w, s.now, AsSet(ids));
    var rest := DeliverRest(c, s, Apply(c, s, claim), w, ids, clock, 0, hasRedis, faults);
    run := [claim] + rest;
    assert run[1..] == rest;
    assert ids[..|ids|] == ids;
  }
}
