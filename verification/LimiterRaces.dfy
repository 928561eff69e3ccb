/** Overlapping checks of one API key: each window's key is built from a clock reading and
    incremented later, in one atomic command, and any request may run in between. */
module LimiterRaces {
  import opened Basics
  import opened Calendar
  import opened RateLimits

  /** A check that has passed the first `next` windows and may hold the reading it builds the
      next key from. */
  datatype Check = Check(next: nat, reading: Option<Instant>)

  /** One increment: the reading its key was built from, when it ran, and whether what it
      returned was within the limit. */
  datatype Entry = Entry(req: nat, bucket: Bucket, read: Instant, ran: Instant, passed: bool)

  /** The last two fields are history: every increment, and the requests let through. */
  datatype State = State(
    now: Instant, counters: map<Bucket, Counter>, open: map<nat, Check>, seen: set<nat>,
    log: seq<Entry>, admitted: set<nat>)

  datatype Action =
    | Arrive(req: nat)
    | Read(req: nat)
    | Incr(req: nat)
    | Abandon(req: nat)
    | Tick(to: Instant)

  predicate AtIncr(ws: seq<Window>, s: State, req: nat) {
    req in s.open && s.open[req].next < |ws| && s.open[req].reading.Some?
  }

  predicate Enabled(ws: seq<Window>, s: State, a: Action) {
    match a
    case Arrive(req) => req !in s.seen
    case Read(req) => req in s.open && s.open[req].next < |ws| && s.open[req].reading.None?
    case Incr(req) => AtIncr(ws, s, req)
    case Abandon(req) => req in s.open
    case Tick(to) => Valid(to) && Micros(s.now) <= Micros(to)
  }

  /** The window a request is at, and the key its next increment goes to. */
  function WindowAt(ws: seq<Window>, s: State, req: nat): Window
    requires AtIncr(ws, s, req)
  {
    ws[s.open[req].next]
  }

  function KeyAt(ws: seq<Window>, s: State, req: nat): Bucket
    requires AtIncr(ws, s, req)
  {
    BucketOf(s.open[req].reading.value, WindowAt(ws, s, req).period)
  }

  /** What INCR returns. */
  function CountAt(ws: seq<Window>, s: State, req: nat): nat
    requires AtIncr(ws, s, req)
  {
    ValueAt(s.counters, KeyAt(ws, s, req), Micros(s.now)) + 1
  }

  function EntryAt(ws: seq<Window>, s: State, req: nat): Entry
    requires AtIncr(ws, s, req)
  {
    Entry(req, KeyAt(ws, s, req), s.open[req].reading.value, s.now, CountAt(ws, s, req) <= WindowAt(ws, s, req).limit)
  }

  /** A request that has passed every window is let through. */
  function Advanced(ws: seq<Window>, s: State, req: nat, k: nat): State {
    if k == |ws| then s.(open := s.open - {req}, admitted := s.admitted + {req})
    else s.(open := s.open[req := Check(k, None)])
  }

  function AfterIncr(ws: seq<Window>, s: State, req: nat): State
    requires AtIncr(ws, s, req)
  {
    var e := EntryAt(ws, s, req);
    var counter := Counter(CountAt(ws, s, req), Micros(s.now) + TtlSeconds(e.bucket.period) * SECOND);
    var counted := s.(counters := s.counters[e.bucket := counter], log := s.log + [e]);
    if e.passed then Advanced(ws, counted, req, s.open[req].next + 1) else counted.(open := s.open - {req})
  }

  function Apply(ws: seq<Window>, s: State, a: Action): State
    requires Enabled(ws, s, a)
  {
    match a
    case Arrive(req) => Advanced(ws, s.(seen := s.seen + {req}), req, 0)
    case Read(req) => s.(open := s.open[req := s.open[req].(reading := Some(s.now))])
    case Incr(req) => AfterIncr(ws, s, req)
    case Abandon(req) => s.(open := s.open - {req})
    case Tick(to) => s.(now := to)
  }

  predicate EnabledRun(ws: seq<Window>, s: State, run: seq<Action>)
    decreases |run|
  {
    run == [] || (Enabled(ws, s, run[0]) && EnabledRun(ws, Apply(ws, s, run[0]), run[1..]))
  }

  function Run(ws: seq<Window>, s: State, run: seq<Action>): State
    requires EnabledRun(ws, s, run)
    decreases |run|
  {
    if run == [] then s else Run(ws, Apply(ws, s, run[0]), run[1..])
  }

  predicate Start(s: State) {
    Valid(s.now) && s.counters == map[] && s.open == map[] && s.seen == {} && s.log == [] && s.admitted == {}
  }

  // ----- counting -----

  function IncrsIn(log: seq<Entry>, b: Bucket): nat {
    if log == [] then 0
    else IncrsIn(log[..|log| - 1], b) + if log[|log| - 1].bucket == b then 1 else 0
  }

  function PassesIn(log: seq<Entry>, b: Bucket): nat {
    if log == [] then 0
    else PassesIn(log[..|log| - 1], b) + if log[|log| - 1].bucket == b && log[|log| - 1].passed then 1 else 0
  }

  function PassersOf(log: seq<Entry>, b: Bucket): set<nat> {
    set i | 0 <= i < |log| && log[i].bucket == b && log[i].passed :: log[i].req
  }

  /** The requests let through whose key for some window was b. */
  function AdmittedIn(s: State, b: Bucket): set<nat> {
    s.admitted * PassersOf(s.log, b)
  }

  lemma CountsGrow(log: seq<Entry>, e: Entry, b: Bucket)
    ensures IncrsIn(log + [e], b) == IncrsIn(log, b) + if e.bucket == b then 1 else 0
    ensures PassesIn(log + [e], b) == PassesIn(log, b) + if e.bucket == b && e.passed then 1 else 0
  {
    assert (log + [e])[..|log|] == log;
  }

  lemma {:induction false} PassersAreFew(log: seq<Entry>, b: Bucket)
    ensures |PassersOf(log, b)| <= PassesIn(log, b)
  {
    if log == [] {
      assert PassersOf(log, b) == {};
    } else {
      var before, last := log[..|log| - 1], log[|log| - 1];
      PassersAreFew(before, b);
      assert PassersOf(log, b) == PassersOf(before, b) + if last.bucket == b && last.passed then {last.req} else {};
    }
  }

  lemma {:induction false} SubsetIsSmaller(a: set<nat>, b: set<nat>)
    requires a <= b
    ensures |a| <= |b|
  {
    if a != {} {
      var x :| x in a;
      SubsetIsSmaller(a - {x}, b - {x});
    }
  }

  // ----- keys that stay alive between their increments -----

  /** No increment finds its key expired. */
  predicate Alive(ws: seq<Window>, s: State, a: Action) {
    a.Incr? && AtIncr(ws, s, a.req) && KeyAt(ws, s, a.req) in s.counters ==>
      Micros(s.now) < s.counters[KeyAt(ws, s, a.req)].expiresAt
  }

  predicate AliveRun(ws: seq<Window>, s: State, run: seq<Action>)
    requires EnabledRun(ws, s, run)
    decreases |run|
  {
    run == [] || (Alive(ws, s, run[0]) && AliveRun(ws, Apply(ws, s, run[0]), run[1..]))
  }

  /** A counter is the number of its increments, and the passes are those capped at the limit. */
  ghost predicate Counted(ws: seq<Window>, s: State) {
    forall w, b: Bucket | 0 <= w < |ws| && b.period == ws[w].period :: CountedIn(s, ws[w].limit, b)
  }

  predicate CountedIn(s: State, limit: nat, b: Bucket) {
    && IncrsIn(s.log, b) == (if b in s.counters then s.counters[b].count else 0)
    && PassesIn(s.log, b) == Capped(IncrsIn(s.log, b), limit)
  }

  lemma KeyCounted(s: State, limit: nat, e: Entry, counter: Counter)
    requires CountedIn(s, limit, e.bucket)
    requires counter.count == (if e.bucket in s.counters then s.counters[e.bucket].count else 0) + 1 && e.passed == (counter.count <= limit)
    ensures CountedIn(s.(counters := s.counters[e.bucket := counter], log := s.log + [e]), limit, e.bucket)
  {
    CountsGrow(s.log, e, e.bucket);
  }

  lemma OthersCounted(s: State, limit: nat, e: Entry, counter: Counter, b: Bucket)
    requires CountedIn(s, limit, b) && b != e.bucket
    ensures CountedIn(s.(counters := s.counters[e.bucket := counter], log := s.log + [e]), limit, b)
  {
    CountsGrow(s.log, e, b);
  }

  lemma OnePerPeriod(ws: seq<Window>, w: nat, k: nat)
    requires FinestFirst(ws) && w < |ws| && k < |ws| && ws[w].period == ws[k].period
    ensures w == k
  {
  }

  lemma IncrKeepsCounted(ws: seq<Window>, s: State, req: nat)
    requires FinestFirst(ws) && Counted(ws, s) && AtIncr(ws, s, req) && Alive(ws, s, Incr(req))
    ensures Counted(ws, AfterIncr(ws, s, req))
  {
    var s', k, e := AfterIncr(ws, s, req), s.open[req].next, EntryAt(ws, s, req);
    forall w, b: Bucket | 0 <= w < |ws| && b.period == ws[w].period
      ensures CountedIn(s', ws[w].limit, b)
    {
      assert CountedIn(s, ws[w].limit, b);
      if b == e.bucket {
        OnePerPeriod(ws, w, k);
        KeyCounted(s, ws[w].limit, e, s'.counters[b]);
      } else {
        OthersCounted(s, ws[w].limit, e, s'.counters[e.bucket], b);
      }
    }
  }

  lemma {:induction false} RunKeepsCounted(ws: seq<Window>, s: State, run: seq<Action>)
    requires FinestFirst(ws) && Counted(ws, s) && EnabledRun(ws, s, run) && AliveRun(ws, s, run)
    ensures Counted(ws, Run(ws, s, run))
    decreases |run|
  {
    if run != [] {
      if run[0].Incr? {
        IncrKeepsCounted(ws, s, run[0].req);
      }
      RunKeepsCounted(ws, Apply(ws, s, run[0]), run[1..]);
    }
  }

  /** Over every interleaving of overlapping checks in which no increment finds its key expired,
      a counter is exactly the number of increments of its bucket. */
  lemma CounterIsIncrementCount(ws: seq<Window>, s: State, run: seq<Action>, w: nat, b: Bucket)
    requires FinestFirst(ws) && Start(s) && EnabledRun(ws, s, run) && AliveRun(ws, s, run)
    requires w < |ws| && b.period == ws[w].period
    ensures var e := Run(ws, s, run);
            && (b in e.counters <==> IncrsIn(e.log, b) > 0)
            && (b in e.counters ==> e.counters[b].count == IncrsIn(e.log, b))
  {
    RunKeepsCounted(ws, s, run);
    CountersPositive(ws, s, run);
    assert CountedIn(Run(ws, s, run), ws[w].limit, b);
  }

  lemma {:induction false} CountersPositive(ws: seq<Window>, s: State, run: seq<Action>)
    requires EnabledRun(ws, s, run) && forall b | b in s.counters :: s.counters[b].count > 0
    ensures forall b | b in Run(ws, s, run).counters :: Run(ws, s, run).counters[b].count > 0
    decreases |run|
  {
    if run != [] {
      CountersPositive(ws, Apply(ws, s, run[0]), run[1..]);
    }
  }

  /** Each window of a bucket then lets through at most its limit of requests. */
  lemma AdmittedWithinLimitWhenInterleaved(ws: seq<Window>, s: State, run: seq<Action>, w: nat, b: Bucket)
    requires FinestFirst(ws) && Start(s) && EnabledRun(ws, s, run) && AliveRun(ws, s, run)
    requires w < |ws| && b.period == ws[w].period
    ensures |AdmittedIn(Run(ws, s, run), b)| <= ws[w].limit
  {
    var e := Run(ws, s, run);
    RunKeepsCounted(ws, s, run);
    assert CountedIn(e, ws[w].limit, b);
    PassersAreFew(e.log, b);
    SubsetIsSmaller(AdmittedIn(e, b), PassersOf(e.log, b));
  }

  /** And a request gets past a window exactly when fewer than the limit have done so in that
      bucket before it. */
  lemma PassesIffRoomWhenInterleaved(ws: seq<Window>, s: State, run: seq<Action>, req: nat)
    requires FinestFirst(ws) && Start(s) && EnabledRun(ws, s, run) && AliveRun(ws, s, run)
    requires var e := Run(ws, s, run); AtIncr(ws, e, req) && Alive(ws, e, Incr(req))
    ensures var e := Run(ws, s, run);
            EntryAt(ws, e, req).passed <==> PassesIn(e.log, KeyAt(ws, e, req)) < WindowAt(ws, e, req).limit
  {
    RunKeepsCounted(ws, s, run);
    assert CountedIn(Run(ws, s, run), WindowAt(ws, Run(ws, s, run), req).limit, KeyAt(ws, Run(ws, s, run), req));
  }

  /** Until then nothing exceeds a limit. The first increment that takes a bucket past it is
      exactly one that finds the key of a full bucket expired, where the limit is not zero. */
  lemma FirstExcessIff(ws: seq<Window>, s: State, run: seq<Action>, req: nat)
    requires FinestFirst(ws) && Start(s) && EnabledRun(ws, s, run) && AliveRun(ws, s, run)
    requires AtIncr(ws, Run(ws, s, run), req)
    ensures var e := Run(ws, s, run);
            var key, limit := KeyAt(ws, e, req), WindowAt(ws, e, req).limit;
            && PassesIn(e.log, key) <= limit
            && (PassesIn(AfterIncr(ws, e, req).log, key) > limit
                <==> 0 < limit && PassesIn(e.log, key) == limit && !Alive(ws, e, Incr(req)))
  {
    var e := Run(ws, s, run);
    RunKeepsCounted(ws, s, run);
    assert CountedIn(e, WindowAt(ws, e, req).limit, KeyAt(ws, e, req));
    CountsGrow(e.log, EntryAt(ws, e, req), KeyAt(ws, e, req));
  }

  // ----- the requests counted are all of them -----

  predicate HasPassed(log: seq<Entry>, r: nat, p: Period) {
    exists i | 0 <= i < |log| :: log[i].req == r && log[i].bucket.period == p && log[i].passed
  }

  ghost predicate EveryWindow(ws: seq<Window>, s: State) {
    && (forall r, w | r in s.open && 0 <= w < s.open[r].next && w < |ws| :: HasPassed(s.log, r, ws[w].period))
    && (forall r, w | r in s.admitted && 0 <= w < |ws| :: HasPassed(s.log, r, ws[w].period))
  }

  lemma HasPassedStays(log: seq<Entry>, more: Entry, r: nat, p: Period)
    ensures HasPassed(log, r, p) ==> HasPassed(log + [more], r, p)
    ensures more.passed ==> HasPassed(log + [more], more.req, more.bucket.period)
  {
    assert (log + [more])[|log|] == more;
    if HasPassed(log, r, p) {
      var i :| 0 <= i < |log| && log[i].req == r && log[i].bucket.period == p && log[i].passed;
      assert (log + [more])[i] == log[i];
    }
  }

  lemma IncrKeepsEveryWindow(ws: seq<Window>, s: State, req: nat)
    requires EveryWindow(ws, s) && AtIncr(ws, s, req)
    ensures EveryWindow(ws, AfterIncr(ws, s, req))
  {
    var s', more := AfterIncr(ws, s, req), EntryAt(ws, s, req);
    forall r, w | 0 <= w < |ws| && (r in s'.admitted || (r in s'.open && w < s'.open[r].next))
      ensures HasPassed(s'.log, r, ws[w].period)
    {
      HasPassedStays(s.log, more, r, ws[w].period);
    }
  }

  /** A request let through has passed each window, in the bucket of the reading it took. */
  lemma {:induction false} AdmittedPassedEveryWindow(ws: seq<Window>, s: State, run: seq<Action>)
    requires EveryWindow(ws, s) && EnabledRun(ws, s, run)
    ensures EveryWindow(ws, Run(ws, s, run))
    decreases |run|
  {
    if run != [] {
      if run[0].Incr? {
        IncrKeepsEveryWindow(ws, s, run[0].req);
      }
      AdmittedPassedEveryWindow(ws, Apply(ws, s, run[0]), run[1..]);
    }
  }

  // ----- increments inside their bucket keep their key alive -----

  /** The increment runs in the bucket of its reading. */
  predicate InBucket(ws: seq<Window>, s: State, a: Action) {
    a.Incr? && AtIncr(ws, s, a.req) ==> BucketOf(s.now, KeyAt(ws, s, a.req).period) == KeyAt(ws, s, a.req)
  }

  predicate InBucketRun(ws: seq<Window>, s: State, run: seq<Action>)
    requires EnabledRun(ws, s, run)
    decreases |run|
  {
    run == [] || (InBucket(ws, s, run[0]) && InBucketRun(ws, Apply(ws, s, run[0]), run[1..]))
  }

  /** Every key outlasts the rest of its bucket. */
  ghost predicate KeysOutlast(s: State) {
    && Valid(s.now)
    && forall b, x | b in s.counters && Valid(x) && Micros(s.now) <= Micros(x) && BucketOf(x, b.period) == b ::
         Micros(x) < s.counters[b].expiresAt
  }

  lemma InBucketStep(ws: seq<Window>, s: State, a: Action)
    requires KeysOutlast(s) && Enabled(ws, s, a) && InBucket(ws, s, a)
    ensures Alive(ws, s, a) && KeysOutlast(Apply(ws, s, a))
  {
    if a.Incr? {
      var key := KeyAt(ws, s, a.req);
      forall x | Valid(x) && Micros(s.now) <= Micros(x) && BucketOf(x, key.period) == key
        ensures Micros(x) < Micros(s.now) + TtlSeconds(key.period) * SECOND
      {
        TtlOutlastsBucket(s.now, x, key.period);
      }
    }
  }

  lemma {:induction false} InBucketRunIsAlive(ws: seq<Window>, s: State, run: seq<Action>)
    requires KeysOutlast(s) && EnabledRun(ws, s, run) && InBucketRun(ws, s, run)
    ensures AliveRun(ws, s, run) && KeysOutlast(Run(ws, s, run))
    decreases |run|
  {
    if run != [] {
      InBucketStep(ws, s, run[0]);
      InBucketRunIsAlive(ws, Apply(ws, s, run[0]), run[1..]);
    }
  }

  /** A counter is then still there at every later instant of its bucket. */
  lemma CounterLastsItsBucket(ws: seq<Window>, s: State, run: seq<Action>, w: nat, x: Instant)
    requires FinestFirst(ws) && Start(s) && EnabledRun(ws, s, run) && InBucketRun(ws, s, run)
    requires w < |ws| && Valid(x) && Micros(Run(ws, s, run).now) <= Micros(x)
    ensures var e := Run(ws, s, run);
            Found(e.counters, x, ws[w].period) == IncrsIn(e.log, BucketOf(x, ws[w].period))
  {
    InBucketRunIsAlive(ws, s, run);
    CounterIsIncrementCount(ws, s, run, w, BucketOf(x, ws[w].period));
  }

  // ----- any interval as long as the window -----

  /** Entries are dated by the reading of their key, and, inside the bucket, by their run. */
  ghost predicate Dated(log: seq<Entry>) {
    forall i | 0 <= i < |log| :: Valid(log[i].read) && BucketOf(log[i].read, log[i].bucket.period) == log[i].bucket
  }

  ghost predicate RanInBucket(log: seq<Entry>) {
    forall i | 0 <= i < |log| :: Valid(log[i].ran) && BucketOf(log[i].ran, log[i].bucket.period) == log[i].bucket
  }

  ghost predicate ReadingsValid(s: State) {
    Valid(s.now) && forall r | r in s.open && s.open[r].reading.Some? :: Valid(s.open[r].reading.value)
  }

  lemma {:induction false} RunIsDated(ws: seq<Window>, s: State, run: seq<Action>)
    requires ReadingsValid(s) && Dated(s.log) && EnabledRun(ws, s, run)
    ensures Dated(Run(ws, s, run).log)
    decreases |run|
  {
    if run != [] {
      RunIsDated(ws, Apply(ws, s, run[0]), run[1..]);
    }
  }

  lemma {:induction false} RunInBucketRan(ws: seq<Window>, s: State, run: seq<Action>)
    requires ReadingsValid(s) && RanInBucket(s.log) && EnabledRun(ws, s, run) && InBucketRun(ws, s, run)
    ensures RanInBucket(Run(ws, s, run).log)
    decreases |run|
  {
    if run != [] {
      RunInBucketRan(ws, Apply(ws, s, run[0]), run[1..]);
    }
  }

  /** The requests let through whose reading for a window, or whose increment of it, lies between
      two points in time. */
  function ReadBetween(s: State, p: Period, from: int, to: int): set<nat> {
    s.admitted * set i | 0 <= i < |s.log| && s.log[i].passed && s.log[i].bucket.period == p && from <= Micros(s.log[i].read) < to :: s.log[i].req
  }

  function RanBetween(s: State, p: Period, from: int, to: int): set<nat> {
    s.admitted * set i | 0 <= i < |s.log| && s.log[i].passed && s.log[i].bucket.period == p && from <= Micros(s.log[i].ran) < to :: s.log[i].req
  }

  function NextBucket(a: Instant, p: Period): Bucket {
    BucketOf(if ResetAt(a, p).Some? then ResetAt(a, p).value else a, p)
  }

  lemma TwoBucketsAdmit(e: State, limit: nat, some: set<nat>, b: Bucket, c: Bucket)
    requires |AdmittedIn(e, b)| <= limit && |AdmittedIn(e, c)| <= limit && some <= AdmittedIn(e, b) + AdmittedIn(e, c)
    ensures |some| <= 2 * limit
  {
    SubsetIsSmaller(some, AdmittedIn(e, b) + AdmittedIn(e, c));
  }

  lemma BothBucketsAdmit(ws: seq<Window>, s: State, run: seq<Action>, w: nat, some: set<nat>, a: Instant)
    requires FinestFirst(ws) && Start(s) && EnabledRun(ws, s, run) && AliveRun(ws, s, run) && w < |ws|
    requires some <= AdmittedIn(Run(ws, s, run), BucketOf(a, ws[w].period)) + AdmittedIn(Run(ws, s, run), NextBucket(a, ws[w].period))
    ensures |some| <= 2 * ws[w].limit
  {
    var b, c := BucketOf(a, ws[w].period), NextBucket(a, ws[w].period);
    AdmittedWithinLimitWhenInterleaved(ws, s, run, w, b);
    AdmittedWithinLimitWhenInterleaved(ws, s, run, w, c);
    TwoBucketsAdmit(Run(ws, s, run), ws[w].limit, some, b, c);
  }

  lemma ReadInTwoBuckets(s: State, a: Instant, p: Period, from: int, to: int)
    requires Valid(a) && Dated(s.log) && from == Micros(a) && to == Micros(a) + ShortestSeconds(p) * SECOND
    ensures ReadBetween(s, p, from, to) <= AdmittedIn(s, BucketOf(a, p)) + AdmittedIn(s, NextBucket(a, p))
  {
    forall i | 0 <= i < |s.log| && s.log[i].bucket.period == p && from <= Micros(s.log[i].read) < to
      ensures s.log[i].bucket in {BucketOf(a, p), NextBucket(a, p)}
    {
      InTwoBuckets(s.log[i].read, a, p, BucketOf(a, p), NextBucket(a, p));
    }
  }

  lemma RanInTwoBuckets(s: State, a: Instant, p: Period, from: int, to: int)
    requires Valid(a) && RanInBucket(s.log) && from == Micros(a) && to == Micros(a) + ShortestSeconds(p) * SECOND
    ensures RanBetween(s, p, from, to) <= AdmittedIn(s, BucketOf(a, p)) + AdmittedIn(s, NextBucket(a, p))
  {
    forall i | 0 <= i < |s.log| && s.log[i].bucket.period == p && from <= Micros(s.log[i].ran) < to
      ensures s.log[i].bucket in {BucketOf(a, p), NextBucket(a, p)}
    {
      InTwoBuckets(s.log[i].ran, a, p, BucketOf(a, p), NextBucket(a, p));
    }
  }

  /** Nor do overlapping checks let through more than twice the limit over any interval as long as
      the window (28 days for a month), wherever it starts: dated by their readings if no
      increment finds its key expired. */
  lemma ReadWithinTwiceLimitAnywhere(ws: seq<Window>, s: State, run: seq<Action>, w: nat, a: Instant, from: int, to: int)
    requires FinestFirst(ws) && Start(s) && EnabledRun(ws, s, run) && AliveRun(ws, s, run)
    requires w < |ws| && Valid(a) && from == Micros(a) && to == Micros(a) + ShortestSeconds(ws[w].period) * SECOND
    ensures |ReadBetween(Run(ws, s, run), ws[w].period, from, to)| <= 2 * ws[w].limit
  {
    var e, p := Run(ws, s, run), ws[w].period;
    RunIsDated(ws, s, run);
    ReadInTwoBuckets(e, a, p, from, to);
    BothBucketsAdmit(ws, s, run, w, ReadBetween(e, p, from, to), a);
  }

  lemma InBucketFromStart(ws: seq<Window>, s: State, run: seq<Action>)
    requires Start(s) && EnabledRun(ws, s, run) && InBucketRun(ws, s, run)
    ensures AliveRun(ws, s, run) && RanInBucket(Run(ws, s, run).log)
  {
    InBucketRunIsAlive(ws, s, run);
    RunInBucketRan(ws, s, run);
  }

  /** And dated by when they ran, if each runs in the bucket of its reading. */
  lemma RanWithinTwiceLimitAnywhere(ws: seq<Window>, s: State, run: seq<Action>, w: nat, a: Instant, from: int, to: int)
    requires FinestFirst(ws) && Start(s) && EnabledRun(ws, s, run) && InBucketRun(ws, s, run)
    requires w < |ws| && Valid(a) && from == Micros(a) && to == Micros(a) + ShortestSeconds(ws[w].period) * SECOND
    ensures |RanBetween(Run(ws, s, run), ws[w].period, from, to)| <= 2 * ws[w].limit
  {
    var e, p := Run(ws, s, run), ws[w].period;
    InBucketFromStart(ws, s, run);
    RanInTwoBuckets(e, a, p, from, to);
    BothBucketsAdmit(ws, s, run, w, RanBetween(e, p, from, to), a);
  }

  // ----- an increment that stalls past the TTL -----

  function Noon(minute: int, second: int): Instant { Instant(2024, 1, 1, 12, minute, second, 0) }

  function OnePerMinute(): seq<Window> { [Window(Minute, 1)] }

  function NoonBucket(): Bucket { BucketOf(Noon(0, 0), Minute) }

  function FirstEntry(): Entry { Entry(1, NoonBucket(), Noon(0, 0), Noon(0, 0), true) }

  function SecondEntry(): Entry { Entry(2, NoonBucket(), Noon(0, 59), Noon(1, 0), true) }

  /** One request a minute is allowed. The first increments at the start of a minute; the second
      reads the clock in that minute and increments when the minute is over and the key gone:
      both are let through in one bucket. */
  lemma StalledIncrementExceedsLimit() returns (s: State, run: seq<Action>)
    ensures Start(s) && EnabledRun(OnePerMinute(), s, run) && !AliveRun(OnePerMinute(), s, run)
    ensures |AdmittedIn(Run(OnePerMinute(), s, run), NoonBucket())| == 2
  {
    s := State(Noon(0, 0), map[], map[], {}, [], {});
    var s1 := s.(open := map[1 := Check(0, None)], seen := {1});
    var s2 := s.(open := map[1 := Check(0, None), 2 := Check(0, None)], seen := {1, 2});
    run := SecondStalls(s2);
    run := Prepended(s1, Arrive(2), s2, run);
    run := Prepended(s, Arrive(1), s1, run);
  }

  lemma SecondStalls(s: State) returns (run: seq<Action>)
    requires s == State(Noon(0, 0), map[], map[1 := Check(0, None), 2 := Check(0, None)], {1, 2}, [], {})
    ensures EnabledRun(OnePerMinute(), s, run) && !AliveRun(OnePerMinute(), s, run)
    ensures |AdmittedIn(Run(OnePerMinute(), s, run), NoonBucket())| == 2
  {
    var s1 := s.(open := map[1 := Check(0, Some(Noon(0, 0))), 2 := Check(0, None)]);
    var s2 := s.(counters := map[NoonBucket() := Counter(1, Micros(Noon(1, 0)))], open := map[2 := Check(0, None)],
                 log := [FirstEntry()], admitted := {1});
    run := FromReading(s2);
    FirstIncrement(s1, s2);
    run := Prepended(s1, Incr(1), s2, run);
    run := Prepended(s, Read(1), s1, run);
  }

  lemma FirstIncrement(s1: State, s2: State)
    requires s1 == State(Noon(0, 0), map[], map[1 := Check(0, Some(Noon(0, 0))), 2 := Check(0, None)], {1, 2}, [], {})
    requires s2 == State(Noon(0, 0), map[NoonBucket() := Counter(1, Micros(Noon(1, 0)))], map[2 := Check(0, None)], {1, 2}, [FirstEntry()], {1})
    ensures AtIncr(OnePerMinute(), s1, 1) && AfterIncr(OnePerMinute(), s1, 1) == s2
  {
    assert Micros(Noon(1, 0)) == Micros(Noon(0, 0)) + 60 * SECOND;
    assert s1.open - {1} == s2.open;
  }

  lemma FromReading(s2: State) returns (run: seq<Action>)
    requires s2.now == Noon(0, 0) && s2.counters == map[NoonBucket() := Counter(1, Micros(Noon(1, 0)))]
    requires s2.open == map[2 := Check(0, None)] && s2.log == [FirstEntry()] && s2.admitted == {1}
    ensures EnabledRun(OnePerMinute(), s2, run) && !AliveRun(OnePerMinute(), s2, run)
    ensures |AdmittedIn(Run(OnePerMinute(), s2, run), NoonBucket())| == 2
  {
    var s3 := s2.(now := Noon(0, 59));
    var s4 := s3.(open := map[2 := Check(0, Some(Noon(0, 59)))]);
    var s5 := s4.(now := Noon(1, 0));
    run := LastIncrement(s5);
    run := Prepended(s4, Tick(Noon(1, 0)), s5, run);
    run := Prepended(s3, Read(2), s4, run);
    run := Prepended(s2, Tick(Noon(0, 59)), s3, run);
  }

  lemma LastIncrement(s5: State) returns (run: seq<Action>)
    requires s5.now == Noon(1, 0) && s5.counters == map[NoonBucket() := Counter(1, Micros(Noon(1, 0)))]
    requires s5.open == map[2 := Check(0, Some(Noon(0, 59)))] && s5.log == [FirstEntry()] && s5.admitted == {1}
    ensures EnabledRun(OnePerMinute(), s5, run) && !AliveRun(OnePerMinute(), s5, run)
    ensures |AdmittedIn(Run(OnePerMinute(), s5, run), NoonBucket())| == 2
  {
    var e := AfterIncr(OnePerMinute(), s5, 2);
    assert e.log == [FirstEntry(), SecondEntry()] && e.admitted == {1, 2};
    assert e.log[0] == FirstEntry() && e.log[1] == SecondEntry();
    assert AdmittedIn(e, NoonBucket()) == {1, 2};
    run := Prepended(s5, Incr(2), e, []);
  }

  lemma Prepended(s: State, a: Action, after: State, rest: seq<Action>) returns (run: seq<Action>)
    requires Enabled(OnePerMinute(), s, a) && Apply(OnePerMinute(), s, a) == after && EnabledRun(OnePerMinute(), after, rest)
    ensures EnabledRun(OnePerMinute(), s, run) && Run(OnePerMinute(), s, run) == Run(OnePerMinute(), after, rest)
    ensures AliveRun(OnePerMinute(), s, run) <==> Alive(OnePerMinute(), s, a) && AliveRun(OnePerMinute(), after, rest)
  {
    run := [a] + rest;
    assert run[1..] == rest;
  }
}
