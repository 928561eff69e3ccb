/** The fixed-window limiter of one API key: nested calendar buckets, counters with a TTL,
    and a loop over windows that stops at the first one exceeded. */
module RateLimits {
  import opened Basics
  import opened Calendar

  datatype Window = Window(period: Period, limit: nat)

  datatype Counter = Counter(count: nat, expiresAt: int)

  datatype RateLimitResult = RateLimitResult(
    allowed: bool, exceededPeriod: Option<Period>, limit: Option<int>, remaining: Option<int>, resetAt: Option<Instant>)

  /** One request as the clock saw it: each window's key is built from its own reading. */
  datatype Request = Request(minute: Instant, hour: Instant, day: Instant, month: Instant)
  {
    function At(p: Period): Instant {
      match p
      case Minute => minute
      case Hour => hour
      case Day => day
      case Month => month
    }

    function BucketIn(p: Period): Bucket { BucketOf(At(p), p) }

    ghost predicate Ordered() {
      && Valid(minute) && Valid(hour) && Valid(day) && Valid(month)
      && Micros(minute) <= Micros(hour) <= Micros(day) <= Micros(month)
    }
  }

  /** Windows run from finest to coarsest, each at most once. */
  predicate FinestFirst(ws: seq<Window>) {
    forall i, j | 0 <= i < j < |ws| :: Rank(ws[i].period) < Rank(ws[j].period)
  }

  // ----- Redis -----

  /** What INCR finds: an expired key counts as absent. */
  function ValueAt(counters: map<Bucket, Counter>, b: Bucket, now: int): nat {
    if b in counters && now < counters[b].expiresAt then counters[b].count else 0
  }

  /** INCR and EXPIRE in one pipeline; every call renews the TTL. */
  function Incremented(counters: map<Bucket, Counter>, at: Instant, p: Period): map<Bucket, Counter> {
    var b := BucketOf(at, p);
    counters[b := Counter(ValueAt(counters, b, Micros(at)) + 1, Micros(at) + TtlSeconds(p) * SECOND)]
  }

  /** The result for one window; its reset is computed from a reading of its own. */
  function Checked(w: Window, count: nat, read: Instant): RateLimitResult {
    RateLimitResult(count <= w.limit, if count <= w.limit then None else Some(w.period), Some(w.limit),
                    Some(Max(0, w.limit - count)), ResetAt(read, w.period))
  }

  /** The windows from the k-th on: the counters left behind and the first window exceeded. */
  function CheckFrom(counters: map<Bucket, Counter>, r: Request, ws: seq<Window>, k: nat): (result: (map<Bucket, Counter>, Option<nat>))
    requires k <= |ws|
    ensures result.1.Some? ==> k <= result.1.value < |ws|
    decreases |ws| - k
  {
    if k == |ws| then (counters, None)
    else
      var p := ws[k].period;
      var next := Incremented(counters, r.At(p), p);
      if Found(counters, r.At(p), p) + 1 > ws[k].limit then (next, Some(k)) else CheckFrom(next, r, ws, k + 1)
  }

  /** What an INCR at x finds in a window. */
  function Found(counters: map<Bucket, Counter>, x: Instant, p: Period): nat {
    ValueAt(counters, BucketOf(x, p), Micros(x))
  }

  /** The counters after the first n requests, from an empty Redis. */
  function After(ws: seq<Window>, ts: seq<Request>, n: nat): map<Bucket, Counter>
    requires n <= |ts|
  {
    if n == 0 then map[] else CheckFrom(After(ws, ts, n - 1), ts[n - 1], ws, 0).0
  }

  // ----- which limits apply -----

  datatype LimitRow = LimitRow(keyId: Option<nat>, userId: Option<nat>, period: Period, limit: nat)

  /** The first row for a period that belongs to the key, or to the key or its user. */
  function FirstLimit(rows: seq<LimitRow>, key: nat, user: nat, p: Period, keyOnly: bool): Option<nat> {
    if rows == [] then None
    else
      var last, before := rows[|rows| - 1], FirstLimit(rows[..|rows| - 1], key, user, p, keyOnly);
      if before.None? && last.period == p && (last.keyId == Some(key) || (!keyOnly && last.userId == Some(user)))
      then Some(last.limit) else before
  }

  /** A limit set on the key overrides one set on its user. */
  function ChosenLimit(rows: seq<LimitRow>, key: nat, user: nat, p: Period): Option<nat> {
    var own := FirstLimit(rows, key, user, p, true);
    if own.Some? then own else FirstLimit(rows, key, user, p, false)
  }

  predicate OfKey(row: LimitRow, key: nat, p: Period) {
    row.period == p && row.keyId == Some(key)
  }

  predicate OfUser(row: LimitRow, user: nat, p: Period) {
    row.period == p && row.userId == Some(user)
  }

  lemma {:induction false} FirstLimitIs(rows: seq<LimitRow>, key: nat, user: nat, p: Period, keyOnly: bool, i: nat)
    requires i < |rows| && (OfKey(rows[i], key, p) || (!keyOnly && OfUser(rows[i], user, p)))
    requires forall j | 0 <= j < i :: !OfKey(rows[j], key, p) && (keyOnly || !OfUser(rows[j], user, p))
    ensures FirstLimit(rows, key, user, p, keyOnly) == Some(rows[i].limit)
  {
    var n := |rows| - 1;
    if i < n {
      FirstLimitIs(rows[..n], key, user, p, keyOnly, i);
    } else {
      NoLimit(rows[..n], key, user, p, keyOnly);
    }
  }

  lemma {:induction false} NoLimit(rows: seq<LimitRow>, key: nat, user: nat, p: Period, keyOnly: bool)
    requires forall j | 0 <= j < |rows| :: !OfKey(rows[j], key, p) && (keyOnly || !OfUser(rows[j], user, p))
    ensures FirstLimit(rows, key, user, p, keyOnly) == None
  {
    if rows != [] {
      NoLimit(rows[..|rows| - 1], key, user, p, keyOnly);
    }
  }

  /** A key's own first row for the period decides; only when it has none does its user's. */
  lemma OwnLimitWins(rows: seq<LimitRow>, key: nat, user: nat, p: Period)
    ensures forall i | 0 <= i < |rows| && OfKey(rows[i], key, p) && (forall j | 0 <= j < i :: !OfKey(rows[j], key, p)) ::
              ChosenLimit(rows, key, user, p) == Some(rows[i].limit)
    ensures (forall j | 0 <= j < |rows| :: !OfKey(rows[j], key, p)) ==>
              forall i | 0 <= i < |rows| && OfUser(rows[i], user, p) && (forall j | 0 <= j < i :: !OfUser(rows[j], user, p)) ::
                ChosenLimit(rows, key, user, p) == Some(rows[i].limit)
    ensures (forall j | 0 <= j < |rows| :: !OfKey(rows[j], key, p) && !OfUser(rows[j], user, p)) ==> ChosenLimit(rows, key, user, p) == None
  {
    forall i | 0 <= i < |rows| && OfKey(rows[i], key, p) && (forall j | 0 <= j < i :: !OfKey(rows[j], key, p))
      ensures ChosenLimit(rows, key, user, p) == Some(rows[i].limit)
    {
      FirstLimitIs(rows, key, user, p, true, i);
    }
    if forall j | 0 <= j < |rows| :: !OfKey(rows[j], key, p) {
      NoLimit(rows, key, user, p, true);
      forall i | 0 <= i < |rows| && OfUser(rows[i], user, p) && (forall j | 0 <= j < i :: !OfUser(rows[j], user, p))
        ensures ChosenLimit(rows, key, user, p) == Some(rows[i].limit)
      {
        FirstLimitIs(rows, key, user, p, false, i);
      }
      if forall j | 0 <= j < |rows| :: !OfUser(rows[j], user, p) {
        NoLimit(rows, key, user, p, false);
      }
    }
  }

  /** One window per period that has a limit, finest first. */
  method GetLimits(rows: seq<LimitRow>, key: nat, user: nat) returns (limits: seq<Window>)
    ensures FinestFirst(limits)
    ensures forall w | w in limits :: ChosenLimit(rows, key, user, w.period) == Some(w.limit)
    ensures forall p | ChosenLimit(rows, key, user, p).Some? :: Window(p, ChosenLimit(rows, key, user, p).value) in limits
  {
    var resolved: map<Period, (nat, bool)> := map[];
    for i := 0 to |rows|
      invariant forall p :: p in resolved <==> ChosenLimit(rows[..i], key, user, p).Some?
      invariant forall p | p in resolved ::
                  && Some(resolved[p].0) == ChosenLimit(rows[..i], key, user, p)
                  && (resolved[p].1 <==> FirstLimit(rows[..i], key, user, p, true).Some?)
    {
      var row := rows[i];
      assert rows[..i + 1][..i] == rows[..i];
      if row.keyId == Some(key) || row.userId == Some(user) {
        var own := row.keyId == Some(key);
        if row.period !in resolved || (own && !resolved[row.period].1) {
          resolved := resolved[row.period := (row.limit, own)];
        }
      }
    }
    assert rows[..|rows|] == rows;
    limits := [];
    var order := [Minute, Hour, Day, Month];
    for k := 0 to |order|
      invariant FinestFirst(limits) && forall w | w in limits :: Rank(w.period) < k
      invariant forall w | w in limits :: ChosenLimit(rows, key, user, w.period) == Some(w.limit)
      invariant forall p | Rank(p) < k && p in resolved :: Window(p, resolved[p].0) in limits
    {
      assert Rank(order[k]) == k;
      assert forall p :: Rank(p) == k ==> p == order[k];
      if order[k] in resolved {
        limits := limits + [Window(order[k], resolved[order[k]].0)];
      }
    }
  }

  datatype Defaults = Defaults(perMinute: int, perHour: int, perDay: int, perMonth: int)
  {
    function For(p: Period): int {
      match p
      case Minute => perMinute
      case Hour => perHour
      case Day => perDay
      case Month => perMonth
    }
  }

  ghost predicate DefaultsBelow(d: Defaults, limits: seq<Window>, rank: int) {
    && FinestFirst(limits)
    && (forall w | w in limits :: w.limit == d.For(w.period) > 0 && Rank(w.period) < rank)
    && (forall p | d.For(p) > 0 && Rank(p) < rank :: Window(p, d.For(p)) in limits)
  }

  method WithDefault(d: Defaults, limits: seq<Window>, p: Period) returns (more: seq<Window>)
    requires DefaultsBelow(d, limits, Rank(p))
    ensures DefaultsBelow(d, more, Rank(p) + 1)
  {
    more := if d.For(p) > 0 then limits + [Window(p, d.For(p))] else limits;
    assert forall q :: Rank(q) == Rank(p) ==> q == p;
  }

  /** Configured defaults, in the order of the periods; zero or less switches a window off. */
  method DefaultLimits(d: Defaults) returns (limits: seq<Window>)
    ensures FinestFirst(limits)
    ensures forall w | w in limits :: w.limit == d.For(w.period) > 0
    ensures forall p | d.For(p) > 0 :: Window(p, d.For(p)) in limits
  {
    limits := WithDefault(d, [], Minute);
    limits := WithDefault(d, limits, Hour);
    limits := WithDefault(d, limits, Day);
    limits := WithDefault(d, limits, Month);
  }

  class Limiter {
    var counters: map<Bucket, Counter>

    method Increment(at: Instant, p: Period) returns (count: nat)
      modifies this
      ensures counters == Incremented(old(counters), at, p)
      ensures count == Found(old(counters), at, p) + 1
      ensures var b := BucketOf(at, p);
              && counters.Keys == old(counters).Keys + {b} && (forall k | k in old(counters) && k != b :: counters[k] == old(counters)[k])
              && counters[b].expiresAt == Micros(at) + TtlSeconds(p) * SECOND
              && counters[b].count == 1 + (if b in old(counters) && Micros(at) < old(counters)[b].expiresAt then old(counters)[b].count else 0)
    {
      var b := BucketOf(at, p);
      count := ValueAt(counters, b, Micros(at)) + 1;
      counters := counters[b := Counter(count, Micros(at) + TtlSeconds(p) * SECOND)];
    }

    /** Stops at the first exceeded window; otherwise reports the first window. `resets` are
        the readings the windows' resets are computed from. */
    method CheckAllLimits(r: Request, ws: seq<Window>, resets: seq<Instant>) returns (result: RateLimitResult)
      requires |resets| == |ws|
      modifies this
      ensures counters == CheckFrom(old(counters), r, ws, 0).0
      ensures match CheckFrom(old(counters), r, ws, 0).1
              case None => result.allowed && result.exceededPeriod == None
              case Some(k) =>
                result == RateLimitResult(false, Some(ws[k].period), Some(ws[k].limit), Some(0), ResetAt(resets[k], ws[k].period))
      ensures ws == [] ==> result == RateLimitResult(true, None, None, None, None)
      ensures result.allowed && ws != [] ==>
                result == Checked(ws[0], Found(old(counters), r.At(ws[0].period), ws[0].period) + 1, resets[0])
      ensures result.allowed && ws != [] ==>
                && result.exceededPeriod == None && result.limit == Some(ws[0].limit) && result.resetAt == ResetAt(resets[0], ws[0].period)
                && result.remaining == Some(ws[0].limit - Found(old(counters), r.At(ws[0].period), ws[0].period) - 1)
                && result.remaining.value >= 0
    {
      var first: Option<RateLimitResult> := None;
      for k := 0 to |ws|
        invariant CheckFrom(old(counters), r, ws, 0) == CheckFrom(counters, r, ws, k)
        invariant k == 0 ==> first.None? && counters == old(counters)
        invariant k > 0 ==> first == Some(Checked(ws[0], Found(old(counters), r.At(ws[0].period), ws[0].period) + 1, resets[0]))
        invariant k > 0 ==> first.value.allowed
      {
        var count := Increment(r.At(ws[k].period), ws[k].period);
        var checked := Checked(ws[k], count, resets[k]);
        if first.None? {
          first := Some(checked);
        }
        if !checked.allowed {
          return checked;
        }
      }
      result := if first.Some? then first.value else RateLimitResult(true, None, None, None, None);
    }
  }

  // ----- which requests pass which windows, counted without counters -----

  /** Request i gets past the first w windows: in each of them fewer earlier requests of the
      same bucket had reached that window than its limit. */
  predicate Reaches(ws: seq<Window>, ts: seq<Request>, i: nat, w: nat)
    requires i < |ts| && w <= |ws|
    decreases w, i, 0
  {
    w == 0 || (Reaches(ws, ts, i, w - 1)
               && Count(ws, ts, i, w - 1, w - 1, ts[i].BucketIn(ws[w - 1].period)) < ws[w - 1].limit)
  }

  /** How many of the first n requests got past the first w windows and have bucket b in
      window v. */
  function Count(ws: seq<Window>, ts: seq<Request>, n: nat, w: nat, v: nat, b: Bucket): nat
    requires n <= |ts| && w <= |ws| && v < |ws|
    decreases w, n, 1
  {
    if n == 0 then 0
    else Count(ws, ts, n - 1, w, v, b)
         + if Reaches(ws, ts, n - 1, w) && ts[n - 1].BucketIn(ws[v].period) == b then 1 else 0
  }

  predicate Admitted(ws: seq<Window>, ts: seq<Request>, i: nat)
    requires i < |ts|
  {
    Reaches(ws, ts, i, |ws|)
  }

  /** Requests are checked one after another. */
  ghost predicate Chronological(ts: seq<Request>) {
    && (forall i | 0 <= i < |ts| :: ts[i].Ordered())
    && (forall i, j | 0 <= i < j < |ts| :: Micros(ts[i].month) <= Micros(ts[j].minute))
  }

  // ----- the counters are exactly those counts -----

  /** Every window counts the first n requests, and the windows below k count request n too. */
  ghost predicate Agree(ws: seq<Window>, ts: seq<Request>, n: nat, k: nat, counters: map<Bucket, Counter>, from: int)
    requires n <= |ts| && k <= |ws| && (k > 0 ==> n < |ts|)
  {
    forall w, x {:trigger Found(counters, x, ws[w].period)} | 0 <= w < |ws| && Valid(x) && from <= Micros(x) ::
      Found(counters, x, ws[w].period) == Count(ws, ts, if w < k then n + 1 else n, w, w, BucketOf(x, ws[w].period))
  }

  /** An increment at t shows in the rest of its bucket, TTL notwithstanding, and nowhere else. */
  lemma FoundAfterIncrement(counters: map<Bucket, Counter>, t: Instant, p: Period, x: Instant, q: Period)
    requires Valid(t) && Valid(x) && Micros(t) <= Micros(x)
    ensures Found(Incremented(counters, t, p), x, q)
         == if BucketOf(x, q) == BucketOf(t, p) then Found(counters, t, p) + 1 else Found(counters, x, q)
  {
    if BucketOf(x, q) == BucketOf(t, p) {
      TtlOutlastsBucket(t, x, p);
    }
  }

  lemma IncrementAgrees(ws: seq<Window>, ts: seq<Request>, n: nat, k: nat, counters: map<Bucket, Counter>, from: int, t: Instant)
    requires FinestFirst(ws) && n < |ts| && k < |ws| && t == ts[n].At(ws[k].period) && Valid(t) && from <= Micros(t)
    requires Reaches(ws, ts, n, k) && Agree(ws, ts, n, k, counters, from)
    ensures Agree(ws, ts, n, k + 1, Incremented(counters, t, ws[k].period), Micros(t))
  {
    var p := ws[k].period;
    var next := Incremented(counters, t, p);
    forall w, x | 0 <= w < |ws| && Valid(x) && Micros(t) <= Micros(x)
      ensures Found(next, x, ws[w].period) == Count(ws, ts, if w < k + 1 then n + 1 else n, w, w, BucketOf(x, ws[w].period))
    {
      assert Found(counters, x, ws[w].period) == Count(ws, ts, if w < k then n + 1 else n, w, w, BucketOf(x, ws[w].period));
      assert Found(counters, t, p) == Count(ws, ts, n, k, k, BucketOf(t, p));
      FoundAfterIncrement(counters, t, p, x, ws[w].period);
      assert w != k ==> Rank(ws[w].period) != Rank(p);
    }
  }

  lemma {:induction false} StaysOut(ws: seq<Window>, ts: seq<Request>, n: nat, k: nat, w: nat)
    requires n < |ts| && k <= w <= |ws| && !Reaches(ws, ts, n, k)
    ensures !Reaches(ws, ts, n, w)
  {
    if k < w {
      StaysOut(ws, ts, n, k, w - 1);
    }
  }

  lemma ReadingsOrdered(r: Request, p: Period, q: Period)
    requires r.Ordered() && Rank(p) <= Rank(q)
    ensures Valid(r.At(p)) && Valid(r.At(q)) && Micros(r.At(p)) <= Micros(r.At(q))
  {
  }

  /** The k-th increment of a request, and what it decides. */
  lemma WindowAgrees(ws: seq<Window>, ts: seq<Request>, n: nat, k: nat, counters: map<Bucket, Counter>, from: int, t: Instant)
    requires FinestFirst(ws) && n < |ts| && k < |ws| && ts[n].Ordered() && Reaches(ws, ts, n, k)
    requires Agree(ws, ts, n, k, counters, from) && t == ts[n].At(ws[k].period) && from <= Micros(t)
    ensures Agree(ws, ts, n, k + 1, Incremented(counters, t, ws[k].period), Micros(t))
    ensures Found(counters, t, ws[k].period) + 1 <= ws[k].limit <==> Reaches(ws, ts, n, k + 1)
    ensures Micros(t) <= Micros(ts[n].month)
    ensures k + 1 < |ws| ==> Micros(t) <= Micros(ts[n].At(ws[k + 1].period))
  {
    ReadingsOrdered(ts[n], ws[k].period, Month);
    if k + 1 < |ws| {
      ReadingsOrdered(ts[n], ws[k].period, ws[k + 1].period);
    }
    assert Found(counters, t, ws[k].period) == Count(ws, ts, n, k, k, BucketOf(t, ws[k].period));
    IncrementAgrees(ws, ts, n, k, counters, from, t);
  }

  lemma {:induction false} CheckAgrees(ws: seq<Window>, ts: seq<Request>, n: nat, k: nat, counters: map<Bucket, Counter>, from: int, to: int)
    requires FinestFirst(ws) && n < |ts| && k <= |ws| && ts[n].Ordered() && Reaches(ws, ts, n, k)
    requires Agree(ws, ts, n, k, counters, from) && from <= to && Micros(ts[n].month) <= to
    requires k < |ws| ==> from <= Micros(ts[n].At(ws[k].period))
    ensures CheckFrom(counters, ts[n], ws, k).1.None? <==> Admitted(ws, ts, n)
    ensures Agree(ws, ts, n + 1, 0, CheckFrom(counters, ts[n], ws, k).0, to)
    decreases |ws| - k
  {
    if k < |ws| {
      var t := ts[n].At(ws[k].period);
      var next := Incremented(counters, t, ws[k].period);
      WindowAgrees(ws, ts, n, k, counters, from, t);
      if Reaches(ws, ts, n, k + 1) {
        CheckAgrees(ws, ts, n, k + 1, next, Micros(t), to);
      } else {
        StoppedAgrees(ws, ts, n, k, next, Micros(t), to);
      }
    } else {
      PassedAgrees(ws, ts, n, counters, from, to);
    }
  }

  /** A request past every window counts in all of them. */
  lemma PassedAgrees(ws: seq<Window>, ts: seq<Request>, n: nat, counters: map<Bucket, Counter>, from: int, to: int)
    requires n < |ts| && from <= to && Agree(ws, ts, n, |ws|, counters, from)
    ensures Agree(ws, ts, n + 1, 0, counters, to)
  {
    forall w, x | 0 <= w < |ws| && Valid(x) && to <= Micros(x)
      ensures Found(counters, x, ws[w].period) == Count(ws, ts, n + 1, w, w, BucketOf(x, ws[w].period))
    {
    }
  }

  /** A request stopped at window k counts in the windows up to k and in no later one. */
  lemma StoppedAgrees(ws: seq<Window>, ts: seq<Request>, n: nat, k: nat, counters: map<Bucket, Counter>, from: int, to: int)
    requires n < |ts| && k < |ws| && !Reaches(ws, ts, n, k + 1) && from <= to
    requires Agree(ws, ts, n, k + 1, counters, from)
    ensures !Admitted(ws, ts, n) && Agree(ws, ts, n + 1, 0, counters, to)
  {
    StaysOut(ws, ts, n, k + 1, |ws|);
    forall w, x | 0 <= w < |ws| && Valid(x) && to <= Micros(x)
      ensures Found(counters, x, ws[w].period) == Count(ws, ts, n + 1, w, w, BucketOf(x, ws[w].period))
    {
      assert Found(counters, x, ws[w].period) == Count(ws, ts, if w < k + 1 then n + 1 else n, w, w, BucketOf(x, ws[w].period));
      if k < w {
        StaysOut(ws, ts, n, k + 1, w);
      }
    }
  }

  /** One more request, checked by `to`. */
  lemma NextAgrees(ws: seq<Window>, ts: seq<Request>, n: nat, to: int)
    requires FinestFirst(ws) && n < |ts| && ts[n].Ordered() && Micros(ts[n].month) <= to
    requires Agree(ws, ts, n, 0, After(ws, ts, n), Micros(ts[n].minute))
    ensures Agree(ws, ts, n + 1, 0, After(ws, ts, n + 1), to)
    ensures CheckFrom(After(ws, ts, n), ts[n], ws, 0).1.None? <==> Admitted(ws, ts, n)
  {
    ReadingsOrdered(ts[n], Minute, if ws == [] then Minute else ws[0].period);
    CheckAgrees(ws, ts, n, 0, After(ws, ts, n), Micros(ts[n].minute), to);
  }

  lemma {:induction false} AfterAgrees(ws: seq<Window>, ts: seq<Request>, n: nat, from: int)
    requires FinestFirst(ws) && Chronological(ts) && n <= |ts|
    requires n > 0 ==> Micros(ts[n - 1].month) <= from
    ensures Agree(ws, ts, n, 0, After(ws, ts, n), from)
  {
    if n > 0 {
      AfterAgrees(ws, ts, n - 1, Micros(ts[n - 1].minute));
      NextAgrees(ws, ts, n - 1, from);
    }
  }

  /** Over every run the n-th request is allowed exactly when, in every window, fewer than the
      limit had got that far in its bucket. */
  lemma AllowedIffAdmitted(ws: seq<Window>, ts: seq<Request>, n: nat)
    requires FinestFirst(ws) && Chronological(ts) && n < |ts|
    ensures CheckFrom(After(ws, ts, n), ts[n], ws, 0).1.None? <==> Admitted(ws, ts, n)
  {
    AfterAgrees(ws, ts, n, Micros(ts[n].minute));
    NextAgrees(ws, ts, n, Micros(ts[n].month));
  }

  /** At every later instant the counter of its bucket is the number of requests that reached
      the window in that bucket. */
  lemma CounterIsReachCount(ws: seq<Window>, ts: seq<Request>, n: nat, w: nat, x: Instant)
    requires FinestFirst(ws) && Chronological(ts) && n <= |ts| && w < |ws|
    requires Valid(x) && (n > 0 ==> Micros(ts[n - 1].month) <= Micros(x))
    ensures Found(After(ws, ts, n), x, ws[w].period) == Count(ws, ts, n, w, w, BucketOf(x, ws[w].period))
  {
    AfterAgrees(ws, ts, n, Micros(x));
  }

  /** What an allowed request is told: the first window's limit less the requests its bucket
      has seen, itself included. */
  lemma RemainingIsWhatIsLeft(ws: seq<Window>, ts: seq<Request>, n: nat, p: Period, x: Instant, read: Instant, told: RateLimitResult)
    requires FinestFirst(ws) && Chronological(ts) && n < |ts| && ws != [] && Admitted(ws, ts, n)
    requires p == ws[0].period && x == ts[n].At(p) && told == Checked(ws[0], Found(After(ws, ts, n), x, p) + 1, read)
    ensures told.allowed && told.limit == Some(ws[0].limit)
    ensures told.remaining == Some(ws[0].limit - Count(ws, ts, n + 1, 0, 0, BucketOf(x, p))) && told.remaining.value >= 0
  {
    FirstWindowSees(ws, ts, n, p, x);
    CheckedWithin(ws[0], Found(After(ws, ts, n), x, p) + 1, read);
  }

  lemma CheckedWithin(w: Window, count: nat, read: Instant)
    requires count <= w.limit
    ensures var c := Checked(w, count, read); c.allowed && c.limit == Some(w.limit) && c.remaining == Some(w.limit - count)
  {
  }

  lemma FirstWindowSees(ws: seq<Window>, ts: seq<Request>, n: nat, p: Period, x: Instant)
    requires FinestFirst(ws) && Chronological(ts) && n < |ts| && ws != [] && Admitted(ws, ts, n)
    requires p == ws[0].period && x == ts[n].At(p)
    ensures Found(After(ws, ts, n), x, p) + 1 == Count(ws, ts, n + 1, 0, 0, BucketOf(x, p)) <= ws[0].limit
  {
    ReadingsOrdered(ts[n], Minute, p);
    CounterIsReachCount(ws, ts, n, 0, x);
    FirstWindowPassed(ws, ts, n, |ws|);
  }

  lemma {:induction false} FirstWindowPassed(ws: seq<Window>, ts: seq<Request>, n: nat, w: nat)
    requires n < |ts| && 1 <= w <= |ws| && Reaches(ws, ts, n, w)
    ensures Reaches(ws, ts, n, 1)
  {
    if w > 1 {
      FirstWindowPassed(ws, ts, n, w - 1);
    }
  }

  // ----- no window's limit is passed -----

  lemma {:induction false} PassesAreCapped(ws: seq<Window>, ts: seq<Request>, n: nat, w: nat, b: Bucket)
    requires n <= |ts| && w < |ws|
    ensures Count(ws, ts, n, w + 1, w, b) == Capped(Count(ws, ts, n, w, w, b), ws[w].limit)
  {
    if n > 0 {
      PassesAreCapped(ws, ts, n - 1, w, b);
    }
  }

  function Capped(count: nat, limit: nat): nat {
    if count <= limit then count else limit
  }

  lemma {:induction false} FewerReachFurther(ws: seq<Window>, ts: seq<Request>, n: nat, w: nat, v: nat, b: Bucket)
    requires n <= |ts| && w <= |ws| && v < |ws|
    ensures Count(ws, ts, n, |ws|, v, b) <= Count(ws, ts, n, w, v, b)
  {
    if n > 0 {
      FewerReachFurther(ws, ts, n - 1, w, v, b);
      if !Reaches(ws, ts, n - 1, w) {
        StaysOut(ws, ts, n - 1, w, |ws|);
      }
    }
  }

  /** Admitted requests never exceed any window's limit in any bucket. */
  lemma AdmittedWithinLimit(ws: seq<Window>, ts: seq<Request>, n: nat, w: nat, b: Bucket)
    requires n <= |ts| && w < |ws|
    ensures Count(ws, ts, n, |ws|, w, b) <= ws[w].limit
  {
    PassesAreCapped(ws, ts, n, w, b);
    FewerReachFurther(ws, ts, n, w + 1, w, b);
  }

  /** Admitted requests whose reading for window w lies between two points in time. */
  function AdmittedBetween(ws: seq<Window>, ts: seq<Request>, n: nat, w: nat, from: int, to: int): nat
    requires n <= |ts| && w < |ws|
  {
    if n == 0 then 0
    else AdmittedBetween(ws, ts, n - 1, w, from, to)
         + if Admitted(ws, ts, n - 1) && from <= Micros(ts[n - 1].At(ws[w].period)) < to then 1 else 0
  }

  lemma {:induction false} AdmittedInTwoBuckets(ws: seq<Window>, ts: seq<Request>, n: nat, w: nat, from: int, to: int, b: Bucket, c: Bucket)
    requires n <= |ts| && w < |ws|
    requires forall i | 0 <= i < n && from <= Micros(ts[i].At(ws[w].period)) < to :: ts[i].BucketIn(ws[w].period) in {b, c}
    ensures AdmittedBetween(ws, ts, n, w, from, to) <= Count(ws, ts, n, |ws|, w, b) + Count(ws, ts, n, |ws|, w, c)
  {
    if n > 0 {
      AdmittedInTwoBuckets(ws, ts, n - 1, w, from, to, b, c);
    }
  }

  lemma InTwoBuckets(x: Instant, a: Instant, p: Period, b: Bucket, c: Bucket)
    requires Valid(a) && Valid(x) && Micros(a) <= Micros(x) < Micros(a) + ShortestSeconds(p) * SECOND
    requires b == BucketOf(a, p) && c == BucketOf(if ResetAt(a, p).Some? then ResetAt(a, p).value else a, p)
    ensures BucketOf(x, p) in {b, c}
  {
    TwoBucketsCover(a, x, p);
  }

  lemma ReadingsInTwoBuckets(ws: seq<Window>, ts: seq<Request>, w: nat, a: Instant, from: int, to: int, b: Bucket, c: Bucket)
    requires w < |ws| && Valid(a) && forall i | 0 <= i < |ts| :: Valid(ts[i].At(ws[w].period))
    requires from == Micros(a) && to == Micros(a) + ShortestSeconds(ws[w].period) * SECOND
    requires b == BucketOf(a, ws[w].period)
    requires c == BucketOf(if ResetAt(a, ws[w].period).Some? then ResetAt(a, ws[w].period).value else a, ws[w].period)
    ensures forall i | 0 <= i < |ts| && from <= Micros(ts[i].At(ws[w].period)) < to :: ts[i].BucketIn(ws[w].period) in {b, c}
  {
    forall i | 0 <= i < |ts| && from <= Micros(ts[i].At(ws[w].period)) < to
      ensures ts[i].BucketIn(ws[w].period) in {b, c}
    {
      InTwoBuckets(ts[i].At(ws[w].period), a, ws[w].period, b, c);
    }
  }

  /** Nor do they exceed twice the limit over any interval as long as the window, wherever
      it starts (28 days for a month). */
  lemma AdmittedWithinTwiceLimitAnywhere(ws: seq<Window>, ts: seq<Request>, n: nat, w: nat, a: Instant, from: int, to: int)
    requires n <= |ts| && w < |ws| && Valid(a) && forall i | 0 <= i < |ts| :: Valid(ts[i].At(ws[w].period))
    requires from == Micros(a) && to == Micros(a) + ShortestSeconds(ws[w].period) * SECOND
    ensures AdmittedBetween(ws, ts, n, w, from, to) <= 2 * ws[w].limit
  {
    var p := ws[w].period;
    var b, c := BucketOf(a, p), BucketOf(if ResetAt(a, p).Some? then ResetAt(a, p).value else a, p);
    ReadingsInTwoBuckets(ws, ts, w, a, from, to, b, c);
    AdmittedInTwoBuckets(ws, ts, n, w, from, to, b, c);
    AdmittedWithinLimit(ws, ts, n, w, b);
    AdmittedWithinLimit(ws, ts, n, w, c);
  }

  // ----- the closed form -----

  ghost function Sum(m: map<Bucket, nat>): nat {
    if m == map[] then 0
    else
      var c :| c in m;
      m[c] + Sum(m - {c})
  }

  lemma {:induction false} SumRemove(m: map<Bucket, nat>, c: Bucket)
    requires c in m
    ensures Sum(m) == m[c] + Sum(m - {c})
    decreases m
  {
    var d :| d in m && Sum(m) == m[d] + Sum(m - {d});
    if d != c {
      SumRemove(m - {d}, c);
      SumRemove(m - {c}, d);
      assert m - {d} - {c} == m - {c} - {d};
    }
  }

  /** The bucket of the next coarser window that a request's bucket of window w lies in. */
  function Enclosing(ws: seq<Window>, r: Request, w: nat): Bucket
    requires w + 1 < |ws|
  {
    BucketOf(r.At(ws[w].period), ws[w + 1].period)
  }

  /** The buckets of window w visited inside bucket b of the next coarser window. */
  function SubBuckets(ws: seq<Window>, ts: seq<Request>, n: nat, w: nat, b: Bucket): set<Bucket>
    requires n <= |ts| && w + 1 < |ws|
  {
    set i | 0 <= i < n && Enclosing(ws, ts[i], w) == b :: ts[i].BucketIn(ws[w].period)
  }

  /** Each of them with the requests that reached it, capped at the limit of window w. */
  function CappedSubBuckets(ws: seq<Window>, ts: seq<Request>, n: nat, w: nat, b: Bucket): map<Bucket, nat>
    requires n <= |ts| && w + 1 < |ws|
  {
    map c | c in SubBuckets(ws, ts, n, w, b) :: Capped(Count(ws, ts, n, w, w, c), ws[w].limit)
  }

  lemma SubBucketsGrow(ws: seq<Window>, ts: seq<Request>, n: nat, w: nat, b: Bucket)
    requires FinestFirst(ws) && 0 < n <= |ts| && w + 1 < |ws|
    ensures var c, before := ts[n - 1].BucketIn(ws[w].period), SubBuckets(ws, ts, n - 1, w, b);
            && SubBuckets(ws, ts, n, w, b) == (if Enclosing(ws, ts[n - 1], w) == b then before + {c} else before)
            && (Enclosing(ws, ts[n - 1], w) != b ==> c !in before)
  {
    forall i | 0 <= i < n - 1 && ts[i].BucketIn(ws[w].period) == ts[n - 1].BucketIn(ws[w].period)
      ensures Enclosing(ws, ts[i], w) == Enclosing(ws, ts[n - 1], w)
    {
      BucketsNest(ts[i].At(ws[w].period), ts[n - 1].At(ws[w].period), ws[w].period, ws[w + 1].period);
    }
  }

  lemma {:induction false} NothingCounted(ws: seq<Window>, ts: seq<Request>, n: nat, w: nat, c: Bucket)
    requires n <= |ts| && w < |ws| && forall i | 0 <= i < n :: ts[i].BucketIn(ws[w].period) != c
    ensures Count(ws, ts, n, w, w, c) == 0
  {
    if n > 0 {
      NothingCounted(ws, ts, n - 1, w, c);
    }
  }

  lemma UnvisitedCountsNothing(ws: seq<Window>, ts: seq<Request>, n: nat, w: nat, b: Bucket)
    requires FinestFirst(ws) && n < |ts| && w + 1 < |ws| && Enclosing(ws, ts[n], w) == b
    requires ts[n].BucketIn(ws[w].period) !in SubBuckets(ws, ts, n, w, b)
    ensures Count(ws, ts, n, w, w, ts[n].BucketIn(ws[w].period)) == 0
  {
    var c := ts[n].BucketIn(ws[w].period);
    forall i | 0 <= i < n
      ensures ts[i].BucketIn(ws[w].period) != c
    {
      if ts[i].BucketIn(ws[w].period) == c {
        BucketsNest(ts[i].At(ws[w].period), ts[n].At(ws[w].period), ws[w].period, ws[w + 1].period);
      }
    }
    NothingCounted(ws, ts, n, w, c);
  }

  /** Requests that passed window w in a bucket inside b: all of them, those whose own reading
      for the next window is no longer in b, and those that came into b over its edge. */
  function Passed(ws: seq<Window>, ts: seq<Request>, n: nat, w: nat, b: Bucket): nat
    requires n <= |ts| && w + 1 < |ws|
  {
    if n == 0 then 0
    else Passed(ws, ts, n - 1, w, b)
         + if Reaches(ws, ts, n - 1, w + 1) && Enclosing(ws, ts[n - 1], w) == b then 1 else 0
  }

  function Departed(ws: seq<Window>, ts: seq<Request>, n: nat, w: nat, b: Bucket): nat
    requires n <= |ts| && w + 1 < |ws|
  {
    if n == 0 then 0
    else Departed(ws, ts, n - 1, w, b)
         + if Reaches(ws, ts, n - 1, w + 1) && Enclosing(ws, ts[n - 1], w) == b != ts[n - 1].BucketIn(ws[w + 1].period) then 1 else 0
  }

  function Arrived(ws: seq<Window>, ts: seq<Request>, n: nat, w: nat, b: Bucket): nat
    requires n <= |ts| && w + 1 < |ws|
  {
    if n == 0 then 0
    else Arrived(ws, ts, n - 1, w, b)
         + if Reaches(ws, ts, n - 1, w + 1) && Enclosing(ws, ts[n - 1], w) != b == ts[n - 1].BucketIn(ws[w + 1].period) then 1 else 0
  }

  lemma NothingVisited(ws: seq<Window>, ts: seq<Request>, n: nat, w: nat, b: Bucket)
    requires FinestFirst(ws) && 0 < n <= |ts| && w + 1 < |ws| && Enclosing(ws, ts[n - 1], w) != b
    ensures CappedSubBuckets(ws, ts, n, w, b) == CappedSubBuckets(ws, ts, n - 1, w, b)
  {
    SubBucketsGrow(ws, ts, n, w, b);
  }

  lemma {:induction false} PassedIsSumOfCapped(ws: seq<Window>, ts: seq<Request>, n: nat, w: nat, b: Bucket)
    requires FinestFirst(ws) && n <= |ts| && w + 1 < |ws|
    ensures Passed(ws, ts, n, w, b) == Sum(CappedSubBuckets(ws, ts, n, w, b))
  {
    if n == 0 {
      assert CappedSubBuckets(ws, ts, n, w, b) == map[];
    } else {
      PassedIsSumOfCapped(ws, ts, n - 1, w, b);
      if Enclosing(ws, ts[n - 1], w) != b {
        NothingVisited(ws, ts, n, w, b);
      } else {
        SumGrows(ws, ts, n, w, b);
      }
    }
  }

  lemma OnlyTheVisitedChanges(ws: seq<Window>, ts: seq<Request>, n: nat, w: nat, b: Bucket)
    requires FinestFirst(ws) && 0 < n <= |ts| && w + 1 < |ws| && Enclosing(ws, ts[n - 1], w) == b
    ensures var c := ts[n - 1].BucketIn(ws[w].period);
            var before, after := CappedSubBuckets(ws, ts, n - 1, w, b), CappedSubBuckets(ws, ts, n, w, b);
            after - {c} == before - {c} && c in after
  {
    SubBucketsGrow(ws, ts, n, w, b);
  }

  lemma SumGrows(ws: seq<Window>, ts: seq<Request>, n: nat, w: nat, b: Bucket)
    requires FinestFirst(ws) && 0 < n <= |ts| && w + 1 < |ws| && Enclosing(ws, ts[n - 1], w) == b
    ensures Sum(CappedSubBuckets(ws, ts, n, w, b))
         == Sum(CappedSubBuckets(ws, ts, n - 1, w, b)) + if Reaches(ws, ts, n - 1, w + 1) then 1 else 0
  {
    var m, m' := CappedSubBuckets(ws, ts, n - 1, w, b), CappedSubBuckets(ws, ts, n, w, b);
    var c := ts[n - 1].BucketIn(ws[w].period);
    OnlyTheVisitedChanges(ws, ts, n, w, b);
    SumRemove(m', c);
    if c in m {
      SumRemove(m, c);
    } else {
      UnvisitedCountsNothing(ws, ts, n - 1, w, b);
      assert m - {c} == m;
    }
  }

  lemma {:induction false} Bookkeeping(ws: seq<Window>, ts: seq<Request>, n: nat, w: nat, b: Bucket)
    requires n <= |ts| && w + 1 < |ws|
    ensures Count(ws, ts, n, w + 1, w + 1, b) + Departed(ws, ts, n, w, b)
         == Passed(ws, ts, n, w, b) + Arrived(ws, ts, n, w, b)
  {
    if n > 0 {
      Bookkeeping(ws, ts, n - 1, w, b);
    }
  }

  /** The closed form: a bucket's counter is the sum, over the finer buckets inside it, of the
      requests that reached those, each capped at their limit, up to the requests whose two
      readings fall on different sides of the bucket's edge. */
  lemma CounterIsSumOfCappedSubBuckets(ws: seq<Window>, ts: seq<Request>, n: nat, w: nat, b: Bucket)
    requires FinestFirst(ws) && n <= |ts| && w + 1 < |ws|
    ensures Count(ws, ts, n, w + 1, w + 1, b) + Departed(ws, ts, n, w, b)
         == Sum(CappedSubBuckets(ws, ts, n, w, b)) + Arrived(ws, ts, n, w, b)
  {
    Bookkeeping(ws, ts, n, w, b);
    PassedIsSumOfCapped(ws, ts, n, w, b);
  }

  /** When no request's readings straddle an edge the sum is exact. */
  lemma {:induction false} NobodyStraddles(ws: seq<Window>, ts: seq<Request>, n: nat, w: nat, b: Bucket)
    requires n <= |ts| && w + 1 < |ws|
    requires forall i | 0 <= i < n :: Enclosing(ws, ts[i], w) == ts[i].BucketIn(ws[w + 1].period)
    ensures Departed(ws, ts, n, w, b) == 0 == Arrived(ws, ts, n, w, b)
  {
    if n > 0 {
      NobodyStraddles(ws, ts, n - 1, w, b);
    }
  }
}
