/** Last-use times of API keys: written to a Redis hash on every use, flushed to the rows by
    one background loop. */
module WriteBehind {
  import opened Basics

  type KeyId = nat

  /** The last_used_at column of every key there is; None is never used. */
  type Stored = map<KeyId, Option<real>>

  type Hash = map<KeyId, real>

  /** One row of a flush: only strictly newer times are written, missing keys are skipped. */
  function FlushedRow(current: Option<real>, queued: real): Option<real> {
    if current.None? || current.value < queued then Some(queued) else current
  }

  function Flushed(stored: Stored, data: Hash): Stored {
    map k | k in stored :: if k in data then FlushedRow(stored[k], data[k]) else stored[k]
  }

  class Flusher {
    var stored: Stored
    var queue: Hash

    /** The HSET at the end of an accepted request. */
    method RecordUse(key: KeyId, at: real)
      modifies this`queue
      ensures queue == old(queue)[key := at]
    {
      queue := queue[key := at];
    }

    /** One flush nothing interleaves with: snapshot and delete the hash, then row by row. */
    method FlushLastUsedAt()
      modifies this
      ensures queue == map[]
      ensures stored == Flushed(old(stored), old(queue))
      ensures stored.Keys == old(stored).Keys
      ensures forall k | k in stored ::
                if k in old(queue) && (old(stored)[k].None? || old(stored)[k].value < old(queue)[k])
                then stored[k] == Some(old(queue)[k]) else stored[k] == old(stored)[k]
    {
      var data := queue;
      queue := map[];
      var left := data.Keys;
      while left != {}
        invariant left <= data.Keys && queue == map[]
        invariant stored == Flushed(old(stored), data - left)
        decreases left
      {
        var key :| key in left;
        left := left - {key};
        if key in stored {
          if stored[key].None? || stored[key].value < data[key] {
            stored := stored[key := Some(data[key])];
          }
        }
        assert forall k | k in data - left && k != key :: k in data - (left + {key});
      }
      assert data - {} == data;
    }
  }

  // ----- uses, flushes and key deletions interleaved -----

  /** A flush in flight: the rows still to visit, and the new values it has prepared but not
      committed. */
  datatype Flush = Flush(todo: Hash, dirty: Hash)

  /** A request that has read the clock and not yet reached Redis. */
  datatype Stamped = Stamped(key: KeyId, at: real)

  /** `ids` and `landed` are history: every key there ever was, and the latest time written to
      the hash for each. */
  datatype State = State(
    now: real, stored: Stored, queue: Hash, flush: Option<Flush>, requests: map<nat, Stamped>,
    ids: set<KeyId>, landed: Hash)

  datatype Action =
    | Stamp(req: nat, key: KeyId, at: real)
    | HSet(req: nat)
    | Fail(req: nat)
    | CreateKey(key: KeyId)
    | DeleteKey(key: KeyId)
    | Take
    | Visit(key: KeyId, ok: bool)
    | Commit
    | Crash

  predicate Enabled(s: State, a: Action) {
    match a
    case Stamp(req, key, at) => req !in s.requests && key in s.stored && s.now <= at
    case HSet(req) => req in s.requests
    case Fail(req) => req in s.requests
    case CreateKey(key) => key !in s.ids
    case DeleteKey(key) => key in s.stored
    case Take => s.flush.None?
    case Visit(key, _) => s.flush.Some? && key in s.flush.value.todo
    case Commit => s.flush.Some? && s.flush.value.todo == map[]
    case Crash => s.flush.Some?
  }

  function Apply(s: State, a: Action): State
    requires Enabled(s, a)
  {
    match a
    case Stamp(req, key, at) => s.(now := at, requests := s.requests[req := Stamped(key, at)])
    case HSet(req) => Landed(s, s.requests[req]).(requests := s.requests - {req})
    case Fail(req) => s.(requests := s.requests - {req})
    case CreateKey(key) => s.(stored := s.stored[key := None], ids := s.ids + {key})
    case DeleteKey(key) => s.(stored := s.stored - {key})
    case Take => s.(flush := Some(Flush(s.queue, map[])), queue := map[])
    case Visit(key, ok) => s.(flush := Some(Visited(s.stored, s.flush.value, key, ok)))
    case Commit => s.(stored := Written(s.stored, s.flush.value.dirty), flush := None)
    case Crash => s.(flush := None)
  }

  /** The hash takes whatever comes last; the history keeps the latest. */
  function Landed(s: State, u: Stamped): State {
    s.(queue := s.queue[u.key := u.at], landed := s.landed[u.key := Later(At(s.landed, u.key), Some(u.at)).value])
  }

  /** The UPDATEs of a commit write what was prepared, without comparing again. */
  function Written(stored: Stored, dirty: Hash): Stored {
    map k | k in stored :: if k in dirty then Some(dirty[k]) else stored[k]
  }

  /** A row whose visit raises is skipped. */
  function Visited(stored: Stored, f: Flush, key: KeyId, ok: bool): Flush
    requires key in f.todo
  {
    var rest := f.todo - {key};
    if ok && key in stored && FlushedRow(stored[key], f.todo[key]) != stored[key]
    then Flush(rest, f.dirty[key := f.todo[key]]) else Flush(rest, f.dirty)
  }

  predicate EnabledRun(s: State, run: seq<Action>)
    decreases |run|
  {
    run == [] || (Enabled(s, run[0]) && EnabledRun(Apply(s, run[0]), run[1..]))
  }

  function Run(s: State, run: seq<Action>): State
    requires EnabledRun(s, run)
    decreases |run|
  {
    if run == [] then s else Run(Apply(s, run[0]), run[1..])
  }

  /** The hash is empty and what is stored is the last use. */
  ghost predicate Start(s: State) {
    && s.queue == map[] && s.flush.None? && s.requests == map[]
    && s.stored.Keys <= s.ids && s.landed.Keys <= s.ids
    && forall k | k in s.stored :: s.stored[k] == At(s.landed, k)
  }

  function At(h: Hash, k: KeyId): Option<real> {
    if k in h then Some(h[k]) else None
  }

  function Later(a: Option<real>, b: Option<real>): (r: Option<real>)
    ensures r.Some? <==> a.Some? || b.Some?
  {
    if a.None? || (b.Some? && a.value < b.value) then b else a
  }

  predicate AtMost(a: Option<real>, b: Option<real>) {
    Later(a, b) == b
  }

  /** Everything known about one key: its row, the flush in flight, the hash, the latest time
      written to the hash. */
  datatype Slot = Slot(row: Option<real>, todo: Option<real>, dirty: Option<real>, queued: Option<real>, landed: Option<real>)
  {
    /** The latest time known outside the hash, and anywhere. */
    function Safe(): Option<real> {
      Later(row, Later(todo, dirty))
    }

    function Known(): Option<real> {
      Later(Safe(), queued)
    }

    function Write(at: real): Slot {
      this.(queued := Some(at), landed := Later(landed, Some(at)))
    }

    function Visit(ok: bool): Slot {
      if todo.None? then this
      else this.(todo := None, dirty := if ok && FlushedRow(row, todo.value) != row then todo else dirty)
    }

    function Drop(): Slot { this.(todo := None, dirty := None) }

    /** True in whatever order the writes land. */
    predicate Ok() {
      && AtMost(Known(), landed)
      && (todo.None? || dirty.None?) && (dirty.Some? ==> row.None? || row.value < dirty.value)
    }
  }

  function SlotOf(s: State, k: KeyId): Slot
    requires k in s.stored
  {
    Slot(s.stored[k],
         if s.flush.Some? then At(s.flush.value.todo, k) else None,
         if s.flush.Some? then At(s.flush.value.dirty, k) else None,
         At(s.queue, k), At(s.landed, k))
  }

  ghost predicate Inv(s: State) {
    && (forall k | k in s.stored :: SlotOf(s, k).Ok())
    && s.stored.Keys <= s.ids && s.landed.Keys <= s.ids && s.queue.Keys <= s.ids
    && (forall r | r in s.requests :: s.requests[r].key in s.ids)
    && (s.flush.Some? ==> s.flush.value.todo.Keys <= s.ids && s.flush.value.dirty.Keys <= s.ids)
  }

  /** A step loses a time that nothing else held: a write replaces a newer time of the hash, a
      visit raises, or a flush ends before its commit. */
  predicate Loses(s: State, a: Action, k: KeyId) {
    && k in s.stored
    && var slot := SlotOf(s, k);
       if a.HSet? then
         && a.req in s.requests && s.requests[a.req].key == k && slot.queued.Some?
         && s.requests[a.req].at < slot.queued.value && !AtMost(slot.queued, slot.Safe())
       else if a.Visit? then a.key == k && !a.ok && !AtMost(slot.todo, Later(slot.row, slot.queued))
       else a.Crash? && !AtMost(Later(slot.todo, slot.dirty), Later(slot.row, slot.queued))
  }

  /** What a step makes of the slot of a key that stays. */
  function SlotAfter(slot: Slot, s: State, a: Action, k: KeyId): Slot
    requires Enabled(s, a)
  {
    if a.HSet? && s.requests[a.req].key == k then slot.Write(s.requests[a.req].at)
    else if a.Take? then slot.(todo := slot.queued, queued := None)
    else if a.Visit? && a.key == k then slot.Visit(a.ok)
    else if a.Crash? then slot.Drop()
    else if a.Commit? then slot.(row := Later(slot.row, slot.dirty), dirty := None)
    else slot
  }

  lemma SlotAfterStep(s: State, a: Action, k: KeyId)
    requires Enabled(s, a) && k in s.stored && k in s.ids && k in Apply(s, a).stored && SlotOf(s, k).Ok()
    ensures SlotOf(Apply(s, a), k) == SlotAfter(SlotOf(s, k), s, a, k)
  {
    if a.Visit? {
      assert Apply(s, a).flush == Some(Visited(s.stored, s.flush.value, a.key, a.ok));
    } else if a.Commit? {
      assert k !in s.flush.value.todo;
    }
  }

  lemma SlotStep(s: State, a: Action, k: KeyId)
    requires Enabled(s, a) && k in s.stored && k in s.ids && k in Apply(s, a).stored && SlotOf(s, k).Ok()
    ensures var before, after := SlotOf(s, k), SlotOf(Apply(s, a), k);
            after.Ok() && AtMost(before.row, after.row)
  {
    SlotAfterStep(s, a, k);
  }

  lemma KnownStep(s: State, a: Action, k: KeyId)
    requires Enabled(s, a) && k in s.stored && k in s.ids && k in Apply(s, a).stored && SlotOf(s, k).Ok()
    requires SlotOf(s, k).Known() == SlotOf(s, k).landed
    ensures var after := SlotOf(Apply(s, a), k); after.Known() == after.landed <==> !Loses(s, a, k)
  {
    SlotAfterStep(s, a, k);
  }

  lemma StepInv(s: State, a: Action)
    requires Inv(s) && Enabled(s, a)
    ensures Inv(Apply(s, a))
  {
    var s' := Apply(s, a);
    forall k | k in s'.stored
      ensures SlotOf(s', k).Ok()
    {
      if k in s.stored {
        SlotStep(s, a, k);
      }
    }
  }

  /** In whatever order the writes land, a row never moves back and never gets a time that no
      request wrote. */
  lemma StoredNeverMovesBack(s: State, a: Action, k: KeyId)
    requires Inv(s) && Enabled(s, a) && k in s.stored && k in Apply(s, a).stored
    ensures var s' := Apply(s, a); AtMost(s.stored[k], s'.stored[k]) && AtMost(s'.stored[k], At(s'.landed, k))
  {
    SlotStep(s, a, k);
  }

  lemma {:induction false} RunInv(s: State, run: seq<Action>)
    requires Inv(s) && EnabledRun(s, run)
    ensures Inv(Run(s, run))
    decreases |run|
  {
    if run != [] {
      StepInv(s, run[0]);
      RunInv(Apply(s, run[0]), run[1..]);
    }
  }

  // ----- when nothing is lost -----

  predicate Current(s: State, k: KeyId) {
    k in s.stored ==> SlotOf(s, k).Known() == At(s.landed, k)
  }

  /** The latest time of key k is known after every step. */
  predicate AlwaysCurrent(s: State, run: seq<Action>, k: KeyId)
    requires EnabledRun(s, run)
    decreases |run|
  {
    Current(s, k) && (run != [] ==> AlwaysCurrent(Apply(s, run[0]), run[1..], k))
  }

  predicate NeverLoses(s: State, run: seq<Action>, k: KeyId)
    requires EnabledRun(s, run)
    decreases |run|
  {
    run == [] || (!Loses(s, run[0], k) && NeverLoses(Apply(s, run[0]), run[1..], k))
  }

  /** Each write of key k is at least as late as those that landed before it, and every flush
      visits its row and commits. */
  predicate Orderly(s: State, run: seq<Action>, k: KeyId)
    requires EnabledRun(s, run)
    decreases |run|
  {
    run == [] || (LandsInOrder(s, run[0], k) && !FlushFails(run[0], k) && Orderly(Apply(s, run[0]), run[1..], k))
  }

  predicate LandsInOrder(s: State, a: Action, k: KeyId) {
    a.HSet? && a.req in s.requests && s.requests[a.req].key == k ==> AtMost(At(s.landed, k), Some(s.requests[a.req].at))
  }

  predicate FlushFails(a: Action, k: KeyId) {
    a.Crash? || (a.Visit? && a.key == k && !a.ok)
  }

  lemma CurrentStep(s: State, a: Action, k: KeyId)
    requires Inv(s) && Enabled(s, a) && Current(s, k)
    ensures Current(Apply(s, a), k) <==> !Loses(s, a, k)
  {
    var s' := Apply(s, a);
    if k in s.stored && k in s'.stored {
      KnownStep(s, a, k);
    }
  }

  lemma {:induction false} CurrentIffNeverLoses(s: State, run: seq<Action>, k: KeyId)
    requires Inv(s) && EnabledRun(s, run) && Current(s, k)
    ensures AlwaysCurrent(s, run, k) <==> NeverLoses(s, run, k)
    decreases |run|
  {
    if run != [] {
      var s' := Apply(s, run[0]);
      CurrentStep(s, run[0], k);
      StepInv(s, run[0]);
      if Current(s', k) {
        CurrentIffNeverLoses(s', run[1..], k);
      }
    }
  }

  /** Over every interleaving of uses, creations, deletions and flushes, failing or not, the
      latest time written for a key stays known throughout exactly when no step loses it. */
  lemma WriteBehindIsWriteThrough(s: State, run: seq<Action>, k: KeyId)
    requires Start(s) && EnabledRun(s, run)
    ensures AlwaysCurrent(s, run, k) <==> NeverLoses(s, run, k)
  {
    CurrentIffNeverLoses(s, run, k);
  }

  lemma {:induction false} OrderlyNeverLoses(s: State, run: seq<Action>, k: KeyId)
    requires Inv(s) && EnabledRun(s, run) && Orderly(s, run, k)
    ensures NeverLoses(s, run, k)
    decreases |run|
  {
    if run != [] {
      StepInv(s, run[0]);
      OrderlyNeverLoses(Apply(s, run[0]), run[1..], k);
    }
  }

  lemma {:induction false} CurrentAtEnd(s: State, run: seq<Action>, k: KeyId)
    requires EnabledRun(s, run) && AlwaysCurrent(s, run, k)
    ensures Current(Run(s, run), k)
    decreases |run|
  {
    if run != [] {
      CurrentAtEnd(Apply(s, run[0]), run[1..], k);
    }
  }

  /** So it does when its writes land in the order of their times, however those of other keys
      do, and flushes succeed; once one has committed and nothing is queued the row holds it. */
  lemma OrderedWritesReachTheRow(s: State, run: seq<Action>, k: KeyId)
    requires Start(s) && EnabledRun(s, run) && Orderly(s, run, k) && k in Run(s, run).stored
    ensures var e := Run(s, run);
            && SlotOf(e, k).Known() == At(e.landed, k)
            && (e.flush.None? && k !in e.queue ==> e.stored[k] == At(e.landed, k))
  {
    OrderlyNeverLoses(s, run, k);
    CurrentIffNeverLoses(s, run, k);
    CurrentAtEnd(s, run, k);
  }

  /** Two overlapping requests can land the other way round: the row is left at the earlier
      time, and nothing holds the later one. */
  lemma ReorderedWritesLoseTheLastUse(k: KeyId) returns (s: State, run: seq<Action>)
    ensures Start(s) && EnabledRun(s, run) && !NeverLoses(s, run, k)
    ensures var e := Run(s, run);
            && e.queue == map[] && e.flush.None? && e.requests == map[] && k in e.stored
            && e.stored[k] == Some(1.0) && At(e.landed, k) == Some(2.0)
  {
    s := State(0.0, map[k := None], map[], None, map[], {k}, map[]);
    var s1 := State(1.0, map[k := None], map[], None, map[1 := Stamped(k, 1.0)], {k}, map[]);
    var s2 := State(2.0, map[k := None], map[], None, map[1 := Stamped(k, 1.0), 2 := Stamped(k, 2.0)], {k}, map[]);
    var s3 := State(2.0, map[k := None], map[k := 2.0], None, map[1 := Stamped(k, 1.0)], {k}, map[k := 2.0]);
    var s4 := State(2.0, map[k := None], map[k := 1.0], None, map[], {k}, map[k := 2.0]);
    run := FlushTo(s4, k, 1.0);
    run := Prepended(s3, HSet(1), s4, run, k);
    run := Prepended(s2, HSet(2), s3, run, k);
    run := Prepended(s1, Stamp(2, k, 2.0), s2, run, k);
    run := Prepended(s, Stamp(1, k, 1.0), s1, run, k);
  }

  lemma Prepended(s: State, a: Action, after: State, rest: seq<Action>, k: KeyId) returns (run: seq<Action>)
    requires Enabled(s, a) && Apply(s, a) == after && EnabledRun(after, rest)
    ensures EnabledRun(s, run) && Run(s, run) == Run(after, rest)
    ensures NeverLoses(s, run, k) <==> !Loses(s, a, k) && NeverLoses(after, rest, k)
  {
    run := [a] + rest;
    assert run[1..] == rest;
  }

  lemma FlushTo(s: State, k: KeyId, at: real) returns (run: seq<Action>)
    requires s.stored == map[k := None] && s.queue == map[k := at] && s.flush.None?
    ensures EnabledRun(s, run) && Run(s, run) == s.(stored := map[k := Some(at)], queue := map[])
  {
    var s1 := s.(queue := map[], flush := Some(Flush(map[k := at], map[])));
    var s2 := s.(queue := map[], flush := Some(Flush(map[], map[k := at])));
    var s3 := s.(stored := map[k := Some(at)], queue := map[]);
    run := Prepended(s2, Commit, s3, [], k);
    run := Prepended(s1, Visit(k, true), s2, run, k);
    run := Prepended(s, Take, s1, run, k);
  }
}
