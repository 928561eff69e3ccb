/** One consumer of the event stream over any run: publishes, overflow, disconnects that
    lose frames in flight, reconnects with the last id received, shutdowns and restarts. */
module EventStream {
  import opened Basics
  import opened EventIds
  import opened EventBuffer

  datatype Frame = Gap | Data(event: Event)

  /** A connection: frames the generator yields before it drains its queue, the queue, and
      frames yielded but not yet received. `epoch` and `next`, the number of the next event
      frame due, are history. */
  datatype Conn = Conn(epoch: nat, open: bool, pending: seq<Frame>, box: Inbox, wire: seq<Frame>, next: nat)

  /** `published` is everything fanned out, by boot epoch; `log` is what the consumer has
      received. */
  datatype State = State(
    epoch: nat, published: map<nat, seq<Payload>>, buffer: seq<Event>, conn: Option<Conn>, log: seq<Frame>)

  /** The ring buffer's depth and the queue limit. */
  datatype Params = Params(size: nat, limit: nat)

  datatype Action =
    | Publish(payload: Payload)
    | Connect
    | YieldPending
    | TakeQueued
    | EndSlow
    | Shutdown
    | Restart(epoch: nat)
    | Receive
    | Drop

  // ----- the consumer's memory -----

  function LastEvent(log: seq<Frame>): Option<Event> {
    if log == [] then None
    else if log[|log| - 1].Data? then Some(log[|log| - 1].event)
    else LastEvent(log[..|log| - 1])
  }

  /** A gap frame came after the last event. */
  predicate GapSince(log: seq<Frame>) {
    log != [] && log[|log| - 1].Gap?
  }

  /** The header of a reconnect: only event frames carry an id. */
  function LastId(log: seq<Frame>): Option<string> {
    var last := LastEvent(log);
    if last.None? then None else Some(EventIdOf(last.value.epoch, last.value.seqNo))
  }

  // ----- steps -----

  function Frames(events: seq<Event>): (frames: seq<Frame>)
    ensures |frames| == |events| && forall k | 0 <= k < |events| :: frames[k] == Data(events[k])
  {
    if events == [] then [] else Frames(events[..|events| - 1]) + [Data(events[|events| - 1])]
  }

  function Current(s: State): seq<Payload>
    requires s.epoch in s.published
  {
    s.published[s.epoch]
  }

  function Opened(s: State): Conn
    requires s.epoch in s.published
  {
    OpenedWith(s.epoch, |Current(s)|, Resume(s.epoch, |Current(s)|, s.buffer, LastId(s.log)))
  }

  /** A gap frame if the header cannot be resumed, then the replay, then the queue. */
  function OpenedWith(epoch: nat, seqNo: nat, r: Resumption): Conn {
    Conn(epoch, true, (if r.resumable then [] else [Gap]) + Frames(r.replay), Inbox([], false), [],
         Max(seqNo + 1 - |r.replay|, 0))
  }

  function Ended(c: Conn): Conn {
    c.(open := false, pending := [], box := Inbox([], false))
  }

  /** The generator between two frames: it has drained its replay. */
  predicate Draining(s: State) {
    s.conn.Some? && s.conn.value.open && s.conn.value.pending == []
  }

  predicate Enabled(p: Params, s: State, a: Action) {
    && s.epoch in s.published
    && match a
       case Publish(_) => true
       case Connect => s.conn.None?
       case YieldPending => s.conn.Some? && s.conn.value.pending != []
       // also after overflow: a get that was waiting still returns what woke it
       case TakeQueued => Draining(s) && s.conn.value.box.queue != []
       case EndSlow => Draining(s) && s.conn.value.box.overflow
       case Shutdown => true
       case Restart(epoch) => epoch > s.epoch
       case Receive => s.conn.Some? && s.conn.value.wire != []
       case Drop => s.conn.Some?
  }

  function Apply(p: Params, s: State, a: Action): State
    requires Enabled(p, s, a)
  {
    match a
    case Publish(payload) => Published(p, s, payload)
    case Connect => s.(conn := Some(Opened(s)))
    case YieldPending =>
      var c := s.conn.value;
      s.(conn := Some(c.(pending := c.pending[1..], wire := c.wire + [c.pending[0]])))
    case TakeQueued => s.(conn := Some(Taken(s.conn.value)))
    case EndSlow => s.(conn := Some(Ended(s.conn.value)))
    case Shutdown =>
      if s.conn.Some? && s.conn.value.open
      then s.(conn := Some(s.conn.value.(box := Closing(s.conn.value.box, p.limit))))
      else s
    case Restart(epoch) =>
      State(epoch, s.published[epoch := []], [], if s.conn.Some? then Some(Ended(s.conn.value)) else None, s.log)
    case Receive => Received(s)
    case Drop => s.(conn := None)
  }

  function Published(p: Params, s: State, payload: Payload): State
    requires s.epoch in s.published
  {
    var e := Event(s.epoch, |Current(s)| + 1, payload);
    s.(published := s.published[s.epoch := Current(s) + [payload]],
       buffer := Pushed(s.buffer, e, p.size),
       conn := if s.conn.Some? && s.conn.value.open then Some(OfferedConn(s.conn.value, e, p.limit)) else s.conn)
  }

  function OfferedConn(c: Conn, e: Event, limit: nat): Conn {
    c.(box := Offered(c.box, e, limit))
  }

  function Taken(c: Conn): Conn
    requires c.box.queue != []
  {
    var rest := c.(box := c.box.(queue := c.box.queue[1..]));
    if c.box.queue[0].Close? then Ended(c) else rest.(wire := c.wire + [Data(c.box.queue[0].event)])
  }

  function Received(s: State): State
    requires s.conn.Some? && s.conn.value.wire != []
  {
    s.(log := s.log + [s.conn.value.wire[0]], conn := Some(ReceivedConn(s.conn.value)))
  }

  function ReceivedConn(c: Conn): Conn
    requires c.wire != []
  {
    c.(wire := c.wire[1..], next := if c.wire[0].Data? then c.wire[0].event.seqNo + 1 else c.next)
  }

  predicate EnabledRun(p: Params, s: State, run: seq<Action>)
    decreases |run|
  {
    run == [] || (Enabled(p, s, run[0]) && EnabledRun(p, Apply(p, s, run[0]), run[1..]))
  }

  function Run(p: Params, s: State, run: seq<Action>): State
    requires EnabledRun(p, s, run)
    decreases |run|
  {
    if run == [] then s else Run(p, Apply(p, s, run[0]), run[1..])
  }

  ghost predicate Start(s: State) {
    s.published == map[s.epoch := []] && s.buffer == [] && s.conn.None? && s.log == []
  }

  // ----- the invariant -----

  ghost predicate Genuine(e: Event, published: map<nat, seq<Payload>>) {
    && e.epoch in published && 1 <= e.seqNo <= |published[e.epoch]|
    && e == EventAt(published[e.epoch], e.epoch, e.seqNo)
  }

  /** `e` may follow what was received: it is the successor of the last event, or a gap
      was announced and it is later. */
  predicate Follows(log: seq<Frame>, e: Event) {
    var last := LastEvent(log);
    || last.None?
    || (last.value.epoch == e.epoch && e.seqNo == last.value.seqNo + 1)
    || (GapSince(log) && Later(last.value, e))
  }

  predicate Later(a: Event, b: Event) {
    a.epoch < b.epoch || (a.epoch == b.epoch && a.seqNo < b.seqNo)
  }

  ghost predicate LogOk(log: seq<Frame>, published: map<nat, seq<Payload>>) {
    log == [] || (LogOk(log[..|log| - 1], published)
                  && var f := log[|log| - 1];
                     f.Data? ==> Genuine(f.event, published) && Follows(log[..|log| - 1], f.event))
  }

  /** The events in a queue, up to the shutdown sentinel. */
  function Messages(queue: seq<Item>): seq<Frame> {
    if queue == [] || queue[0].Close? then [] else [Data(queue[0].event)] + Messages(queue[1..])
  }

  /** Everything the consumer will receive on this connection. */
  function Upcoming(c: Conn): seq<Frame> {
    c.wire + c.pending + Messages(c.box.queue)
  }

  predicate GapAhead(u: seq<Frame>) {
    u != [] && u[0].Gap?
  }

  function Body(u: seq<Frame>): seq<Frame> {
    if GapAhead(u) then u[1..] else u
  }

  ghost predicate Consecutive(body: seq<Frame>, published: seq<Payload>, epoch: nat, next: nat) {
    && 1 <= next && next + |body| <= |published| + 1
    && forall k | 0 <= k < |body| :: body[k] == Data(EventAt(published, epoch, next + k))
  }

  predicate Linked(log: seq<Frame>, epoch: nat, next: nat, gapAhead: bool) {
    var last := LastEvent(log);
    || last.None?
    || (last.value.epoch == epoch && next == last.value.seqNo + 1)
    || ((gapAhead || GapSince(log))
        && (last.value.epoch < epoch || (last.value.epoch == epoch && last.value.seqNo < next)))
  }

  /** Subscribed and not marked: everything published reaches the queue. */
  predicate Live(c: Conn) {
    c.open && !c.box.overflow && Close !in c.box.queue
  }

  ghost predicate ConnOk(c: Conn, epoch: nat, published: map<nat, seq<Payload>>, log: seq<Frame>) {
    && c.epoch in published && (c.open ==> c.epoch == epoch)
    && Consecutive(Body(Upcoming(c)), published[c.epoch], c.epoch, c.next)
    && (Live(c) || Upcoming(c) != [] ==> Linked(log, c.epoch, c.next, GapAhead(Upcoming(c))))
    && (Live(c) ==> c.next + |Body(Upcoming(c))| == |published[c.epoch]| + 1)
  }

  ghost predicate HubOk(p: Params, epoch: nat, published: map<nat, seq<Payload>>, buffer: seq<Event>) {
    && epoch in published && (forall e | e in published :: e <= epoch)
    && Retained(buffer, epoch, published[epoch], p.size)
  }

  ghost predicate Inv(p: Params, s: State) {
    && HubOk(p, s.epoch, s.published, s.buffer)
    && LogOk(s.log, s.published)
    && (s.conn.Some? ==> ConnOk(s.conn.value, s.epoch, s.published, s.log))
  }

  // ----- every step keeps it -----

  ghost predicate Extends(before: map<nat, seq<Payload>>, after: map<nat, seq<Payload>>) {
    forall e | e in before :: e in after && before[e] <= after[e]
  }

  lemma {:induction false} LogExtends(log: seq<Frame>, before: map<nat, seq<Payload>>, after: map<nat, seq<Payload>>)
    requires LogOk(log, before) && Extends(before, after)
    ensures LogOk(log, after)
  {
    if log != [] {
      LogExtends(log[..|log| - 1], before, after);
    }
  }

  lemma {:induction false} MessagesAppend(queue: seq<Item>, item: Item)
    ensures Messages(queue + [item]) == if Close in queue || item.Close? then Messages(queue) else Messages(queue) + [Data(item.event)]
  {
    if queue != [] && queue[0].Msg? {
      MessagesAppend(queue[1..], item);
      assert (queue + [item])[1..] == queue[1..] + [item];
    }
  }

  lemma ConnOkFrom(c: Conn, u: seq<Frame>, epoch: nat, published: map<nat, seq<Payload>>, log: seq<Frame>)
    requires u == Upcoming(c) && c.epoch in published && (c.open ==> c.epoch == epoch)
    requires Consecutive(Body(u), published[c.epoch], c.epoch, c.next)
    requires Live(c) || u != [] ==> Linked(log, c.epoch, c.next, GapAhead(u))
    requires Live(c) ==> c.next + |Body(u)| == |published[c.epoch]| + 1
    ensures ConnOk(c, epoch, published, log)
  {
  }

  /** An offer reaches the consumer exactly if its connection is live and its queue has room. */
  lemma OfferedUpcoming(c: Conn, e: Event, limit: nat)
    ensures var lands := Live(c.(open := true)) && !Full(c.box.queue, limit);
            && Upcoming(OfferedConn(c, e, limit)) == (if lands then Upcoming(c) + [Data(e)] else Upcoming(c))
            && Live(OfferedConn(c, e, limit)) == (Live(c) && lands)
  {
    MessagesAppend(c.box.queue, Msg(e));
    if !c.box.overflow && !Full(c.box.queue, limit) && Close !in c.box.queue {
      assert Upcoming(OfferedConn(c, e, limit)) == c.wire + c.pending + (Messages(c.box.queue) + [Data(e)]);
    }
  }

  lemma BodyExtends(u: seq<Frame>, published: seq<Payload>, payload: Payload, epoch: nat, next: nat)
    requires Consecutive(Body(u), published, epoch, next)
    ensures var longer := published + [payload];
            && Consecutive(Body(u), longer, epoch, next)
            && (next + |Body(u)| == |longer| ==>
                  var v := u + [Data(Event(epoch, |longer|, payload))];
                  Consecutive(Body(v), longer, epoch, next) && |Body(v)| == |Body(u)| + 1 && GapAhead(v) == GapAhead(u))
  {
    var v := u + [Data(Event(epoch, |published| + 1, payload))];
    assert Body(v) == Body(u) + [Data(Event(epoch, |published| + 1, payload))];
  }

  lemma OfferKeepsConn(c: Conn, log: seq<Frame>, epoch: nat, published: map<nat, seq<Payload>>, payload: Payload, limit: nat)
    requires ConnOk(c, epoch, published, log) && epoch in published && c.open
    ensures ConnOk(OfferedConn(c, Event(epoch, |published[epoch]| + 1, payload), limit), epoch,
                   published[epoch := published[epoch] + [payload]], log)
  {
    var e, u := Event(epoch, |published[epoch]| + 1, payload), Upcoming(c);
    assert c.(open := true) == c;
    OfferedUpcoming(c, e, limit);
    BodyExtends(u, published[epoch], payload, epoch, c.next);
    var lands := Live(c) && !Full(c.box.queue, limit);
    ConnOkFrom(OfferedConn(c, e, limit), if lands then u + [Data(e)] else u, epoch,
               published[epoch := published[epoch] + [payload]], log);
  }

  lemma ClosedStays(c: Conn, log: seq<Frame>, epoch: nat, published: map<nat, seq<Payload>>, payload: Payload)
    requires ConnOk(c, epoch, published, log) && epoch in published && !c.open
    ensures ConnOk(c, epoch, published[epoch := published[epoch] + [payload]], log)
  {
  }

  lemma HubPublishes(p: Params, epoch: nat, published: map<nat, seq<Payload>>, buffer: seq<Event>, payload: Payload)
    requires HubOk(p, epoch, published, buffer)
    ensures HubOk(p, epoch, published[epoch := published[epoch] + [payload]],
                  Pushed(buffer, Event(epoch, |published[epoch]| + 1, payload), p.size))
  {
    PushKeepsNewest(buffer, epoch, published[epoch], p.size, payload);
  }

  lemma PublishExtends(published: map<nat, seq<Payload>>, epoch: nat, payload: Payload)
    requires epoch in published
    ensures Extends(published, published[epoch := published[epoch] + [payload]])
  {
  }

  lemma PublishConn(c: Conn, log: seq<Frame>, epoch: nat, published: map<nat, seq<Payload>>, payload: Payload, limit: nat)
    requires ConnOk(c, epoch, published, log) && epoch in published
    ensures var e := Event(epoch, |published[epoch]| + 1, payload);
            ConnOk(if c.open then OfferedConn(c, e, limit) else c, epoch, published[epoch := published[epoch] + [payload]], log)
  {
    if c.open {
      OfferKeepsConn(c, log, epoch, published, payload, limit);
    } else {
      ClosedStays(c, log, epoch, published, payload);
    }
  }

  lemma PublishInv(p: Params, s: State, payload: Payload)
    requires Inv(p, s)
    ensures Inv(p, Published(p, s, payload))
  {
    HubPublishes(p, s.epoch, s.published, s.buffer, payload);
    PublishExtends(s.published, s.epoch, payload);
    LogExtends(s.log, s.published, s.published[s.epoch := Current(s) + [payload]]);
    if s.conn.Some? {
      PublishConn(s.conn.value, s.log, s.epoch, s.published, payload, p.limit);
    }
  }

  lemma {:induction false} LastEventGenuine(log: seq<Frame>, published: map<nat, seq<Payload>>)
    requires LogOk(log, published) && LastEvent(log).Some?
    ensures Genuine(LastEvent(log).value, published)
  {
    if log[|log| - 1].Gap? {
      LastEventGenuine(log[..|log| - 1], published);
    }
  }

  /** What a resumption must be for the log it continues: resumed only within the epoch of
      the last event, replaying exactly what came after it. */
  ghost predicate Continues(r: Resumption, epoch: nat, published: seq<Payload>, last: Option<Event>) {
    && |r.replay| <= |published|
    && (forall k | 0 <= k < |r.replay| :: r.replay[k] == EventAt(published, epoch, |published| + 1 - |r.replay| + k))
    && (last.None? ==> r.resumable) && (!r.resumable ==> r.replay == [])
    && (last.Some? && r.resumable ==> last.value.epoch == epoch && |r.replay| == |published| - last.value.seqNo)
    && (last.Some? ==> last.value.epoch < epoch || (last.value.epoch == epoch && last.value.seqNo <= |published|))
  }

  lemma ResumeContinues(p: Params, s: State)
    requires HubOk(p, s.epoch, s.published, s.buffer) && LogOk(s.log, s.published)
    ensures Continues(Resume(s.epoch, |Current(s)|, s.buffer, LastId(s.log)), s.epoch, Current(s), LastEvent(s.log))
  {
    var last := LastEvent(s.log);
    if last.Some? {
      var e := last.value;
      LastEventGenuine(s.log, s.published);
      ParseOfEventId(e.epoch, e.seqNo);
      ResumableIffEverythingMissedIsBuffered(s.epoch, s.buffer, Current(s), p.size, EventIdOf(e.epoch, e.seqNo));
      NumeralOfDecimal(e.epoch);
      NumeralOfDecimal(s.epoch);
    }
  }

  lemma OpenedUpcoming(epoch: nat, seqNo: nat, r: Resumption)
    requires !r.resumable ==> r.replay == []
    ensures var c := OpenedWith(epoch, seqNo, r);
            var u := (if r.resumable then [] else [Gap]) + Frames(r.replay);
            Upcoming(c) == u && Body(u) == Frames(r.replay) && GapAhead(u) == !r.resumable
  {
    var c := OpenedWith(epoch, seqNo, r);
    assert Upcoming(c) == c.pending;
  }

  lemma ReplayFits(epoch: nat, published: seq<Payload>, log: seq<Frame>, r: Resumption)
    requires Continues(r, epoch, published, LastEvent(log))
    ensures |r.replay| <= |published| && (!r.resumable ==> r.replay == [])
    ensures Consecutive(Frames(r.replay), published, epoch, |published| + 1 - |r.replay|)
    ensures Linked(log, epoch, |published| + 1 - |r.replay|, !r.resumable)
  {
  }

  lemma OpenedOk(epoch: nat, published: map<nat, seq<Payload>>, log: seq<Frame>, r: Resumption)
    requires epoch in published && |r.replay| <= |published[epoch]| && (!r.resumable ==> r.replay == [])
    requires Consecutive(Frames(r.replay), published[epoch], epoch, |published[epoch]| + 1 - |r.replay|)
    requires Linked(log, epoch, |published[epoch]| + 1 - |r.replay|, !r.resumable)
    ensures ConnOk(OpenedWith(epoch, |published[epoch]|, r), epoch, published, log)
  {
    OpenedUpcoming(epoch, |published[epoch]|, r);
    var c := OpenedWith(epoch, |published[epoch]|, r);
    ConnOkFrom(c, Upcoming(c), epoch, published, log);
  }

  lemma ConnectInv(p: Params, s: State)
    requires HubOk(p, s.epoch, s.published, s.buffer) && LogOk(s.log, s.published)
    ensures ConnOk(Opened(s), s.epoch, s.published, s.log)
  {
    var r := Resume(s.epoch, |Current(s)|, s.buffer, LastId(s.log));
    ResumeContinues(p, s);
    ReplayFits(s.epoch, Current(s), s.log, r);
    OpenedOk(s.epoch, s.published, s.log, r);
  }

  lemma YieldInv(c: Conn, epoch: nat, published: map<nat, seq<Payload>>, log: seq<Frame>)
    requires ConnOk(c, epoch, published, log) && c.pending != []
    ensures ConnOk(c.(pending := c.pending[1..], wire := c.wire + [c.pending[0]]), epoch, published, log)
  {
    assert c.wire + [c.pending[0]] + c.pending[1..] == c.wire + c.pending;
    assert Upcoming(c.(pending := c.pending[1..], wire := c.wire + [c.pending[0]])) == Upcoming(c);
  }

  lemma ShutdownInv(c: Conn, epoch: nat, published: map<nat, seq<Payload>>, log: seq<Frame>, limit: nat)
    requires ConnOk(c, epoch, published, log)
    ensures ConnOk(c.(box := Closing(c.box, limit)), epoch, published, log)
  {
    MessagesAppend(c.box.queue, Close);
    assert Upcoming(c.(box := Closing(c.box, limit))) == Upcoming(c);
  }

  lemma TakenInv(c: Conn, epoch: nat, published: map<nat, seq<Payload>>, log: seq<Frame>)
    requires ConnOk(c, epoch, published, log) && c.open && c.pending == [] && c.box.queue != []
    ensures ConnOk(Taken(c), epoch, published, log)
  {
    if c.box.queue[0].Close? {
      assert Upcoming(Ended(c)) == c.wire;
      assert Upcoming(c) == c.wire;
    } else {
      assert Upcoming(Taken(c)) == Upcoming(c);
    }
  }

  lemma EndedInv(c: Conn, epoch: nat, published: map<nat, seq<Payload>>, log: seq<Frame>, epoch': nat)
    requires ConnOk(c, epoch, published, log)
    ensures ConnOk(Ended(c), epoch', published, log)
  {
    var u, w := Upcoming(c), Upcoming(Ended(c));
    assert w == c.wire && w <= u;
    if GapAhead(u) && w != [] {
      assert Body(w) <= Body(u);
    }
  }

  lemma ReceiveGap(c: Conn, epoch: nat, published: map<nat, seq<Payload>>, log: seq<Frame>)
    requires ConnOk(c, epoch, published, log) && c.wire != [] && c.wire[0].Gap?
    ensures ConnOk(ReceivedConn(c), epoch, published, log + [c.wire[0]])
  {
    var u, u' := Upcoming(c), Upcoming(ReceivedConn(c));
    assert u == [Gap] + u';
    assert Body(u) == u';
    assert !GapAhead(u') by {
      if u' != [] {
        assert u'[0] == Body(u)[0];
      }
    }
    assert (log + [Gap])[..|log|] == log;
  }

  /** Taking the first frame off a consecutive stretch. */
  lemma BodyShifts(u: seq<Frame>, published: seq<Payload>, epoch: nat, next: nat)
    requires u != [] && u[0].Data? && Consecutive(Body(u), published, epoch, next)
    ensures next <= |published| && u[0] == Data(EventAt(published, epoch, next))
    ensures !GapAhead(u[1..]) && Consecutive(u[1..], published, epoch, next + 1)
  {
    assert Body(u) == u;
    assert forall k | 0 <= k < |u[1..]| :: u[1..][k] == u[k + 1];
  }

  lemma LinkShifts(log: seq<Frame>, e: Event)
    requires Linked(log, e.epoch, e.seqNo, false)
    ensures Follows(log, e) && Linked(log + [Data(e)], e.epoch, e.seqNo + 1, false)
  {
    assert LastEvent(log + [Data(e)]) == Some(e);
  }

  lemma ReceiveData(c: Conn, epoch: nat, published: map<nat, seq<Payload>>, log: seq<Frame>)
    requires ConnOk(c, epoch, published, log) && c.wire != [] && c.wire[0].Data?
    ensures var f := c.wire[0];
            && Genuine(f.event, published) && Follows(log, f.event)
            && ConnOk(ReceivedConn(c), epoch, published, log + [c.wire[0]])
  {
    var u := Upcoming(c);
    assert u[0] == c.wire[0] && Upcoming(ReceivedConn(c)) == u[1..];
    BodyShifts(u, published[c.epoch], c.epoch, c.next);
    LinkShifts(log, c.wire[0].event);
  }

  lemma LogAppends(log: seq<Frame>, f: Frame, published: map<nat, seq<Payload>>)
    requires LogOk(log, published) && (f.Data? ==> Genuine(f.event, published) && Follows(log, f.event))
    ensures LogOk(log + [f], published)
  {
    assert (log + [f])[..|log|] == log;
  }

  lemma ReceiveInv(p: Params, s: State)
    requires Inv(p, s) && s.conn.Some? && s.conn.value.wire != []
    ensures Inv(p, Received(s))
  {
    var c, f := s.conn.value, s.conn.value.wire[0];
    if f.Gap? {
      ReceiveGap(c, s.epoch, s.published, s.log);
    } else {
      ReceiveData(c, s.epoch, s.published, s.log);
    }
    LogAppends(s.log, f, s.published);
  }

  lemma StepInv(p: Params, s: State, a: Action)
    requires Inv(p, s) && Enabled(p, s, a)
    ensures Inv(p, Apply(p, s, a))
  {
    if a.Publish? {
      PublishInv(p, s, a.payload);
    } else if a.Connect? {
      ConnectInv(p, s);
    } else if a.YieldPending? {
      YieldInv(s.conn.value, s.epoch, s.published, s.log);
    } else if a.TakeQueued? {
      TakenInv(s.conn.value, s.epoch, s.published, s.log);
    } else if a.EndSlow? {
      EndedInv(s.conn.value, s.epoch, s.published, s.log, s.epoch);
    } else if a.Shutdown? {
      if s.conn.Some? {
        ShutdownInv(s.conn.value, s.epoch, s.published, s.log, p.limit);
      }
    } else if a.Restart? {
      LogExtends(s.log, s.published, s.published[a.epoch := []]);
      if s.conn.Some? {
        EndedInv(s.conn.value, s.epoch, s.published, s.log, a.epoch);
      }
    } else if a.Receive? {
      ReceiveInv(p, s);
    }
  }

  // ----- over whole runs -----

  lemma {:induction false} RunInv(p: Params, s: State, run: seq<Action>)
    requires Inv(p, s) && EnabledRun(p, s, run)
    ensures Inv(p, Run(p, s, run))
    decreases |run|
  {
    if run != [] {
      StepInv(p, s, run[0]);
      RunInv(p, Apply(p, s, run[0]), run[1..]);
    }
  }

  lemma {:induction false} LastEventAt(log: seq<Frame>, i: nat)
    requires i < |log| && log[i].Data? && forall k | i < k < |log| :: log[k].Gap?
    ensures LastEvent(log) == Some(log[i].event)
  {
    if i < |log| - 1 {
      LastEventAt(log[..|log| - 1], i);
    }
  }

  lemma {:induction false} LogGenuine(log: seq<Frame>, published: map<nat, seq<Payload>>, i: nat)
    requires LogOk(log, published) && i < |log| && log[i].Data?
    ensures Genuine(log[i].event, published)
  {
    if i < |log| - 1 {
      LogGenuine(log[..|log| - 1], published, i);
    }
  }

  lemma {:induction false} LogConsecutive(log: seq<Frame>, published: map<nat, seq<Payload>>, i: nat, j: nat)
    requires LogOk(log, published) && j == i + 1 < |log| && log[i].Data? && log[j].Data?
    ensures log[j].event.epoch == log[i].event.epoch && log[j].event.seqNo == log[i].event.seqNo + 1
  {
    if j < |log| - 1 {
      LogConsecutive(log[..|log| - 1], published, i, j);
    } else {
      LastEventAt(log[..j], i);
    }
  }

  lemma {:induction false} LogIncreasing(log: seq<Frame>, published: map<nat, seq<Payload>>, i: nat, j: nat)
    requires LogOk(log, published) && i < j < |log| && log[i].Data? && log[j].Data?
    ensures Later(log[i].event, log[j].event)
    decreases |log|
  {
    if j < |log| - 1 {
      LogIncreasing(log[..|log| - 1], published, i, j);
    } else {
      var m := LastData(log[..j], i);
      LastEventAt(log[..j], m);
      if i < m {
        LogIncreasing(log[..j], published, i, m);
      }
    }
  }

  /** The position of the last event frame, given one. */
  lemma {:induction false} LastData(log: seq<Frame>, i: nat) returns (m: nat)
    requires i < |log| && log[i].Data?
    ensures i <= m < |log| && log[m].Data? && forall k | m < k < |log| :: log[k].Gap?
    decreases |log| - i
  {
    m := i;
    if k :| i < k < |log| && log[k].Data? {
      m := LastData(log, k);
    }
  }

  ghost predicate AllGenuine(log: seq<Frame>, published: map<nat, seq<Payload>>) {
    forall i | 0 <= i < |log| && log[i].Data? :: Genuine(log[i].event, published)
  }

  predicate NeverBack(log: seq<Frame>) {
    forall i, j | 0 <= i < j < |log| && log[i].Data? && log[j].Data? :: Later(log[i].event, log[j].event)
  }

  /** Neighbouring event frames are consecutive. */
  predicate NoSilentHole(log: seq<Frame>) {
    forall i, j | 0 <= i < j == i + 1 < |log| && log[i].Data? && log[j].Data? ::
      log[j].event.epoch == log[i].event.epoch && log[j].event.seqNo == log[i].event.seqNo + 1
  }

  /** Over every run, the event frames one consumer receives are the events published under
      their numbers, never repeat or go back, and two that arrive next to each other are
      consecutive numbers of one epoch: whatever is missing was announced by a gap frame
      standing in its place. */
  lemma StreamWithoutSilentLoss(p: Params, s: State, run: seq<Action>)
    requires Start(s) && EnabledRun(p, s, run)
    ensures AllGenuine(Run(p, s, run).log, Run(p, s, run).published)
    ensures NeverBack(Run(p, s, run).log)
    ensures NoSilentHole(Run(p, s, run).log)
  {
    RunInv(p, s, run);
    LogProperties(Run(p, s, run).log, Run(p, s, run).published);
  }

  lemma LogProperties(log: seq<Frame>, published: map<nat, seq<Payload>>)
    requires LogOk(log, published)
    ensures AllGenuine(log, published) && NeverBack(log) && NoSilentHole(log)
  {
    forall i | 0 <= i < |log| && log[i].Data?
      ensures Genuine(log[i].event, published)
    {
      LogGenuine(log, published, i);
    }
    forall i, j | 0 <= i < j < |log| && log[i].Data? && log[j].Data?
      ensures Later(log[i].event, log[j].event)
    {
      LogIncreasing(log, published, i, j);
    }
    forall i, j | 0 <= i < j == i + 1 < |log| && log[i].Data? && log[j].Data?
      ensures log[j].event.epoch == log[i].event.epoch && log[j].event.seqNo == log[i].event.seqNo + 1
    {
      LogConsecutive(log, published, i, j);
    }
  }

  // ----- a consumer without an event is told nothing -----

  /** Before its first event a consumer has received nothing, and no gap frame is on its way. */
  ghost predicate Quiet(s: State) {
    LastEvent(s.log).None? ==> s.log == [] && (s.conn.Some? ==> !GapAhead(Upcoming(s.conn.value)))
  }

  lemma QuietStep(p: Params, s: State, a: Action)
    requires Inv(p, s) && Quiet(s) && Enabled(p, s, a)
    ensures Quiet(Apply(p, s, a))
  {
    if a.Connect? {
      ResumeContinues(p, s);
      var r := Resume(s.epoch, |Current(s)|, s.buffer, LastId(s.log));
      OpenedUpcoming(s.epoch, |Current(s)|, r);
    } else if a.Receive? {
      assert Upcoming(s.conn.value)[0] == s.conn.value.wire[0];
    } else if s.conn.Some? && LastEvent(s.log).None? {
      QuietConn(p, s, a, s.conn.value);
    }
  }

  /** No other step puts a gap frame in front. */
  lemma QuietConn(p: Params, s: State, a: Action, c: Conn)
    requires Inv(p, s) && Enabled(p, s, a) && !a.Connect? && !a.Receive? && s.conn == Some(c) && !GapAhead(Upcoming(c))
    ensures Apply(p, s, a).conn.Some? ==> !GapAhead(Upcoming(Apply(p, s, a).conn.value))
  {
    if a.Publish? {
      OfferedUpcoming(c, Event(s.epoch, |Current(s)| + 1, a.payload), p.limit);
    } else if a.YieldPending? {
      assert Upcoming(c.(pending := c.pending[1..], wire := c.wire + [c.pending[0]])) == Upcoming(c);
    } else if a.TakeQueued? && c.box.queue[0].Msg? {
      assert Upcoming(Taken(c)) == Upcoming(c);
    } else if a.Shutdown? {
      MessagesAppend(c.box.queue, Close);
    } else {
      assert Upcoming(Ended(c)) == c.wire <= Upcoming(c);
    }
  }

  lemma {:induction false} QuietRun(p: Params, s: State, run: seq<Action>)
    requires Inv(p, s) && Quiet(s) && EnabledRun(p, s, run)
    ensures Quiet(Run(p, s, run))
    decreases |run|
  {
    if run != [] {
      StepInv(p, s, run[0]);
      QuietStep(p, s, run[0]);
      QuietRun(p, Apply(p, s, run[0]), run[1..]);
    }
  }

  /** A connected consumer with nothing left to receive has the newest event, or was told of
      a gap since its last one, exactly when it has received an event; otherwise it has
      received nothing at all. */
  lemma IdleConsumerIsCurrent(p: Params, s: State, run: seq<Action>)
    requires Start(s) && EnabledRun(p, s, run)
    requires var e := Run(p, s, run); e.conn.Some? && Live(e.conn.value) && Upcoming(e.conn.value) == []
    ensures var e := Run(p, s, run);
            && e.epoch in e.published
            && (|| GapSince(e.log)
                || (Current(e) != [] && LastEvent(e.log) == Some(EventAt(Current(e), e.epoch, |Current(e)|)))
                <==> LastEvent(e.log).Some?)
            && (LastEvent(e.log).None? ==> e.log == [])
  {
    RunInv(p, s, run);
    QuietRun(p, s, run);
    var e := Run(p, s, run);
    if LastEvent(e.log).Some? {
      LastEventGenuine(e.log, e.published);
    }
  }

  /** That case is real: a consumer that disconnects before its first event sends no id,
      and what was published meanwhile is neither replayed nor announced. */
  lemma NoIdMeansSilentLoss(p: Params, s: State, payload: Payload) returns (run: seq<Action>)
    requires Start(s)
    ensures EnabledRun(p, s, run) && Connect in run && Publish(payload) in run
    ensures var e := Run(p, s, run);
            && e.epoch in e.published && Current(e) == [payload]
            && e.conn.Some? && Live(e.conn.value) && Upcoming(e.conn.value) == [] && e.log == []
  {
    run := [Connect, Publish(payload), Drop, Connect];
    var s1 := Apply(p, s, run[0]);
    var s2 := Apply(p, s1, run[1]);
    var s3 := Apply(p, s2, run[2]);
    var s4 := Apply(p, s3, run[3]);
    assert run[1..] == [Publish(payload), Drop, Connect] && run[1..][1..] == [Drop, Connect];
    assert [Drop, Connect][1..] == [Connect];
    assert EnabledRun(p, s4, []) && EnabledRun(p, s3, [Connect]);
    assert EnabledRun(p, s2, [Drop, Connect]);
    assert EnabledRun(p, s1, run[1..]);
    assert Run(p, s3, [Connect]) == s4;
    assert Run(p, s2, [Drop, Connect]) == s4;
    assert Run(p, s1, run[1..]) == s4;
  }
}
