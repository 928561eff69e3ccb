/** The hub's bounded memory as values: the ring buffer, one consumer's queue, and what a
    Last-Event-ID resolves to. */
module EventBuffer {
  import opened Basics
  import opened EventIds

  datatype Payload = Payload(kind: string, data: string)

  datatype Event = Event(epoch: nat, seqNo: nat, payload: Payload)

  /** A queue entry: an event, or the sentinel that ends the stream at shutdown. */
  datatype Item = Msg(event: Event) | Close

  datatype Inbox = Inbox(queue: seq<Item>, overflow: bool)

  datatype Resumption = Resumption(replay: seq<Event>, resumable: bool)

  /** Appending to a deque of bounded length drops from the front. */
  function Pushed(buffer: seq<Event>, e: Event, size: nat): seq<Event> {
    var longer := buffer + [e];
    if |longer| > size then longer[|longer| - size..] else longer
  }

  predicate Full(queue: seq<Item>, limit: nat) {
    limit > 0 && |queue| >= limit
  }

  /** A slow consumer is marked once and gets nothing more. */
  function Offered(box: Inbox, e: Event, limit: nat): Inbox {
    if box.overflow then box
    else if Full(box.queue, limit) then box.(overflow := true)
    else box.(queue := box.queue + [Msg(e)])
  }

  function Closing(box: Inbox, limit: nat): Inbox {
    if Full(box.queue, limit) then box else box.(queue := box.queue + [Close])
  }

  function After(buffer: seq<Event>, n: nat): seq<Event> {
    if buffer == [] then []
    else (if buffer[0].seqNo > n then [buffer[0]] else []) + After(buffer[1..], n)
  }

  function Resume(epoch: nat, seqNo: nat, buffer: seq<Event>, lastId: Option<string>): Resumption {
    if lastId.None? then Resumption([], true)
    else
      var parsed := ParseEventId(lastId.value);
      if parsed.None? || parsed.value.0 != Decimal(epoch) then Resumption([], false)
      else
        var last := parsed.value.1;
        if buffer == [] then Resumption([], last >= seqNo)
        else if last + 1 < buffer[0].seqNo then Resumption([], false)
        else Resumption(After(buffer, last), true)
  }

  // ----- what the buffer holds -----

  function EventAt(published: seq<Payload>, epoch: nat, n: nat): Event
    requires 1 <= n <= |published|
  {
    Event(epoch, n, published[n - 1])
  }

  /** The buffer is the newest `size` events of the epoch. */
  ghost predicate Retained(buffer: seq<Event>, epoch: nat, published: seq<Payload>, size: nat) {
    && |buffer| == (if |published| <= size then |published| else size)
    && forall k | 0 <= k < |buffer| :: buffer[k] == EventAt(published, epoch, |published| - |buffer| + 1 + k)
  }

  lemma PushKeepsNewest(buffer: seq<Event>, epoch: nat, published: seq<Payload>, size: nat, payload: Payload)
    requires Retained(buffer, epoch, published, size)
    ensures Retained(Pushed(buffer, Event(epoch, |published| + 1, payload), size), epoch, published + [payload], size)
  {
  }

  lemma {:induction false} AfterIsSuffix(buffer: seq<Event>, first: nat, n: nat)
    requires forall k | 0 <= k < |buffer| :: buffer[k].seqNo == first + k
    ensures After(buffer, n) == buffer[if n < first then 0 else if n - first + 1 <= |buffer| then n - first + 1 else |buffer|..]
  {
    if buffer != [] {
      AfterIsSuffix(buffer[1..], first + 1, n);
    }
  }

  /** The events an identifier of this epoch has missed. */
  predicate Missed(n: nat, q: int, published: seq<Payload>) {
    n < q <= |published|
  }

  ghost predicate EverythingMissedIsBuffered(buffer: seq<Event>, epoch: nat, published: seq<Payload>, n: nat) {
    forall q | Missed(n, q, published) :: EventAt(published, epoch, q) in buffer
  }

  lemma BufferedIffOldestReaches(buffer: seq<Event>, epoch: nat, published: seq<Payload>, size: nat, n: nat)
    requires Retained(buffer, epoch, published, size)
    ensures EverythingMissedIsBuffered(buffer, epoch, published, n) <==> n >= |published| - |buffer|
  {
    var first := |published| - |buffer| + 1;
    if n + 1 < first {
      assert Missed(n, n + 1, published);
      assert EventAt(published, epoch, n + 1) !in buffer;
    } else {
      forall q | Missed(n, q, published)
        ensures EventAt(published, epoch, q) in buffer
      {
        assert buffer[q - first] == EventAt(published, epoch, q);
      }
    }
  }

  lemma AfterIsEverythingMissed(buffer: seq<Event>, epoch: nat, published: seq<Payload>, size: nat, n: nat)
    requires Retained(buffer, epoch, published, size) && n >= |published| - |buffer|
    ensures var replay := After(buffer, n);
            && |replay| == (if n <= |published| then |published| - n else 0)
            && forall k | 0 <= k < |replay| :: replay[k] == EventAt(published, epoch, n + 1 + k)
  {
    AfterIsSuffix(buffer, |published| - |buffer| + 1, n);
  }

  /** A header is resumable exactly when it names this epoch and every event after it is
      still buffered; the replay is then exactly those events, in order. */
  lemma ResumableIffEverythingMissedIsBuffered(epoch: nat, buffer: seq<Event>, published: seq<Payload>, size: nat, id: string)
    requires Retained(buffer, epoch, published, size)
    ensures var r := Resume(epoch, |published|, buffer, Some(id));
            var parsed := ParseEventId(id);
            && (r.resumable <==>
                  && parsed.Some? && parsed.value.0 == Decimal(epoch)
                  && EverythingMissedIsBuffered(buffer, epoch, published, parsed.value.1))
            && (!r.resumable ==> r.replay == [])
            && (r.resumable ==>
                  && |r.replay| == (if parsed.value.1 <= |published| then |published| - parsed.value.1 else 0)
                  && forall k | 0 <= k < |r.replay| :: r.replay[k] == EventAt(published, epoch, parsed.value.1 + 1 + k))
  {
    var parsed := ParseEventId(id);
    if parsed.Some? && parsed.value.0 == Decimal(epoch) {
      var n := parsed.value.1;
      BufferedIffOldestReaches(buffer, epoch, published, size, n);
      if n >= |published| - |buffer| {
        AfterIsEverythingMissed(buffer, epoch, published, size, n);
      }
    }
  }
}
