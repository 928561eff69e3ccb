/** The in-process hub: one numbered stream, a ring buffer, and a bounded queue for every
    connected consumer, all updated in place on the event loop's thread. */
module EventHub {
  import opened Basics
  import opened EventIds
  import opened EventBuffer

  class Subscriber {
    var queue: seq<Item>
    var overflow: bool

    constructor ()
      ensures Box() == Inbox([], false)
    {
      queue, overflow := [], false;
    }

    function Box(): Inbox
      reads this
    {
      Inbox(queue, overflow)
    }

    /** asyncio's put_nowait: false stands for QueueFull. */
    method PutNowait(item: Item, limit: nat) returns (ok: bool)
      modifies this`queue
      ensures ok <==> !Full(old(queue), limit)
      ensures queue == if ok then old(queue) + [item] else old(queue)
    {
      ok := !Full(queue, limit);
      if ok {
        queue := queue + [item];
      }
    }
  }

  class Hub {
    const epoch: nat
    const bufferSize: nat
    const maxQueue: nat
    var buffer: seq<Event>
    var seqNo: nat
    var subscribers: set<Subscriber>
    /** Everything fanned out so far. */
    ghost var published: seq<Payload>

    ghost predicate Valid()
      reads this
    {
      seqNo == |published| && Retained(buffer, epoch, published, bufferSize)
    }

    constructor (epoch: nat, bufferSize: nat, maxQueue: nat)
      ensures Valid() && published == [] && subscribers == {}
      ensures this.epoch == epoch && this.bufferSize == bufferSize && this.maxQueue == maxQueue
    {
      this.epoch, this.bufferSize, this.maxQueue := epoch, bufferSize, maxQueue;
      buffer, seqNo, subscribers, published := [], 0, {}, [];
    }

    /** Numbers, buffers and offers one event; every consumer's queue is settled. */
    method Fanout(payload: Payload)
      requires Valid()
      modifies this`seqNo, this`buffer, this`published, subscribers
      ensures Valid() && published == old(published) + [payload]
      ensures var e := EventAt(published, epoch, |published|);
              && buffer == Pushed(old(buffer), e, bufferSize)
              && forall sub | sub in subscribers :: sub.Box() == Offered(old(sub.Box()), e, maxQueue)
      ensures forall sub | sub in subscribers ::
                var full := maxQueue > 0 && old(|sub.queue|) >= maxQueue;
                && sub.queue == (if old(sub.overflow) || full then old(sub.queue) else old(sub.queue) + [Msg(Event(epoch, |published|, payload))])
                && (sub.overflow <==> old(sub.overflow) || full)
    {
      seqNo := seqNo + 1;
      var e := Event(epoch, seqNo, payload);
      PushKeepsNewest(buffer, epoch, published, bufferSize, payload);
      buffer := Pushed(buffer, e, bufferSize);
      published := published + [payload];
      var left := subscribers;
      while left != {}
        invariant left <= subscribers
        invariant forall sub | sub in left :: sub.Box() == old(sub.Box())
        invariant forall sub | sub in subscribers - left :: sub.Box() == Offered(old(sub.Box()), e, maxQueue)
        modifies subscribers
        decreases left
      {
        var sub :| sub in left;
        left := left - {sub};
        if sub.overflow {
          continue;
        }
        var ok := sub.PutNowait(Msg(e), maxQueue);
        if !ok {
          sub.overflow := true;
        }
      }
    }

    /** Wakes every consumer for shutdown; a saturated one is left as it is. */
    method CloseAll()
      modifies subscribers
      ensures forall sub | sub in subscribers :: sub.Box() == Closing(old(sub.Box()), maxQueue)
      ensures forall sub | sub in subscribers ::
                && sub.queue == (if maxQueue > 0 && old(|sub.queue|) >= maxQueue then old(sub.queue) else old(sub.queue) + [Close])
                && sub.overflow == old(sub.overflow)
    {
      var left := subscribers;
      while left != {}
        invariant left <= subscribers
        invariant forall sub | sub in left :: sub.Box() == old(sub.Box())
        invariant forall sub | sub in subscribers - left :: sub.Box() == Closing(old(sub.Box()), maxQueue)
        decreases left
      {
        var sub :| sub in left;
        left := left - {sub};
        var _ := sub.PutNowait(Close, maxQueue);
      }
    }

    /** The head of a stream: the replay, whether a gap frame goes first, and a new queue
        registered before anything else can be published. */
    method Connect(lastId: Option<string>) returns (replay: seq<Event>, resumable: bool, sub: Subscriber)
      requires Valid()
      modifies this`subscribers
      ensures Valid()
      ensures Resumption(replay, resumable) == Resume(epoch, |published|, buffer, lastId)
      ensures lastId.None? ==> replay == [] && resumable
      ensures fresh(sub) && sub.Box() == Inbox([], false) && subscribers == old(subscribers) + {sub}
    {
      replay, resumable := ResumeFrom(lastId);
      sub := new Subscriber();
      subscribers := subscribers + {sub};
    }

    method ResumeFrom(lastId: Option<string>) returns (replay: seq<Event>, resumable: bool)
      requires Valid()
      ensures Resumption(replay, resumable) == Resume(epoch, |published|, buffer, lastId)
    {
      if lastId.None? {
        return [], true;
      }
      var parsed := ParseEventId(lastId.value);
      if parsed.None? {
        return [], false;
      }
      if parsed.value.0 != Decimal(epoch) {
        return [], false;
      }
      var last := parsed.value.1;
      if buffer == [] {
        return [], last >= seqNo;
      }
      if last + 1 < buffer[0].seqNo {
        return [], false;
      }
      replay, resumable := [], true;
      var i := |buffer|;
      while i > 0
        invariant 0 <= i <= |buffer|
        invariant replay == After(buffer[i..], last)
      {
        i := i - 1;
        assert buffer[i..] == [buffer[i]] + buffer[i + 1..];
        if buffer[i].seqNo > last {
          replay := [buffer[i]] + replay;
        }
      }
      assert buffer[0..] == buffer;
    }

    /** Client gone, overflow or shutdown: the queue is dropped. */
    method Disconnect(sub: Subscriber)
      modifies this`subscribers
      ensures subscribers == old(subscribers) - {sub}
    {
      subscribers := subscribers - {sub};
    }
  }
}
