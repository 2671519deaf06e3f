/** The objects behind the event pipeline: queues, the ingest RPC, the consuming loops, the store
    and the alert dispatcher. Each method is tied to the step of the state machine it performs. */
module Ingestion {
  import opened Model
  import opened Events
  import opened EventPipeline

  /** A buffered Go channel. An operation that would block reports so and changes nothing. */
  class ChannelQueue {
    var messages: seq<Event>

    constructor ()
      ensures messages == []
    {
      messages := [];
    }

    method Publish(message: Event) returns (sent: bool)
      modifies this
      ensures sent == (|old(messages)| < 1000)
      ensures messages == if sent then old(messages) + [message] else old(messages)
    {
      sent := |messages| < QUEUE_CAPACITY;
      if sent {
        messages := messages + [message];
      }
    }

    method NextMessage() returns (message: Option<Event>)
      modifies this
      ensures message == if old(messages) == [] then None else Some(old(messages)[0])
      ensures messages == if old(messages) == [] then [] else old(messages)[1..]
    {
      if messages == [] {
        return None;
      }
      message := Some(messages[0]);
      messages := messages[1..];
    }
  }

  datatype IngestReply = Success | InvalidArgument | Blocked

  class EventServer {
    const ingestionQueue: ChannelQueue
    const ingestionQueueForEventDetection: ChannelQueue

    constructor ()
      ensures fresh(ingestionQueue) && fresh(ingestionQueueForEventDetection)
      ensures ingestionQueue != ingestionQueueForEventDetection
      ensures ingestionQueue.messages == ingestionQueueForEventDetection.messages == []
    {
      ingestionQueue := new ChannelQueue();
      ingestionQueueForEventDetection := new ChannelQueue();
    }

    /** An accepted event joins exactly one queue: the detection queue exactly for detections. */
    method IngestEvent(request: Option<Event>) returns (reply: IngestReply)
      requires ingestionQueue != ingestionQueueForEventDetection
      modifies ingestionQueue, ingestionQueueForEventDetection
      ensures reply.InvalidArgument? <==> request.None?
      ensures request.Some? ==>
                var detects := request.value.eventType == "tarian-detection/detection";
                && (reply.Success? <==>
                      |old(if detects then ingestionQueueForEventDetection.messages else ingestionQueue.messages)| < 1000)
                && ingestionQueue.messages == old(ingestionQueue.messages)
                     + (if reply.Success? && !detects then [request.value] else [])
                && ingestionQueueForEventDetection.messages == old(ingestionQueueForEventDetection.messages)
                     + if reply.Success? && detects then [request.value] else []
      ensures request.None? ==> unchanged(ingestionQueue) && unchanged(ingestionQueueForEventDetection)
    {
      if request.None? {
        return InvalidArgument;
      }
      var sent;
      if request.value.eventType == EVENT_TYPE_DETECTION {
        sent := ingestionQueueForEventDetection.Publish(request.value);
      } else {
        sent := ingestionQueue.Publish(request.value);
      }
      reply := if sent then Success else Blocked;
    }
  }

  /** The event store; whether a call fails is an input. */
  class EventStore {
    var stored: seq<Stored>

    constructor ()
      ensures stored == []
    {
      stored := [];
    }

    method Add(e: Event, fails: bool) returns (err: bool)
      modifies this
      ensures err == fails && stored == if fails then old(stored) else old(stored) + [Stored(e, false)]
    {
      if !fails {
        stored := stored + [Stored(e, false)];
      }
      return fails;
    }

    /** The unsent events in some order, which the caller cannot rely on. */
    method FindWhereAlertNotSent(fails: bool) returns (events: seq<Event>)
      ensures if fails then events == [] else IsFetched(events, stored)
    {
      events := if fails then [] else UnsentEvents(stored);
    }

    method UpdateAlertSent(uid: string, fails: bool) returns (err: bool)
      modifies this
      ensures err == fails && stored == if fails then old(stored) else EventPipeline.UpdateAlertSent(old(stored), uid)
    {
      if !fails {
        stored := EventPipeline.UpdateAlertSent(stored, uid);
      }
      return fails;
    }
  }

  /** The two goroutines that consume one queue. A step that would block is refused. */
  class ConsumeLoop {
    const queue: ChannelQueue
    const store: EventStore
    var forwarder: Option<Event>
    var eventChan: seq<Event>
    var worker: Option<Event>
    ghost var processed: seq<Event>

    constructor (queue: ChannelQueue, store: EventStore)
      ensures this.queue == queue && this.store == store
      ensures View() == EMPTY_LANE.(queue := queue.messages)
    {
      this.queue, this.store := queue, store;
      forwarder, eventChan, worker, processed := None, [], None, [];
    }

    ghost function View(): Lane
      reads this, queue
    {
      Lane(queue.messages, forwarder, eventChan, worker, processed)
    }

    method ReceiveStep() returns (moved: bool)
      modifies this`forwarder, queue
      ensures moved == LaneReady(old(View()), Receive)
      ensures View() == if moved then LaneMove(old(View()), Receive) else old(View())
    {
      if forwarder.Some? {
        return false;
      }
      var message := queue.NextMessage();
      forwarder := message;
      moved := message.Some?;
    }

    method ForwardStep() returns (moved: bool)
      modifies this`forwarder, this`eventChan
      ensures moved == LaneReady(old(View()), Forward)
      ensures moved <==> old(forwarder).Some? && |old(eventChan)| < 1000
      ensures View() == if moved then LaneMove(old(View()), Forward) else old(View())
    {
      moved := forwarder.Some? && |eventChan| < EVENT_CHAN_CAPACITY;
      if moved {
        eventChan := eventChan + [forwarder.value];
        forwarder := None;
      }
    }

    method TakeStep() returns (moved: bool)
      modifies this`worker, this`eventChan
      ensures moved == LaneReady(old(View()), Take)
      ensures View() == if moved then LaneMove(old(View()), Take) else old(View())
    {
      moved := worker.None? && eventChan != [];
      if moved {
        worker := Some(eventChan[0]);
        eventChan := eventChan[1..];
      }
    }

    method ProcessEvent(uid: string, now: int, storeFails: bool) returns (moved: bool)
      modifies this`worker, this`processed, store
      ensures moved == LaneReady(old(View()), Move.Process(uid, now, storeFails))
      ensures View() == if moved then LaneMove(old(View()), Move.Process(uid, now, storeFails)) else old(View())
      ensures store.stored == if moved then StoreAfter(old(store.stored), old(View()), Move.Process(uid, now, storeFails))
                              else old(store.stored)
    {
      if worker.None? {
        return false;
      }
      var event := worker.value;
      event := event.(serverTimestamp := Some(now));
      event := event.(uid := uid);
      var _ := store.Add(event, storeFails);
      processed := processed + [event];
      worker := None;
      moved := true;
    }
  }

  /** Handling a batch in order; the n-th call to Alertmanager and the n-th update may fail. */
  function HandleAll(d: Desk, batch: seq<Event>, n: nat, postFails: nat -> bool, updateFails: nat -> bool): Desk
    decreases |batch|
  {
    if batch == [] then d
    else HandleAll(Handle(d, batch[0], postFails(n), updateFails(n)), batch[1..], n + 1, postFails, updateFails)
  }

  ghost function Dispatches(n: nat, count: nat, postFails: nat -> bool, updateFails: nat -> bool): seq<Step> {
    seq(count, i requires 0 <= i => Dispatch(postFails(n + i), updateFails(n + i)))
  }

  /** One round of the dispatcher is a run of the state machine. */
  lemma {:induction false} RoundIsRun(s: System, n: nat, postFails: nat -> bool, updateFails: nat -> bool)
    ensures var steps := Dispatches(n, |s.batch|, postFails, updateFails);
            && RunFrom(s, steps)
            && var d := HandleAll(Desk(s.store, s.posts, s.failedUpdates), s.batch, n, postFails, updateFails);
               Run(s, steps) == s.(batch := [], store := d.store, posts := d.posts, failedUpdates := d.failedUpdates)
    decreases |s.batch|
  {
    var steps := Dispatches(n, |s.batch|, postFails, updateFails);
    if s.batch != [] {
      var next := Next(s, Dispatch(postFails(n), updateFails(n)));
      RoundIsRun(next, n + 1, postFails, updateFails);
      assert steps[0] == Dispatch(postFails(n), updateFails(n));
      assert steps[1..] == Dispatches(n + 1, |next.batch|, postFails, updateFails);
    }
  }

  class AlertDispatcher {
    var posts: seq<Post>
    ghost var failedUpdates: seq<string>

    constructor ()
      ensures posts == [] && failedUpdates == []
    {
      posts, failedUpdates := [], [];
    }

    ghost function Books(es: EventStore): Desk
      reads this, es
    {
      Desk(es.stored, posts, failedUpdates)
    }

    /** One round of the loop: fetch, then post and mark one event after the other. */
    method SendAlerts(es: EventStore, fetchFails: bool, postFails: nat -> bool, updateFails: nat -> bool)
      returns (ghost fetched: seq<Event>)
      modifies this, es
      ensures if fetchFails then fetched == [] else IsFetched(fetched, old(es.stored))
      ensures Books(es) == HandleAll(old(Books(es)), fetched, 0, postFails, updateFails)
    {
      var events := es.FindWhereAlertNotSent(fetchFails);
      fetched := events;
      assert events[0..] == events;
      var i := 0;
      while i < |events|
        invariant 0 <= i <= |events|
        invariant HandleAll(Books(es), events[i..], i, postFails, updateFails)
                  == HandleAll(old(Books(es)), events, 0, postFails, updateFails)
      {
        assert events[i..][1..] == events[i + 1..];
        HandleEvent(es, events[i], postFails(i), updateFails(i));
        i := i + 1;
      }
    }

    /** Posts and marks one fetched event. */
    method HandleEvent(es: EventStore, event: Event, postFails: bool, updateFails: bool)
      modifies this, es
      ensures Books(es) == Handle(old(Books(es)), event, postFails, updateFails)
    {
      if event.eventType == EVENT_TYPE_VIOLATION || event.eventType == EVENT_TYPE_FALCO_ALERT {
        var err := SendAlert(event, postFails);
        if !err {
          err := es.UpdateAlertSent(event.uid, updateFails);
          if err {
            failedUpdates := failedUpdates + [event.uid];
          }
        }
      }
    }

    /** Posts an alert about the first target with a pod; no such target is no error. */
    method SendAlert(event: Event, postFails: bool) returns (err: bool)
      modifies this`posts
      ensures err == (AlertedPod(event.targets).Some? && postFails)
      ensures posts == old(posts) + if AlertedPod(event.targets).Some? && !postFails
                                    then [Post(event.uid, AlertedPod(event.targets).value)] else []
    {
      assert event.targets[0..] == event.targets;
      for i := 0 to |event.targets|
        invariant AlertedPod(event.targets[i..]) == AlertedPod(event.targets)
        invariant posts == old(posts)
      {
        assert event.targets[i..][1..] == event.targets[i + 1..];
        if event.targets[i].pod.None? {
          continue;
        }
        if !postFails {
          posts := posts + [Post(event.uid, event.targets[i].pod.value)];
        }
        return postFails;
      }
      return false;
    }
  }
}
