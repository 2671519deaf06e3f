/** What becomes of an event that has been accepted: it is stored, and it is posted about. */
module EventDelivery {
  import opened Model
  import opened Events
  import opened Seqs
  import opened EventPipeline
  import opened PipelineProofs

  // ---- Stored events stay ----

  lemma StepKeepsStored(s: System, step: Step, i: nat)
    requires Ready(s, step) && i < |s.store|
    ensures var store := Next(s, step).store;
            i < |store| && store[i].event == s.store[i].event && (s.store[i].alertSent ==> store[i].alertSent)
  {
    if step.Dispatch? {
      HandleShape(Desk(s.store, s.posts, s.failedUpdates), s.batch[0], step.postFails, step.updateFails);
    }
  }

  lemma {:induction false} RunKeepsStored(s: System, steps: seq<Step>, i: nat)
    requires RunFrom(s, steps) && i < |s.store|
    ensures var store := Run(s, steps).store;
            i < |store| && store[i].event == s.store[i].event && (s.store[i].alertSent ==> store[i].alertSent)
    decreases |steps|
  {
    if steps != [] {
      StepKeepsStored(s, steps[0], i);
      RunKeepsStored(Next(s, steps[0]), steps[1..], i);
    }
  }

  // ---- What is processed is stored ----

  /** The event that the step's worker holds. */
  function Worked(s: System, step: Step): Option<Event>
    requires step.General? || step.Detection?
  {
    if step.General? then s.general.worker else s.detection.worker
  }

  /** An event, of either lane and of whatever type, that a worker processes while the store works is stored
      under its new UID and timestamp, with its type, targets and client timestamp as they were, and is so at
      the end of every run. One that it processes while the store fails never is. */
  lemma ProcessedIsStored(first: seq<Step>, step: Step, rest: seq<Step>, uid: string, now: int, fails: bool)
    requires RunFrom(INITIAL, first)
    requires (step.General? || step.Detection?) && step.move == Move.Process(uid, now, fails)
    requires var s := Run(INITIAL, first);
             Ready(s, step) && FreshUid(s, step) && RunFrom(Next(s, step), rest)
    ensures var s := Run(INITIAL, first);
            var store := Run(Next(s, step), rest).store;
            && Worked(s, step).Some?
            && (!fails ==>
                  exists i :: 0 <= i < |store|
                              && store[i].event.uid == uid && store[i].event.serverTimestamp == Some(now)
                              && store[i].event.eventType == Worked(s, step).value.eventType
                              && store[i].event.clientTimestamp == Worked(s, step).value.clientTimestamp
                              && store[i].event.targets == Worked(s, step).value.targets)
            && (fails ==>
                  Next(s, step).store == s.store && forall i :: 0 <= i < |store| ==> store[i].event.uid != uid)
  {
    var s := Run(INITIAL, first);
    EveryRunHolds(first);
    var next := Next(s, step);
    if fails {
      assert ProcessedUnder(next, uid) by {
        var l := if step.General? then next.general else next.detection;
        assert l.processed[|l.processed| - 1] in next.general.processed + next.detection.processed;
      }
      LostStaysLost(next, rest, uid);
    } else {
      RunKeepsStored(next, rest, |s.store|);
    }
  }

  /** Some event was processed under the UID. */
  predicate ProcessedUnder(s: System, uid: string) {
    exists e :: e in s.general.processed + s.detection.processed && e.uid == uid
  }

  lemma {:induction false} LostStaysLost(s: System, steps: seq<Step>, uid: string)
    requires RunFrom(s, steps) && ProcessedUnder(s, uid)
    requires forall i :: 0 <= i < |s.store| ==> s.store[i].event.uid != uid
    ensures forall i :: 0 <= i < |Run(s, steps).store| ==> Run(s, steps).store[i].event.uid != uid
    decreases |steps|
  {
    if steps != [] {
      var next := Next(s, steps[0]);
      var e :| e in s.general.processed + s.detection.processed && e.uid == uid;
      assert e in next.general.processed + next.detection.processed;
      if steps[0].Dispatch? {
        HandleShape(Desk(s.store, s.posts, s.failedUpdates), s.batch[0], steps[0].postFails, steps[0].updateFails);
      }
      LostStaysLost(next, steps[1..], uid);
    }
  }

  /** No processing of an event meets a failing store. */
  predicate StoreWorks(steps: seq<Step>) {
    forall step :: step in steps && (step.General? || step.Detection?) && step.move.Process? ==> !step.move.storeFails
  }

  function OfLane(ofDetection: bool): Event -> bool {
    (e: Event) => (e.eventType == "tarian-detection/detection") == ofDetection
  }

  function EventOf(): Stored -> Event {
    (st: Stored) => st.event
  }

  /** The stored events that are detections, or those that are none. */
  function EventsOf(store: seq<Stored>, ofDetection: bool): seq<Event> {
    Filter(OfLane(ofDetection), Map(EventOf(), store))
  }

  lemma EventsOfMore(store: seq<Stored>, st: Stored, ofDetection: bool)
    ensures EventsOf(store + [st], ofDetection)
            == EventsOf(store, ofDetection) + if OfLane(ofDetection)(st.event) then [st.event] else []
  {
    MapAppend(EventOf(), store, [st]);
    assert Map(EventOf(), [st]) == [st.event];
    FilterAppend(OfLane(ofDetection), Map(EventOf(), store), [st.event]);
    assert Filter(OfLane(ofDetection), [st.event][1..]) == [];
  }

  function LaneOf(s: System, ofDetection: bool): Lane {
    if ofDetection then s.detection else s.general
  }

  /** The events that a run ingested, of one kind. */
  function Ingested(steps: seq<Step>, ofDetection: bool): seq<Event> {
    if steps == [] then []
    else (if steps[0].Ingest? && OfLane(ofDetection)(steps[0].event) then [steps[0].event] else [])
         + Ingested(steps[1..], ofDetection)
  }

  lemma StepStores(s: System, step: Step, ofDetection: bool)
    requires Inv(s) && Ready(s, step)
    requires (step.General? || step.Detection?) && step.move.Process? ==> !step.move.storeFails
    requires EventsOf(s.store, ofDetection) == LaneOf(s, ofDetection).processed
    ensures EventsOf(Next(s, step).store, ofDetection) == LaneOf(Next(s, step), ofDetection).processed
  {
    if (step.General? || step.Detection?) && step.move.Process? {
      ProcessStores(s, step, ofDetection);
      ProcessLengthens(s, step, ofDetection);
    } else if step.Dispatch? {
      DispatchKeepsEvents(s, step, ofDetection);
    } else {
      QuietStep(s, step, ofDetection);
    }
  }

  lemma ProcessLengthens(s: System, step: Step, ofDetection: bool)
    requires Ready(s, step) && (step.General? || step.Detection?) && step.move.Process?
    ensures LaneOf(Next(s, step), ofDetection).processed
            == LaneOf(s, ofDetection).processed
               + if step.Detection? == ofDetection
                 then [Stamped(Worked(s, step).value, step.move.uid, step.move.now)] else []
  {
  }

  lemma QuietStep(s: System, step: Step, ofDetection: bool)
    requires Ready(s, step) && !step.Dispatch? && ((step.General? || step.Detection?) ==> !step.move.Process?)
    ensures Next(s, step).store == s.store
    ensures LaneOf(Next(s, step), ofDetection).processed == LaneOf(s, ofDetection).processed
  {
  }

  lemma ProcessStores(s: System, step: Step, ofDetection: bool)
    requires Inv(s) && Ready(s, step)
    requires (step.General? || step.Detection?) && step.move.Process? && !step.move.storeFails
    ensures EventsOf(Next(s, step).store, ofDetection)
            == EventsOf(s.store, ofDetection)
               + if step.Detection? == ofDetection
                 then [Stamped(Worked(s, step).value, step.move.uid, step.move.now)] else []
  {
    WorkerKind(s, step);
    var stamped := Stamped(Worked(s, step).value, step.move.uid, step.move.now);
    assert Next(s, step).store == s.store + [Stored(stamped, false)];
    EventsOfMore(s.store, Stored(stamped, false), ofDetection);
  }

  lemma DispatchKeepsEvents(s: System, step: Step, ofDetection: bool)
    requires Ready(s, step) && step.Dispatch?
    ensures EventsOf(Next(s, step).store, ofDetection) == EventsOf(s.store, ofDetection)
    ensures LaneOf(Next(s, step), ofDetection) == LaneOf(s, ofDetection)
  {
    HandleShape(Desk(s.store, s.posts, s.failedUpdates), s.batch[0], step.postFails, step.updateFails);
    assert Map(EventOf(), Next(s, step).store) == Map(EventOf(), s.store);
  }

  /** A worker holds an event of its lane's kind. */
  lemma WorkerKind(s: System, step: Step)
    requires Inv(s) && (step.General? || step.Detection?) && Worked(s, step).Some?
    ensures OfLane(step.Detection?)(Worked(s, step).value)
  {
    var l := if step.General? then s.general else s.detection;
    ContentsArePublished(s.general, s.publishedGeneral);
    ContentsArePublished(s.detection, s.publishedDetection);
    assert l.worker.value in Held(l.worker) && l.worker.value in Contents(l);
    var origin :| origin in (if step.General? then s.publishedGeneral else s.publishedDetection)
                  && Erase(origin) == Erase(l.worker.value);
    assert origin.eventType == Erase(origin).eventType == l.worker.value.eventType;
  }

  lemma {:induction false} RunStores(s: System, steps: seq<Step>, ofDetection: bool)
    requires Inv(s) && RunFrom(s, steps) && StoreWorks(steps)
    requires EventsOf(s.store, ofDetection) == LaneOf(s, ofDetection).processed
    ensures EventsOf(Run(s, steps).store, ofDetection) == LaneOf(Run(s, steps), ofDetection).processed
    decreases |steps|
  {
    if steps != [] {
      assert steps[0] in steps;
      StepStores(s, steps[0], ofDetection);
      StepKeepsInv(s, steps[0]);
      RunStores(Next(s, steps[0]), steps[1..], ofDetection);
    }
  }

  function Published(s: System, ofDetection: bool): seq<Event> {
    if ofDetection then s.publishedDetection else s.publishedGeneral
  }

  lemma {:induction false} RunPublishes(s: System, steps: seq<Step>, ofDetection: bool)
    requires RunFrom(s, steps)
    ensures Published(Run(s, steps), ofDetection) == Published(s, ofDetection) + Ingested(steps, ofDetection)
    decreases |steps|
  {
    if steps != [] {
      var next := Next(s, steps[0]);
      RunPublishes(next, steps[1..], ofDetection);
      Associate(Published(s, ofDetection),
                if steps[0].Ingest? && OfLane(ofDetection)(steps[0].event) then [steps[0].event] else [],
                Ingested(steps[1..], ofDetection));
    }
  }

  /** From the ingest RPC to the store, in every interleaving: as long as the store works, the stored events
      of a kind, in the order of storing, followed by what its lane still holds, are the ingested events of that
      kind, one by one with type, targets and client timestamp. */
  lemma IngestedIsStored(steps: seq<Step>, ofDetection: bool)
    requires RunFrom(INITIAL, steps) && StoreWorks(steps)
    ensures var s := Run(INITIAL, steps);
            var l := LaneOf(s, ofDetection);
            AreSame(EventsOf(s.store, ofDetection) + Held(l.worker) + l.eventChan + Held(l.forwarder) + l.queue,
                    Ingested(steps, ofDetection))
  {
    InitialStores(steps, ofDetection);
    InitialPublishes(steps, ofDetection);
    EveryRunHolds(steps);
    LaneMatches(Run(INITIAL, steps), ofDetection);
  }

  lemma InitialStores(steps: seq<Step>, ofDetection: bool)
    requires RunFrom(INITIAL, steps) && StoreWorks(steps)
    ensures EventsOf(Run(INITIAL, steps).store, ofDetection) == LaneOf(Run(INITIAL, steps), ofDetection).processed
  {
    assert Map(EventOf(), []) == [];
    RunStores(INITIAL, steps, ofDetection);
  }

  lemma InitialPublishes(steps: seq<Step>, ofDetection: bool)
    requires RunFrom(INITIAL, steps)
    ensures Published(Run(INITIAL, steps), ofDetection) == Ingested(steps, ofDetection)
  {
    RunPublishes(INITIAL, steps, ofDetection);
  }

  lemma LaneMatches(s: System, ofDetection: bool)
    requires Inv(s)
    ensures AreSame(Contents(LaneOf(s, ofDetection)), Published(s, ofDetection))
  {
    ErasedAreSame(Contents(LaneOf(s, ofDetection)), Published(s, ofDetection));
  }

  // ---- What is stored is posted ----

  /** Alerts are posted for two types of events. */
  predicate IsAlert(e: Event) {
    e.eventType == "violation" || e.eventType == "falco_alert"
  }

  /** What dispatching does about the first event of a batch, a violation or a Falco alert. If some target has
      a pod and the post fails, nothing. Otherwise it is posted about the first pod there is, if any, and, unless
      the update fails, marked as sent. */
  lemma FetchedIsPosted(steps: seq<Step>, postFails: bool, updateFails: bool) returns (i: nat)
    requires RunFrom(INITIAL, steps) && Run(INITIAL, steps).batch != [] && IsAlert(Run(INITIAL, steps).batch[0])
    ensures var targets := Run(INITIAL, steps).batch[0].targets;
            && i <= |targets| && (forall k :: 0 <= k < i ==> targets[k].pod.None?)
            && (i < |targets| ==> targets[i].pod.Some?)
    ensures var s := Run(INITIAL, steps);
            var next, e := Next(s, Dispatch(postFails, updateFails)), s.batch[0];
            && Stored(e, false) in s.store
            && (if i < |e.targets| && postFails then next.posts == s.posts && next.store == s.store
                else
                  && next.posts == s.posts + (if i < |e.targets| then [Post(e.uid, e.targets[i].pod.value)] else [])
                  && (if updateFails then next.store == s.store else Stored(e, true) in next.store))
  {
    EveryRunHolds(steps);
    var s := Run(INITIAL, steps);
    var e := s.batch[0];
    i := AlertedPodMeaning(e.targets);
    assert e in s.batch;
    HandleMarks(Desk(s.store, s.posts, s.failedUpdates), e, postFails, updateFails);
  }

  lemma HandleMarks(d: Desk, e: Event, postFails: bool, updateFails: bool)
    requires IsAlert(e) && Stored(e, false) in d.store
    ensures var d', about := Handle(d, e, postFails, updateFails), AlertedPod(e.targets);
            if about.Some? && postFails then d'.posts == d.posts && d'.store == d.store
            else
              && d'.posts == d.posts + (if about.Some? then [Post(e.uid, about.value)] else [])
              && (if updateFails then d'.store == d.store else Stored(e, true) in d'.store)
  {
    var k :| 0 <= k < |d.store| && d.store[k] == Stored(e, false);
    assert UpdateAlertSent(d.store, e.uid)[k] == Stored(e, true);
  }

  /** No post and no update fails. */
  predicate DispatchWorks(steps: seq<Step>) {
    forall step :: step in steps && step.Dispatch? ==> step == Dispatch(false, false)
  }

  predicate SentOrFetched(s: System, i: nat) {
    i < |s.store| && (s.store[i].alertSent || s.store[i].event in s.batch)
  }

  lemma StepSends(s: System, step: Step, i: nat)
    requires Ready(s, step) && (step.Dispatch? ==> step == Dispatch(false, false))
    requires SentOrFetched(s, i) && IsAlert(s.store[i].event)
    ensures SentOrFetched(Next(s, step), i) && Next(s, step).store[i].event == s.store[i].event
  {
    StepKeepsStored(s, step, i);
    if step.Dispatch? && s.store[i].event != s.batch[0] {
      assert s.batch == [s.batch[0]] + s.batch[1..];
    }
  }

  lemma {:induction false} RunSends(s: System, steps: seq<Step>, i: nat)
    requires RunFrom(s, steps) && DispatchWorks(steps)
    requires SentOrFetched(s, i) && IsAlert(s.store[i].event)
    ensures SentOrFetched(Run(s, steps), i)
    decreases |steps|
  {
    if steps != [] {
      assert steps[0] in steps;
      StepSends(s, steps[0], i);
      RunSends(Next(s, steps[0]), steps[1..], i);
    }
  }

  /** A round of the dispatcher, among whatever steps of the others: after a fetch, and once what was fetched
      has been handled without failures, every violation and Falco alert that was stored before the fetch is
      marked as sent, and has been posted about if some target has a pod. */
  lemma RoundLeavesNoneUnsent(first: seq<Step>, found: seq<Event>, round: seq<Step>, i: nat)
    requires RunFrom(INITIAL, first)
    requires var s := Run(INITIAL, first);
             && Ready(s, Fetch(Some(found))) && RunFrom(Next(s, Fetch(Some(found))), round) && DispatchWorks(round)
             && Run(Next(s, Fetch(Some(found))), round).batch == []
             && i < |s.store| && IsAlert(s.store[i].event)
    ensures var s := Run(INITIAL, first);
            var end := Run(Next(s, Fetch(Some(found))), round);
            && i < |end.store| && end.store[i] == Stored(s.store[i].event, true)
            && ((exists t :: t in s.store[i].event.targets && t.pod.Some?) ==>
                  exists p :: p in end.posts && p.uid == s.store[i].event.uid)
  {
    EveryRunHolds(first);
    var s := Run(INITIAL, first);
    StepKeepsInv(s, Fetch(Some(found)));
    FetchCovers(s, found, i);
    var fetched := Next(s, Fetch(Some(found)));
    RoundSends(fetched, round, i);
    if exists t :: t in s.store[i].event.targets && t.pod.Some? {
      SentIsPosted(fetched, round, i);
    }
  }

  lemma FetchCovers(s: System, found: seq<Event>, i: nat)
    requires Inv(s) && Ready(s, Fetch(Some(found))) && i < |s.store| && IsAlert(s.store[i].event)
    ensures SentOrFetched(Next(s, Fetch(Some(found))), i)
  {
    FetchedMeaning(found, s.store);
    assert s.store[i].alertSent || s.store[i] == Stored(s.store[i].event, false);
  }

  lemma RoundSends(s: System, round: seq<Step>, i: nat)
    requires RunFrom(s, round) && DispatchWorks(round) && SentOrFetched(s, i) && IsAlert(s.store[i].event)
    requires Run(s, round).batch == []
    ensures i < |Run(s, round).store| && Run(s, round).store[i] == Stored(s.store[i].event, true)
  {
    RunSends(s, round, i);
    RunKeepsStored(s, round, i);
  }

  lemma SentIsPosted(s: System, steps: seq<Step>, i: nat)
    requires Inv(s) && RunFrom(s, steps)
    requires var end := Run(s, steps);
             && i < |end.store| && end.store[i].alertSent && IsAlert(end.store[i].event)
             && exists t :: t in end.store[i].event.targets && t.pod.Some?
    ensures var end := Run(s, steps); exists p :: p in end.posts && p.uid == end.store[i].event.uid
  {
    RunKeepsInv(s, steps);
    var end := Run(s, steps);
    var first := AlertedPodMeaning(end.store[i].event.targets);
    assert Accounted(end.store[i], end.posts, end.failedUpdates);
    PostCounted(end.posts, end.store[i].event.uid);
  }

  predicate UnsentAndHandled(s: System, e: Event) {
    Stored(e, false) in s.store && forall b :: b in s.batch ==> b.uid != e.uid
  }

  lemma {:induction false} StaysUnsent(s: System, steps: seq<Step>, e: Event)
    requires Inv(s) && RunFrom(s, steps) && UnsentAndHandled(s, e)
    requires forall step :: step in steps ==> !step.Fetch?
    ensures Inv(Run(s, steps)) && UnsentAndHandled(Run(s, steps), e)
    decreases |steps|
  {
    if steps != [] {
      var step := steps[0];
      assert step in steps;
      var i :| 0 <= i < |s.store| && s.store[i] == Stored(e, false);
      StepKeepsInv(s, step);
      StepKeepsStored(s, step, i);
      if step.Dispatch? {
        HandleShape(Desk(s.store, s.posts, s.failedUpdates), s.batch[0], step.postFails, step.updateFails);
      }
      assert Next(s, step).store[i] == Stored(e, false);
      StaysUnsent(Next(s, step), steps[1..], e);
    }
  }

  /** A failed post is not forgotten: whatever else happens until then, the next fetch yields the event again. */
  lemma FailedPostIsFetchedAgain(first: seq<Step>, updateFails: bool, rest: seq<Step>, found: seq<Event>)
    requires RunFrom(INITIAL, first)
    requires var s := Run(INITIAL, first);
             && s.batch != [] && (exists t :: t in s.batch[0].targets && t.pod.Some?)
             && RunFrom(Next(s, Dispatch(true, updateFails)), rest)
             && (forall step :: step in rest ==> !step.Fetch?)
             && Ready(Run(Next(s, Dispatch(true, updateFails)), rest), Fetch(Some(found)))
    ensures Run(INITIAL, first).batch[0] in found
  {
    EveryRunHolds(first);
    var s := Run(INITIAL, first);
    var next := Next(s, Dispatch(true, updateFails));
    FailedStaysUnsent(s, updateFails);
    StaysUnsent(next, rest, s.batch[0]);
    FetchedMeaning(found, Run(next, rest).store);
  }

  lemma FailedStaysUnsent(s: System, updateFails: bool)
    requires Inv(s) && s.batch != [] && exists t :: t in s.batch[0].targets && t.pod.Some?
    ensures var next := Next(s, Dispatch(true, updateFails));
            Inv(next) && UnsentAndHandled(next, s.batch[0])
  {
    var e, next := s.batch[0], Next(s, Dispatch(true, updateFails));
    var i := AlertedPodMeaning(e.targets);
    StepKeepsInv(s, Dispatch(true, updateFails));
    assert next.store == s.store && e in s.batch;
    forall b | b in next.batch ensures b.uid != e.uid {
      var j :| 0 <= j < |next.batch| && next.batch[j] == b;
      assert s.batch[j + 1] == b;
    }
  }
}
