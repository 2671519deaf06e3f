/** From the ingest RPC through bounded queues, forwarders and workers to the event store, and from
    there to the alert dispatcher. Every goroutine action is one atomic step. */
module EventPipeline {
  import opened Model
  import opened Events
  import opened Seqs

  const QUEUE_CAPACITY := 1000
  const EVENT_CHAN_CAPACITY := 1000

  // ---- One ingestion lane ----

  /** A queue with its two goroutines: the forwarder moves events from the queue to the channel, the
      worker from the channel to the store. Either may hold one event. `processed` is the history
      of what the worker has dealt with. */
  datatype Lane = Lane(
    queue: seq<Event>,
    forwarder: Option<Event>,
    eventChan: seq<Event>,
    worker: Option<Event>,
    processed: seq<Event>)

  datatype Move = Receive | Forward | Take | Process(uid: string, now: int, storeFails: bool)

  predicate LaneReady(l: Lane, move: Move) {
    match move
    case Receive => l.forwarder.None? && l.queue != []
    case Forward => l.forwarder.Some? && |l.eventChan| < EVENT_CHAN_CAPACITY
    case Take => l.worker.None? && l.eventChan != []
    case Process(_, _, _) => l.worker.Some?
  }

  /** The worker stamps the event in place before storing it. */
  function Stamped(e: Event, uid: string, now: int): Event {
    e.(uid := uid, serverTimestamp := Some(now))
  }

  function LaneMove(l: Lane, move: Move): Lane
    requires LaneReady(l, move)
  {
    match move
    case Receive => l.(queue := l.queue[1..], forwarder := Some(l.queue[0]))
    case Forward => l.(forwarder := None, eventChan := l.eventChan + [l.forwarder.value])
    case Take => l.(eventChan := l.eventChan[1..], worker := Some(l.eventChan[0]))
    case Process(uid, now, _) => l.(worker := None, processed := l.processed + [Stamped(l.worker.value, uid, now)])
  }

  // ---- The whole system ----

  datatype Stored = Stored(event: Event, alertSent: bool)

  datatype Post = Post(uid: string, pod: PodInfo)

  /** `batch` is what the dispatcher has fetched and not yet handled. The last fields are history:
      events accepted per lane, successful posts, and failed updates of sent marks. */
  datatype System = System(
    general: Lane,
    detection: Lane,
    store: seq<Stored>,
    batch: seq<Event>,
    publishedGeneral: seq<Event>,
    publishedDetection: seq<Event>,
    posts: seq<Post>,
    failedUpdates: seq<string>)

  datatype Step =
    | Ingest(event: Event)
    | General(move: Move)
    | Detection(move: Move)
    | Fetch(found: Option<seq<Event>>)
    | Dispatch(postFails: bool, updateFails: bool)

  const EMPTY_LANE := Lane([], None, [], None, [])
  const INITIAL := System(EMPTY_LANE, EMPTY_LANE, [], [], [], [], [], [])

  predicate IsDetection(e: Event) {
    e.eventType == EVENT_TYPE_DETECTION
  }

  function StoreAfter(store: seq<Stored>, l: Lane, move: Move): seq<Stored>
    requires LaneReady(l, move)
  {
    if move.Process? && !move.storeFails
    then store + [Stored(Stamped(l.worker.value, move.uid, move.now), false)]
    else store
  }

  predicate IsUnsent(s: Stored) {
    !IsDetection(s.event) && !s.alertSent
  }

  function UnsentEvents(store: seq<Stored>): seq<Event> {
    Map((s: Stored) => s.event, Filter((s: Stored) => IsUnsent(s), store))
  }

  /** The query for events without alert promises no order. */
  predicate IsFetched(found: seq<Event>, store: seq<Stored>) {
    multiset(found) == multiset(UnsentEvents(store))
  }

  function UpdateAlertSent(store: seq<Stored>, uid: string): (r: seq<Stored>)
    ensures |r| == |store|
    ensures forall i :: 0 <= i < |store| ==> r[i].event == store[i].event
    ensures forall i :: 0 <= i < |store| ==> r[i].alertSent == (store[i].alertSent || store[i].event.uid == uid)
  {
    Map((s: Stored) => if s.event.uid == uid then s.(alertSent := true) else s, store)
  }

  predicate Alertable(e: Event) {
    e.eventType == EVENT_TYPE_VIOLATION || e.eventType == EVENT_TYPE_FALCO_ALERT
  }

  /** An alert is posted for the first target that has a pod, and for no other. */
  function AlertedPod(targets: seq<Target>): Option<PodInfo> {
    if targets == [] then None
    else if targets[0].pod.Some? then targets[0].pod
    else AlertedPod(targets[1..])
  }

  /** The dispatcher's view: the store and the two logs. */
  datatype Desk = Desk(store: seq<Stored>, posts: seq<Post>, failedUpdates: seq<string>)

  /** Handling one fetched event: post it, and if that went well - or there was no pod to post
      about - mark it. */
  function Handle(d: Desk, e: Event, postFails: bool, updateFails: bool): Desk {
    if !Alertable(e) || (AlertedPod(e.targets).Some? && postFails) then d
    else
      var posts := if AlertedPod(e.targets).Some? then d.posts + [Post(e.uid, AlertedPod(e.targets).value)] else d.posts;
      if updateFails
      then Desk(d.store, posts, d.failedUpdates + [e.uid])
      else Desk(UpdateAlertSent(d.store, e.uid), posts, d.failedUpdates)
  }

  predicate Ready(s: System, step: Step) {
    match step
    case Ingest(e) => |(if IsDetection(e) then s.detection else s.general).queue| < QUEUE_CAPACITY
    case General(move) => LaneReady(s.general, move)
    case Detection(move) => LaneReady(s.detection, move)
    case Fetch(found) => s.batch == [] && (found.Some? ==> IsFetched(found.value, s.store))
    case Dispatch(_, _) => s.batch != []
  }

  function Next(s: System, step: Step): System
    requires Ready(s, step)
  {
    match step
    case Ingest(e) =>
      if IsDetection(e)
      then s.(detection := s.detection.(queue := s.detection.queue + [e]),
              publishedDetection := s.publishedDetection + [e])
      else s.(general := s.general.(queue := s.general.queue + [e]), publishedGeneral := s.publishedGeneral + [e])
    case General(move) =>
      s.(general := LaneMove(s.general, move), store := StoreAfter(s.store, s.general, move))
    case Detection(move) =>
      s.(detection := LaneMove(s.detection, move), store := StoreAfter(s.store, s.detection, move))
    case Fetch(found) => s.(batch := if found.Some? then found.value else [])
    case Dispatch(postFails, updateFails) =>
      var d := Handle(Desk(s.store, s.posts, s.failedUpdates), s.batch[0], postFails, updateFails);
      s.(batch := s.batch[1..], store := d.store, posts := d.posts, failedUpdates := d.failedUpdates)
  }

  /** UUIDs do not repeat: a worker never stamps one that it or the other worker stamped before. */
  predicate FreshUid(s: System, step: Step) {
    (step.General? || step.Detection?) && step.move.Process? ==>
      forall e :: e in s.general.processed + s.detection.processed ==> e.uid != step.move.uid
  }

  ghost predicate RunFrom(s: System, steps: seq<Step>)
    decreases |steps|
  {
    steps == [] || (Ready(s, steps[0]) && FreshUid(s, steps[0]) && RunFrom(Next(s, steps[0]), steps[1..]))
  }

  ghost function Run(s: System, steps: seq<Step>): System
    requires RunFrom(s, steps)
    decreases |steps|
  {
    if steps == [] then s else Run(Next(s, steps[0]), steps[1..])
  }

  // ---- Invariants ----

  function Erase(e: Event): Event {
    e.(uid := "", serverTimestamp := None)
  }

  function Erasing(): Event -> Event {
    (e: Event) => Erase(e)
  }

  function Held(o: Option<Event>): seq<Event> {
    if o.Some? then [o.value] else []
  }

  /** Everything in a lane, from the first processed event to the last queued one. */
  function Contents(l: Lane): seq<Event> {
    l.processed + Held(l.worker) + l.eventChan + Held(l.forwarder) + l.queue
  }

  /** No event is lost, duplicated, altered or overtaken, and the buffers respect their bounds. */
  predicate LaneHolds(l: Lane, published: seq<Event>) {
    && Map(Erasing(), Contents(l)) == Map(Erasing(), published)
    && |l.queue| <= QUEUE_CAPACITY && |l.eventChan| <= EVENT_CHAN_CAPACITY
  }

  predicate Routed(s: System) {
    && (forall e :: e in s.publishedDetection ==> IsDetection(e))
    && (forall e :: e in s.publishedGeneral ==> !IsDetection(e))
  }

  function CountPosts(posts: seq<Post>, uid: string): nat {
    if posts == [] then 0
    else CountPosts(posts[..|posts| - 1], uid) + if posts[|posts| - 1].uid == uid then 1 else 0
  }

  function CountUids(uids: seq<string>, uid: string): nat {
    if uids == [] then 0
    else CountUids(uids[..|uids| - 1], uid) + if uids[|uids| - 1] == uid then 1 else 0
  }

  /** The books on one stored event: a post is followed by a mark or by a failed attempt to set it. */
  predicate Accounted(st: Stored, posts: seq<Post>, failedUpdates: seq<string>) {
    var uid := st.event.uid;
    if Alertable(st.event) && AlertedPod(st.event.targets).Some? then
      CountPosts(posts, uid) == CountUids(failedUpdates, uid) + if st.alertSent then 1 else 0
    else
      CountPosts(posts, uid) == 0 && (!Alertable(st.event) ==> !st.alertSent && CountUids(failedUpdates, uid) == 0)
  }

  predicate StoreHolds(s: System) {
    && (forall i :: 0 <= i < |s.store| ==> s.store[i].event in s.general.processed + s.detection.processed)
    && (forall i, j :: 0 <= i < j < |s.store| ==> s.store[i].event.uid != s.store[j].event.uid)
    && (forall i :: 0 <= i < |s.store| ==> Accounted(s.store[i], s.posts, s.failedUpdates))
  }

  /** What the dispatcher has fetched is stored and unsent, and no event is fetched twice. */
  predicate BatchHolds(s: System) {
    && (forall e :: e in s.batch ==> Stored(e, false) in s.store && !IsDetection(e))
    && (forall i, j :: 0 <= i < j < |s.batch| ==> s.batch[i].uid != s.batch[j].uid)
  }

  predicate UidStored(store: seq<Stored>, uid: string) {
    exists i :: 0 <= i < |store| && store[i].event.uid == uid
  }

  /** The logs speak of stored events only, and every post names the alerted pod of its event. */
  predicate LogsHold(s: System) {
    && (forall p :: p in s.posts ==> exists i :: 0 <= i < |s.store| && PostOf(p, s.store[i].event))
    && (forall u :: u in s.failedUpdates ==> UidStored(s.store, u))
  }

  predicate PostOf(p: Post, e: Event) {
    p.uid == e.uid && Alertable(e) && AlertedPod(e.targets) == Some(p.pod)
  }

  predicate Inv(s: System) {
    && LaneHolds(s.general, s.publishedGeneral)
    && LaneHolds(s.detection, s.publishedDetection)
    && Routed(s)
    && StoreHolds(s)
    && BatchHolds(s)
    && LogsHold(s)
  }
}
