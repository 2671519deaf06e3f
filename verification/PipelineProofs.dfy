/** What every interleaving of the event pipeline keeps. */
module PipelineProofs {
  import opened Model
  import opened Events
  import opened Seqs
  import opened EventPipeline

  // ---- Lanes ----

  lemma Regroup<T>(a: seq<T>, x: T, b: seq<T>)
    ensures a + [x] + b == a + ([x] + b)
    ensures a + [] + b == a + b
  {
  }

  lemma ReceiveOrForward(l: Lane, move: Move)
    requires LaneReady(l, move) && (move.Receive? || move.Forward?)
    ensures Contents(LaneMove(l, move)) == Contents(l)
  {
    var done := l.processed + Held(l.worker);
    if move.Receive? {
      assert l.queue == [l.queue[0]] + l.queue[1..];
      Regroup(done + l.eventChan, l.queue[0], l.queue[1..]);
      Regroup(done + l.eventChan, l.queue[0], l.queue);
    } else {
      Regroup(done + l.eventChan, l.forwarder.value, l.queue);
      assert done + (l.eventChan + [l.forwarder.value]) == done + l.eventChan + [l.forwarder.value];
      Regroup(done + (l.eventChan + [l.forwarder.value]), l.forwarder.value, l.queue);
    }
  }

  lemma TakeKeeps(l: Lane)
    requires LaneReady(l, Take)
    ensures Contents(LaneMove(l, Take)) == Contents(l)
  {
    var first, rest := l.eventChan[0], l.eventChan[1..];
    assert l.eventChan == [first] + rest;
    Regroup(l.processed, first, rest);
    Regroup(l.processed, first, l.eventChan);
  }

  /** Moving an event along changes nothing about the lane's contents; processing only stamps it. */
  lemma MoveKeepsContents(l: Lane, move: Move)
    requires LaneReady(l, move)
    ensures Map(Erasing(), Contents(LaneMove(l, move))) == Map(Erasing(), Contents(l))
  {
    match move {
      case Take => TakeKeeps(l);
      case Process(uid, now, storeFails) => ProcessKeeps(l, uid, now, storeFails);
      case _ => ReceiveOrForward(l, move);
    }
  }

  lemma ProcessKeeps(l: Lane, uid: string, now: int, storeFails: bool)
    requires LaneReady(l, Process(uid, now, storeFails))
    ensures Map(Erasing(), Contents(LaneMove(l, Process(uid, now, storeFails)))) == Map(Erasing(), Contents(l))
  {
    var l' := LaneMove(l, Process(uid, now, storeFails));
    var rest := l.eventChan + Held(l.forwarder) + l.queue;
    var stamped := Stamped(l.worker.value, uid, now);
    StampIsErased(l.processed, l.worker.value, uid, now, rest);
    AssociateFour(l.processed + [l.worker.value], l.eventChan, Held(l.forwarder), l.queue);
    assert l'.processed + Held(l'.worker) == l.processed + [stamped];
    AssociateFour(l.processed + [stamped], l.eventChan, Held(l.forwarder), l.queue);
  }

  lemma AssociateFour<T>(a: seq<T>, b: seq<T>, c: seq<T>, d: seq<T>)
    ensures a + b + c + d == a + (b + c + d)
  {
  }

  lemma StampIsErased(before: seq<Event>, e: Event, uid: string, now: int, after: seq<Event>)
    ensures Map(Erasing(), before + [Stamped(e, uid, now)] + after) == Map(Erasing(), before + [e] + after)
  {
    var stamped := Stamped(e, uid, now);
    assert Erasing()(stamped) == Erasing()(e);
  }

  lemma LaneKept(l: Lane, move: Move, published: seq<Event>)
    requires LaneReady(l, move) && LaneHolds(l, published)
    ensures LaneHolds(LaneMove(l, move), published)
  {
    MoveKeepsContents(l, move);
  }

  lemma IngestKept(l: Lane, published: seq<Event>, e: Event)
    requires LaneHolds(l, published) && |l.queue| < QUEUE_CAPACITY
    ensures LaneHolds(l.(queue := l.queue + [e]), published + [e])
  {
    assert Contents(l.(queue := l.queue + [e])) == Contents(l) + [e];
    MapAppend(Erasing(), Contents(l), [e]);
    MapAppend(Erasing(), published, [e]);
  }

  // ---- Counting ----

  lemma {:induction false} NoPosts(posts: seq<Post>, uid: string)
    requires forall p :: p in posts ==> p.uid != uid
    ensures CountPosts(posts, uid) == 0
  {
    if posts != [] {
      assert posts[|posts| - 1] in posts;
      NoPosts(posts[..|posts| - 1], uid);
    }
  }

  lemma {:induction false} NoUids(uids: seq<string>, uid: string)
    requires uid !in uids
    ensures CountUids(uids, uid) == 0
  {
    if uids != [] {
      assert uids[|uids| - 1] in uids;
      NoUids(uids[..|uids| - 1], uid);
    }
  }

  lemma CountPostsSnoc(posts: seq<Post>, p: Post, uid: string)
    ensures CountPosts(posts + [p], uid) == CountPosts(posts, uid) + if p.uid == uid then 1 else 0
  {
    assert (posts + [p])[..|posts|] == posts;
  }

  lemma CountUidsSnoc(uids: seq<string>, u: string, uid: string)
    ensures CountUids(uids + [u], uid) == CountUids(uids, uid) + if u == uid then 1 else 0
  {
    assert (uids + [u])[..|uids|] == uids;
  }

  // ---- Storing a stamped event ----

  lemma StoringKept(s: System, s': System, l: Lane, move: Move)
    requires LaneReady(l, move) && StoreHolds(s) && BatchHolds(s) && LogsHold(s)
    requires s'.store == StoreAfter(s.store, l, move)
    requires s'.batch == s.batch && s'.posts == s.posts && s'.failedUpdates == s.failedUpdates
    requires forall e :: e in s.general.processed + s.detection.processed ==>
               e in s'.general.processed + s'.detection.processed
    requires move.Process? ==>
               && Stamped(l.worker.value, move.uid, move.now) in s'.general.processed + s'.detection.processed
               && forall e :: e in s.general.processed + s.detection.processed ==> e.uid != move.uid
    ensures StoreHolds(s') && BatchHolds(s') && LogsHold(s')
  {
    if move.Process? && !move.storeFails {
      var st := Stored(Stamped(l.worker.value, move.uid, move.now), false);
      assert s'.store == s.store + [st];
      forall i | 0 <= i < |s.store| ensures s.store[i].event.uid != move.uid {}
      forall p | p in s.posts ensures p.uid != move.uid {}
      NoPosts(s.posts, move.uid);
      NoUids(s.failedUpdates, move.uid);
      assert Accounted(st, s.posts, s.failedUpdates);
      forall p | p in s'.posts ensures exists i :: 0 <= i < |s'.store| && PostOf(p, s'.store[i].event) {
        var i :| 0 <= i < |s.store| && PostOf(p, s.store[i].event);
        assert PostOf(p, s'.store[i].event);
      }
      forall u | u in s'.failedUpdates ensures UidStored(s'.store, u) {
        var i :| 0 <= i < |s.store| && s.store[i].event.uid == u;
        assert s'.store[i].event.uid == u;
      }
    }
  }

  // ---- The dispatcher ----

  lemma UnsentSplits(store: seq<Stored>)
    requires store != []
    ensures UnsentEvents(store)
            == (if IsUnsent(store[0]) then [store[0].event] else []) + UnsentEvents(store[1..])
  {
    MapAppend((s: Stored) => s.event, if IsUnsent(store[0]) then [store[0]] else [],
              Filter((s: Stored) => IsUnsent(s), store[1..]));
  }

  lemma {:induction false} UnsentAreDistinct(store: seq<Stored>)
    requires forall i, j :: 0 <= i < j < |store| ==> store[i].event.uid != store[j].event.uid
    ensures var found := UnsentEvents(store);
            && (forall e :: e in found <==> Stored(e, false) in store && !IsDetection(e))
            && (forall i, j :: 0 <= i < j < |found| ==> found[i].uid != found[j].uid)
  {
    if store != [] {
      var rest := store[1..];
      UnsentAreDistinct(rest);
      assert store == [store[0]] + rest;
      var found := UnsentEvents(rest);
      var e := store[0].event;
      forall k | 0 <= k < |found| ensures found[k].uid != e.uid {
        assert found[k] in found;
        var i :| 0 <= i < |rest| && rest[i] == Stored(found[k], false);
        assert store[i + 1] == rest[i];
      }
      UnsentSplits(store);
    }
  }

  /** In any order, a fetch yields exactly the stored, unmarked events other than detections, each once. */
  lemma FetchedMeaning(found: seq<Event>, store: seq<Stored>)
    requires forall i, j :: 0 <= i < j < |store| ==> store[i].event.uid != store[j].event.uid
    requires IsFetched(found, store)
    ensures forall e :: e in found <==> Stored(e, false) in store && e.eventType != "tarian-detection/detection"
    ensures forall i, j :: 0 <= i < j < |found| ==> found[i].uid != found[j].uid
  {
    var listed := UnsentEvents(store);
    UnsentAreDistinct(store);
    forall e ensures e in found <==> e in listed {
      assert e in multiset(found) <==> e in multiset(listed);
    }
    forall i, j | 0 <= i < j < |found| ensures found[i].uid != found[j].uid {
      if found[i].uid == found[j].uid {
        assert found[i] in found && found[j] in found;
        assert found[i] == found[j];
        TwiceInMultiset(found, i, j);
        OnceInMultiset(listed, found[i]);
      }
    }
  }

  lemma TwiceInMultiset<T>(s: seq<T>, i: nat, j: nat)
    requires i < j < |s| && s[i] == s[j]
    ensures multiset(s)[s[i]] >= 2
  {
    assert s == s[..j] + s[j..];
    assert s[..j][i] in multiset(s[..j]) && s[j..][0] in multiset(s[j..]);
  }

  lemma {:induction false} OnceInMultiset<T>(s: seq<T>, x: T)
    requires forall i, j :: 0 <= i < j < |s| ==> s[i] != s[j]
    ensures multiset(s)[x] <= 1
  {
    if s != [] {
      assert s == [s[0]] + s[1..];
      OnceInMultiset(s[1..], x);
      if s[0] == x {
        assert x !in s[1..];
      }
    }
  }

  /** Handling the event at one place of the store keeps the books of every stored event. */
  lemma HandleKeepsAccounts(d: Desk, k: nat, postFails: bool, updateFails: bool, i: nat)
    requires k < |d.store| && i < |d.store| && !d.store[k].alertSent
    requires i != k ==> d.store[i].event.uid != d.store[k].event.uid
    requires Accounted(d.store[i], d.posts, d.failedUpdates)
    ensures var d' := Handle(d, d.store[k].event, postFails, updateFails);
            |d'.store| == |d.store| && Accounted(d'.store[i], d'.posts, d'.failedUpdates)
  {
    var e := d.store[k].event;
    if AlertedPod(e.targets).Some? {
      CountPostsSnoc(d.posts, Post(e.uid, AlertedPod(e.targets).value), d.store[i].event.uid);
    }
    CountUidsSnoc(d.failedUpdates, e.uid, d.store[i].event.uid);
  }

  /** Handling marks at most the event handled. */
  lemma HandleShape(d: Desk, e: Event, postFails: bool, updateFails: bool)
    ensures var d' := Handle(d, e, postFails, updateFails);
            && |d'.store| == |d.store|
            && (forall i :: 0 <= i < |d.store| ==>
                  d'.store[i].event == d.store[i].event
                  && (d.store[i].event.uid != e.uid ==> d'.store[i] == d.store[i]))
            && (d'.posts == d.posts
                || (Alertable(e) && AlertedPod(e.targets).Some?
                    && d'.posts == d.posts + [Post(e.uid, AlertedPod(e.targets).value)]))
            && (d'.failedUpdates == d.failedUpdates || d'.failedUpdates == d.failedUpdates + [e.uid])
  {
  }

  lemma DispatchKept(s: System, postFails: bool, updateFails: bool)
    requires s.batch != [] && StoreHolds(s) && BatchHolds(s) && LogsHold(s)
    ensures var s' := Next(s, Dispatch(postFails, updateFails));
            StoreHolds(s') && BatchHolds(s') && LogsHold(s')
  {
    var e := s.batch[0];
    assert Stored(e, false) in s.store;
    var k :| 0 <= k < |s.store| && s.store[k] == Stored(e, false);
    var d := Desk(s.store, s.posts, s.failedUpdates);
    var s' := Next(s, Dispatch(postFails, updateFails));
    HandleShape(d, e, postFails, updateFails);
    forall i | 0 <= i < |s'.store| ensures Accounted(s'.store[i], s'.posts, s'.failedUpdates) {
      HandleKeepsAccounts(d, k, postFails, updateFails, i);
    }
    DispatchBatch(s, postFails, updateFails);
    DispatchLogs(s, postFails, updateFails, k);
  }

  lemma DispatchBatch(s: System, postFails: bool, updateFails: bool)
    requires s.batch != [] && BatchHolds(s)
    ensures BatchHolds(Next(s, Dispatch(postFails, updateFails)))
  {
    var e := s.batch[0];
    var s' := Next(s, Dispatch(postFails, updateFails));
    HandleShape(Desk(s.store, s.posts, s.failedUpdates), e, postFails, updateFails);
    forall later | later in s'.batch ensures Stored(later, false) in s'.store && !IsDetection(later) {
      var j :| 0 <= j < |s'.batch| && s'.batch[j] == later;
      assert s.batch[j + 1] == later && later in s.batch;
      var i :| 0 <= i < |s.store| && s.store[i] == Stored(later, false);
      assert s'.store[i] == s.store[i];
    }
  }

  lemma DispatchLogs(s: System, postFails: bool, updateFails: bool, k: nat)
    requires s.batch != [] && LogsHold(s)
    requires k < |s.store| && s.store[k] == Stored(s.batch[0], false)
    ensures LogsHold(Next(s, Dispatch(postFails, updateFails)))
  {
    var e := s.batch[0];
    var s' := Next(s, Dispatch(postFails, updateFails));
    HandleShape(Desk(s.store, s.posts, s.failedUpdates), e, postFails, updateFails);
    forall p | p in s'.posts ensures exists i :: 0 <= i < |s'.store| && PostOf(p, s'.store[i].event) {
      if p in s.posts {
        var i :| 0 <= i < |s.store| && PostOf(p, s.store[i].event);
        assert PostOf(p, s'.store[i].event);
      } else {
        assert PostOf(p, s'.store[k].event);
      }
    }
    forall u | u in s'.failedUpdates ensures UidStored(s'.store, u) {
      if u in s.failedUpdates {
        var i :| 0 <= i < |s.store| && s.store[i].event.uid == u;
        assert s'.store[i].event.uid == u;
      } else {
        assert s'.store[k].event.uid == u;
      }
    }
  }

  // ---- Every run ----

  lemma StepKeepsInv(s: System, step: Step)
    requires Inv(s) && Ready(s, step) && FreshUid(s, step)
    ensures Inv(Next(s, step))
  {
    match step {
      case Ingest(e) =>
        if IsDetection(e) {
          IngestKept(s.detection, s.publishedDetection, e);
        } else {
          IngestKept(s.general, s.publishedGeneral, e);
        }
      case General(move) =>
        LaneKept(s.general, move, s.publishedGeneral);
        StoringKept(s, Next(s, step), s.general, move);
      case Detection(move) =>
        LaneKept(s.detection, move, s.publishedDetection);
        StoringKept(s, Next(s, step), s.detection, move);
      case Fetch(found) =>
        if found.Some? {
          FetchedMeaning(found.value, s.store);
        }
      case Dispatch(postFails, updateFails) => DispatchKept(s, postFails, updateFails);
    }
  }

  lemma {:induction false} RunKeepsInv(s: System, steps: seq<Step>)
    requires Inv(s) && RunFrom(s, steps)
    ensures Inv(Run(s, steps))
    decreases |steps|
  {
    if steps != [] {
      StepKeepsInv(s, steps[0]);
      RunKeepsInv(Next(s, steps[0]), steps[1..]);
    }
  }

  lemma EveryRunHolds(steps: seq<Step>)
    requires RunFrom(INITIAL, steps)
    ensures Inv(Run(INITIAL, steps))
  {
    RunKeepsInv(INITIAL, steps);
  }

  // ---- Main results ----

  /** The same events one by one, as far as reported: UIDs and server timestamps may differ. */
  predicate AreSame(one: seq<Event>, other: seq<Event>) {
    && |one| == |other|
    && forall i :: 0 <= i < |one| ==>
         && one[i].eventType == other[i].eventType && one[i].targets == other[i].targets
         && one[i].clientTimestamp == other[i].clientTimestamp
  }

  lemma ErasedAreSame(one: seq<Event>, other: seq<Event>)
    requires Map(Erasing(), one) == Map(Erasing(), other)
    ensures AreSame(one, other)
  {
    assert |Map(Erasing(), one)| == |one| && |Map(Erasing(), other)| == |other|;
    forall i | 0 <= i < |one|
      ensures one[i].eventType == other[i].eventType && one[i].targets == other[i].targets
      ensures one[i].clientTimestamp == other[i].clientTimestamp
    {
      assert Map(Erasing(), one)[i] == Map(Erasing(), other)[i];
      SameErased(one[i], other[i]);
    }
  }

  lemma SameErased(one: Event, other: Event)
    requires Erase(one) == Erase(other)
    ensures one.eventType == other.eventType && one.targets == other.targets
    ensures one.clientTimestamp == other.clientTimestamp
  {
    assert one.eventType == Erase(one).eventType && one.targets == Erase(one).targets;
    assert one.clientTimestamp == Erase(one).clientTimestamp;
  }

  /** Conservation and order, for both lanes and in every interleaving: apart from the stamps, what
      was processed, followed by what the worker, the channel, the forwarder and the queue hold, is
      the sequence of events accepted for that lane; the buffers keep their bounds; detection
      events travel their own lane and no other event does. */
  lemma NothingLostOrReordered(steps: seq<Step>)
    requires RunFrom(INITIAL, steps)
    ensures var s := Run(INITIAL, steps);
            && AreSame(Contents(s.general), s.publishedGeneral)
            && AreSame(Contents(s.detection), s.publishedDetection)
            && |s.general.queue| <= 1000 && |s.general.eventChan| <= 1000
            && |s.detection.queue| <= 1000 && |s.detection.eventChan| <= 1000
            && (forall e :: e in Contents(s.detection) ==> e.eventType == "tarian-detection/detection")
            && (forall e :: e in Contents(s.general) ==> e.eventType != "tarian-detection/detection")
  {
    EveryRunHolds(steps);
    var s := Run(INITIAL, steps);
    ErasedAreSame(Contents(s.general), s.publishedGeneral);
    ErasedAreSame(Contents(s.detection), s.publishedDetection);
    ContentsArePublished(s.general, s.publishedGeneral);
    ContentsArePublished(s.detection, s.publishedDetection);
  }

  /** Whatever a lane holds was accepted for it, up to the stamps. */
  lemma ContentsArePublished(l: Lane, published: seq<Event>)
    requires LaneHolds(l, published)
    ensures forall e :: e in Contents(l) ==> exists origin :: origin in published && Erase(origin) == Erase(e)
  {
    forall e | e in Contents(l) ensures exists origin :: origin in published && Erase(origin) == Erase(e) {
      var i :| 0 <= i < |Contents(l)| && Contents(l)[i] == e;
      assert Map(Erasing(), Contents(l))[i] == Map(Erasing(), published)[i];
      assert published[i] in published && Erase(published[i]) == Erase(e);
    }
  }

  /** The pod alerted about is that of the first target that has one. */
  lemma {:induction false} AlertedPodMeaning(targets: seq<Target>) returns (i: nat)
    ensures i <= |targets| && forall k :: 0 <= k < i ==> targets[k].pod.None?
    ensures i < |targets| ==> targets[i].pod.Some? && AlertedPod(targets) == targets[i].pod
    ensures i == |targets| ==> AlertedPod(targets).None?
    ensures AlertedPod(targets).Some? <==> exists t :: t in targets && t.pod.Some?
  {
    if targets == [] || targets[0].pod.Some? {
      i := 0;
    } else {
      var k := AlertedPodMeaning(targets[1..]);
      i := k + 1;
      assert targets == [targets[0]] + targets[1..];
    }
  }

  /** Alert accounting, in every interleaving: for a stored violation or Falco alert about a pod,
      successful posts equal failed updates of the sent mark, plus one if it is marked as sent; one
      without a pod is never posted; events of other types are neither posted nor marked. */
  lemma AlertsAccounted(steps: seq<Step>, i: nat)
    requires RunFrom(INITIAL, steps) && i < |Run(INITIAL, steps).store|
    ensures var s := Run(INITIAL, steps);
            var st := s.store[i];
            var posts := CountPosts(s.posts, st.event.uid);
            if st.event.eventType != "violation" && st.event.eventType != "falco_alert" then posts == 0 && !st.alertSent
            else if !exists t :: t in st.event.targets && t.pod.Some? then posts == 0
            else posts == CountUids(s.failedUpdates, st.event.uid) + if st.alertSent then 1 else 0
  {
    EveryRunHolds(steps);
    var first := AlertedPodMeaning(Run(INITIAL, steps).store[i].event.targets);
  }

  /** A stored event keeps the content it was accepted with, whichever lane it took. */
  lemma StoredWasPublished(steps: seq<Step>, i: nat)
    requires RunFrom(INITIAL, steps) && i < |Run(INITIAL, steps).store|
    ensures var s := Run(INITIAL, steps);
            var e := s.store[i].event;
            exists origin ::
              && origin in (if e.eventType == "tarian-detection/detection" then s.publishedDetection
                            else s.publishedGeneral)
              && Erase(origin) == Erase(e) && origin.targets == e.targets && origin.clientTimestamp == e.clientTimestamp
  {
    EveryRunHolds(steps);
    var s := Run(INITIAL, steps);
    var e := s.store[i].event;
    ContentsArePublished(s.general, s.publishedGeneral);
    ContentsArePublished(s.detection, s.publishedDetection);
    assert e in Contents(if e in s.general.processed then s.general else s.detection);
    var origin :| origin in (if e in s.general.processed then s.publishedGeneral else s.publishedDetection)
                  && Erase(origin) == Erase(e);
    SameErased(origin, e);
  }

  /** Every successful post goes back to an event accepted on the general queue, a violation or a
      Falco alert, and names the pod of its first target that has one. */
  lemma PostsAreJustified(steps: seq<Step>, p: Post) returns (origin: Event, i: nat)
    requires RunFrom(INITIAL, steps) && p in Run(INITIAL, steps).posts
    ensures origin in Run(INITIAL, steps).publishedGeneral
    ensures origin.eventType == "violation" || origin.eventType == "falco_alert"
    ensures i < |origin.targets| && origin.targets[i].pod == Some(p.pod)
    ensures forall k :: 0 <= k < i ==> origin.targets[k].pod.None?
  {
    EveryRunHolds(steps);
    var s := Run(INITIAL, steps);
    var n :| 0 <= n < |s.store| && PostOf(p, s.store[n].event);
    var e := s.store[n].event;
    StoredWasPublished(steps, n);
    origin :| origin in s.publishedGeneral && Erase(origin) == Erase(e);
    assert origin.targets == Erase(origin).targets && origin.eventType == Erase(origin).eventType;
    i := AlertedPodMeaning(origin.targets);
  }

  lemma {:induction false} PostCounted(posts: seq<Post>, uid: string)
    ensures CountPosts(posts, uid) > 0 <==> exists p :: p in posts && p.uid == uid
  {
    if posts != [] {
      var n := |posts| - 1;
      PostCounted(posts[..n], uid);
      assert posts == posts[..n] + [posts[n]];
    }
  }

  /** What a sent mark means for the pods of an event: every pod among its targets has been posted about
      exactly if they are all the same one. */
  lemma EveryPodAlertedExactly(steps: seq<Step>, i: nat)
    requires RunFrom(INITIAL, steps) && i < |Run(INITIAL, steps).store|
    requires var st := Run(INITIAL, steps).store[i];
             st.alertSent && (st.event.eventType == "violation" || st.event.eventType == "falco_alert")
    ensures var s := Run(INITIAL, steps);
            var e := s.store[i].event;
            (forall t :: t in e.targets && t.pod.Some? ==> Post(e.uid, t.pod.value) in s.posts)
            <==> (forall t, u :: t in e.targets && u in e.targets && t.pod.Some? && u.pod.Some? ==> t.pod == u.pod)
  {
    EveryRunHolds(steps);
    var s := Run(INITIAL, steps);
    var e := s.store[i].event;
    var first := AlertedPodMeaning(e.targets);
    forall p | p in s.posts && p.uid == e.uid ensures AlertedPod(e.targets) == Some(p.pod) {
      var k :| 0 <= k < |s.store| && PostOf(p, s.store[k].event);
      assert k == i;
    }
    PostCounted(s.posts, e.uid);
    if AlertedPod(e.targets).Some? {
      assert Accounted(s.store[i], s.posts, s.failedUpdates);
      var p :| p in s.posts && p.uid == e.uid;
      assert p == Post(e.uid, AlertedPod(e.targets).value);
    }
  }

  /** A violation without a pod goes through the pipeline and is marked as sent though nothing was
      posted. */
  lemma PodlessEventIsMarked(e: Event, uid: string, now: int, postFails: bool)
    requires e.eventType == EVENT_TYPE_VIOLATION && AlertedPod(e.targets).None?
    ensures var stamped := Stamped(e, uid, now);
            var steps := [Ingest(e), General(Receive), General(Forward), General(Take),
                          General(Move.Process(uid, now, false)), Fetch(Some([stamped])), Dispatch(postFails, false)];
            && RunFrom(INITIAL, steps)
            && Run(INITIAL, steps).store == [Stored(stamped, true)] && Run(INITIAL, steps).posts == []
  {
    var stamped, process := Stamped(e, uid, now), General(Move.Process(uid, now, false));
    var fetch, dispatch := Fetch(Some([stamped])), Dispatch(postFails, false);
    var stored := PassedThrough(e, uid, now);
    var fetched := stored.(batch := [stamped]);
    var marked := stored.(store := [Stored(stamped, true)]);
    UnsentAlone(stored.store[0]);
    assert [stamped][1..] == [];
    assert UpdateAlertSent(stored.store, uid) == marked.store;
    assert [dispatch] == [dispatch] + [] && [fetch, dispatch] == [fetch] + [dispatch];
    RunBefore(fetched, dispatch, [], marked);
    RunBefore(stored, fetch, [dispatch], fetched);
    PassesThrough(e, uid, now, [fetch, dispatch]);
    assert [Ingest(e), General(Receive), General(Forward), General(Take), process] + [fetch, dispatch]
           == [Ingest(e), General(Receive), General(Forward), General(Take), process, fetch, dispatch];
  }

  /** The system after one general event has been ingested, moved along and stored. */
  function PassedThrough(e: Event, uid: string, now: int): System {
    INITIAL.(general := EMPTY_LANE.(processed := [Stamped(e, uid, now)]), publishedGeneral := [e],
             store := [Stored(Stamped(e, uid, now), false)])
  }

  lemma PassesThrough(e: Event, uid: string, now: int, rest: seq<Step>)
    requires !IsDetection(e) && RunFrom(PassedThrough(e, uid, now), rest)
    ensures var steps := [Ingest(e), General(Receive), General(Forward), General(Take),
                          General(Move.Process(uid, now, false))] + rest;
            RunFrom(INITIAL, steps) && Run(INITIAL, steps) == Run(PassedThrough(e, uid, now), rest)
  {
    var process := General(Move.Process(uid, now, false));
    var s1 := INITIAL.(general := EMPTY_LANE.(queue := [e]), publishedGeneral := [e]);
    var s2 := s1.(general := EMPTY_LANE.(forwarder := Some(e)));
    var s3 := s1.(general := EMPTY_LANE.(eventChan := [e]));
    var s4 := s1.(general := EMPTY_LANE.(worker := Some(e)));
    var r4 := [process] + rest;
    var r3 := [General(Take)] + r4;
    var r2 := [General(Forward)] + r3;
    var r1 := [General(Receive)] + r2;
    assert [] + [e] == [e] && [e][1..] == [];
    RunBefore(s4, process, rest, PassedThrough(e, uid, now));
    RunBefore(s3, General(Take), r4, s4);
    RunBefore(s2, General(Forward), r3, s3);
    RunBefore(s1, General(Receive), r2, s2);
    RunBefore(INITIAL, Ingest(e), r1, s1);
    assert [Ingest(e)] + r1 == [Ingest(e), General(Receive), General(Forward), General(Take), process] + rest;
  }

  lemma UnsentAlone(st: Stored)
    requires IsUnsent(st)
    ensures UnsentEvents([st]) == [st.event]
  {
    assert st in [st];
    assert Filter((s: Stored) => IsUnsent(s), [st][1..]) == [];
  }

  lemma RunBefore(s: System, step: Step, rest: seq<Step>, next: System)
    requires Ready(s, step) && FreshUid(s, step) && Next(s, step) == next && RunFrom(next, rest)
    ensures RunFrom(s, [step] + rest) && Run(s, [step] + rest) == Run(next, rest)
  {
    assert ([step] + rest)[1..] == rest;
  }

  // ---- Progress ----

  /** How many moves are left until everything in the lane is processed. */
  function Remaining(l: Lane): nat {
    4 * |l.queue| + 3 * |Held(l.forwarder)| + 2 * |l.eventChan| + |Held(l.worker)|
  }

  /** While a lane holds an unprocessed event some move is possible, whatever the buffers hold. */
  lemma LaneNeverStuck(l: Lane)
    ensures Remaining(l) == 0 <==> Contents(l) == l.processed
    ensures Remaining(l) > 0 ==>
              LaneReady(l, Receive) || LaneReady(l, Forward) || LaneReady(l, Take)
              || forall uid, now, fails :: LaneReady(l, Move.Process(uid, now, fails))
  {
    assert |Contents(l)| == |l.processed| + |Held(l.worker)| + |l.eventChan| + |Held(l.forwarder)| + |l.queue|;
    if Remaining(l) == 0 {
      assert Contents(l) == l.processed;
    }
  }

  lemma MoveDrains(l: Lane, move: Move)
    requires LaneReady(l, move)
    ensures Remaining(LaneMove(l, move)) == Remaining(l) - 1
  {
  }

  ghost predicate Moving(l: Lane, moves: seq<Move>)
    decreases |moves|
  {
    moves == [] || (LaneReady(l, moves[0]) && Moving(LaneMove(l, moves[0]), moves[1..]))
  }

  ghost function After(l: Lane, moves: seq<Move>): Lane
    requires Moving(l, moves)
    decreases |moves|
  {
    if moves == [] then l else After(LaneMove(l, moves[0]), moves[1..])
  }

  /** Any schedule of a lane's goroutines drains it: without new events it can take exactly
      `Remaining` moves, and then every event has been processed, in the order of acceptance. */
  lemma {:induction false} EveryScheduleDrains(l: Lane, moves: seq<Move>, published: seq<Event>)
    requires Moving(l, moves) && LaneHolds(l, published)
    ensures |moves| <= Remaining(l) && Remaining(After(l, moves)) == Remaining(l) - |moves|
    ensures |moves| == Remaining(l) ==> AreSame(After(l, moves).processed, published)
    decreases |moves|
  {
    if moves == [] {
      LaneNeverStuck(l);
      ErasedAreSame(Contents(l), published);
    } else {
      LaneKept(l, moves[0], published);
      MoveDrains(l, moves[0]);
      EveryScheduleDrains(LaneMove(l, moves[0]), moves[1..], published);
    }
  }
}
