/** The cluster agent's action handler: queued events meet the current actions and a cluster whose
    pods come and go. */
module ActionHandler {
  import opened Model
  import opened Events

  const EVENTS_CHAN_CAPACITY := 4096
  const DELETE_POD := "delete-pod"

  datatype Action = Action(
    namespace: string,
    name: string,
    matchLabels: seq<Label>,
    onViolatedProcess: bool,
    onViolatedFile: bool,
    onFalcoAlert: bool,
    falcoPriority: int,
    action: string)

  datatype PodKey = PodKey(namespace: string, name: string)

  /** Why a pod was deleted: the event, the target and the action, and when that pod was created. */
  datatype Deletion = Deletion(event: Event, target: Target, action: Action, created: int)

  /** The pods by namespace and name with their creation times, the number of API calls made, and
      the handler's deletions, each of which it reports as a pod-deleted event. */
  datatype Cluster = Cluster(pods: map<PodKey, int>, calls: nat, deletions: seq<Deletion>)

  /** A missing timestamp counts as time zero. */
  function AsTime(t: Option<int>): int {
    if t.Some? then t.value else 0
  }

  function KeyOf(pod: PodInfo): PodKey {
    PodKey(pod.namespace, pod.name)
  }

  predicate Triggered(action: Action, target: Target) {
    || (action.onViolatedProcess && target.violatedProcesses != [])
    || (action.onViolatedFile && target.violatedFiles != [])
    || (action.onFalcoAlert && target.falcoAlert.Some? && target.falcoAlert.value.priority <= action.falcoPriority)
  }

  predicate ActionMatchesPod(action: Action, pod: PodInfo) {
    && action.namespace == pod.namespace
    && (action.matchLabels == [] || LabelTexts(action.matchLabels) <= LabelTexts(pod.labels))
  }

  /** One action against one target: look the pod up, and delete it if the event is younger. */
  function TryAction(
    down: nat -> bool, hasClient: bool, c: Cluster, event: Event, target: Target, action: Action): Cluster
    requires target.pod.Some?
  {
    var key := KeyOf(target.pod.value);
    if !Triggered(action, target) || !ActionMatchesPod(action, target.pod.value) || !hasClient then c
    else if down(c.calls) || key !in c.pods || AsTime(event.clientTimestamp) <= c.pods[key]
         || action.action != DELETE_POD then
      c.(calls := c.calls + 1)
    else if down(c.calls + 1) then
      c.(calls := c.calls + 2)
    else
      Cluster(c.pods - {key}, c.calls + 2, c.deletions + [Deletion(event, target, action, c.pods[key])])
  }

  function TryActions(
    down: nat -> bool, hasClient: bool, c: Cluster, event: Event, target: Target, actions: seq<Action>): Cluster
    requires target.pod.Some?
    decreases |actions|
  {
    if actions == [] then c
    else TryActions(down, hasClient, TryAction(down, hasClient, c, event, target, actions[0]), event, target, actions[1..])
  }

  function ProcessTargets(
    down: nat -> bool, hasClient: bool, c: Cluster, event: Event, targets: seq<Target>, actions: seq<Action>): Cluster
    decreases |targets|
  {
    if targets == [] then c
    else
      var after := if targets[0].pod.None? then c else TryActions(down, hasClient, c, event, targets[0], actions);
      ProcessTargets(down, hasClient, after, event, targets[1..], actions)
  }

  // ---- Processing one event, undisturbed ----

  /** The event is younger than the pod, some target of it names the pod, and some action asks for its
      deletion. */
  predicate Doomed(event: Event, targets: seq<Target>, actions: seq<Action>, key: PodKey, created: int) {
    && (if event.clientTimestamp.Some? then event.clientTimestamp.value else 0) > created
    && exists t, a :: t in targets && a in actions && Condemns(t, a, key)
  }

  /** The target names the pod and fulfils a trigger of the action, and the action is to delete pods of that
      namespace whose labels include its selector. */
  predicate Condemns(target: Target, action: Action, key: PodKey) {
    && target.pod.Some? && target.pod.value.namespace == key.namespace && target.pod.value.name == key.name
    && (|| (action.onViolatedProcess && target.violatedProcesses != [])
        || (action.onViolatedFile && target.violatedFiles != [])
        || (action.onFalcoAlert && target.falcoAlert.Some? && target.falcoAlert.value.priority <= action.falcoPriority))
    && action.namespace == key.namespace && action.action == "delete-pod"
    && forall l :: l in action.matchLabels ==>
         exists m :: m in target.pod.value.labels && m.key + "=" + m.value == l.key + "=" + l.value
  }

  /** What one action does about one target, without API errors. */
  lemma TryActionMeaning(down: nat -> bool, c: Cluster, event: Event, target: Target, action: Action, key: PodKey)
    requires (forall n :: !down(n)) && target.pod.Some?
    ensures var after := TryAction(down, true, c, event, target, action);
            && (key in after.pods <==>
                  key in c.pods && !(AsTime(event.clientTimestamp) > c.pods[key] && Condemns(target, action, key)))
            && (key in after.pods ==> after.pods[key] == c.pods[key])
  {
    TextsWithin(action.matchLabels, target.pod.value.labels);
  }

  lemma {:induction false} TryActionsMeaning(
    down: nat -> bool, c: Cluster, event: Event, target: Target, actions: seq<Action>)
    requires (forall n :: !down(n)) && target.pod.Some?
    ensures var after := TryActions(down, true, c, event, target, actions);
            after.pods == map key | key in c.pods && !Doomed(event, [target], actions, key, c.pods[key]) :: c.pods[key]
    decreases |actions|
  {
    if actions != [] {
      var next := TryAction(down, true, c, event, target, actions[0]);
      TryActionsMeaning(down, next, event, target, actions[1..]);
      forall key
        ensures key in next.pods <==>
                  && key in c.pods
                  && !(AsTime(event.clientTimestamp) > c.pods[key] && Condemns(target, actions[0], key))
        ensures key in next.pods ==> next.pods[key] == c.pods[key]
      {
        TryActionMeaning(down, c, event, target, actions[0], key);
      }
      assert actions == [actions[0]] + actions[1..];
      assert target in [target];
      forall key | key in c.pods
        ensures Doomed(event, [target], actions, key, c.pods[key]) <==>
                  || (AsTime(event.clientTimestamp) > c.pods[key] && Condemns(target, actions[0], key))
                  || Doomed(event, [target], actions[1..], key, c.pods[key])
      {
        assert forall t, a :: t in [target] && a in actions && Condemns(t, a, key) ==> a == actions[0] || a in actions[1..];
      }
      assert next.pods == map key | key in c.pods
        && !(AsTime(event.clientTimestamp) > c.pods[key] && Condemns(target, actions[0], key)) :: c.pods[key];
    }
  }

  /** Soundness and completeness: without API errors, processing an event deletes exactly the pods
      older than the event that some target names and some current action condemns - whatever the
      order and repetition of targets and actions. */
  lemma {:induction false} ProcessMeaning(
    down: nat -> bool, c: Cluster, event: Event, targets: seq<Target>, actions: seq<Action>)
    requires forall n :: !down(n)
    ensures var after := ProcessTargets(down, true, c, event, targets, actions);
            after.pods == map key | key in c.pods && !Doomed(event, targets, actions, key, c.pods[key]) :: c.pods[key]
    decreases |targets|
  {
    if targets != [] {
      var t := targets[0];
      assert targets == [t] + targets[1..];
      var next := if t.pod.None? then c else TryActions(down, true, c, event, t, actions);
      if t.pod.Some? {
        TryActionsMeaning(down, c, event, t, actions);
      }
      ProcessMeaning(down, next, event, targets[1..], actions);
      forall key | key in c.pods
        ensures Doomed(event, targets, actions, key, c.pods[key]) <==>
                  Doomed(event, [t], actions, key, c.pods[key]) || Doomed(event, targets[1..], actions, key, c.pods[key])
      {
        DoomedSplits(event, t, targets[1..], actions, key, c.pods[key]);
      }
    }
  }

  /** One event about one existing, older pod, against one action on pods of its namespace without a selector:
      the pod is deleted exactly if a trigger is fulfilled - for a Falco alert, if its priority number is no
      larger than the action's. */
  lemma OneActionDeletesExactly(
    down: nat -> bool, c: Cluster, event: Event, target: Target, action: Action, pod: PodInfo, created: int)
    requires forall n :: !down(n)
    requires target.pod == Some(pod) && action.namespace == pod.namespace && action.matchLabels == []
    requires action.action == "delete-pod"
    requires PodKey(pod.namespace, pod.name) in c.pods && c.pods[PodKey(pod.namespace, pod.name)] == created
    requires event.clientTimestamp.Some? && event.clientTimestamp.value > created
    ensures PodKey(pod.namespace, pod.name) !in ProcessTargets(down, true, c, event, [target], [action]).pods <==>
              || (action.onViolatedProcess && target.violatedProcesses != [])
              || (action.onViolatedFile && target.violatedFiles != [])
              || (action.onFalcoAlert && target.falcoAlert.Some?
                  && target.falcoAlert.value.priority <= action.falcoPriority)
  {
    var key := PodKey(pod.namespace, pod.name);
    ProcessMeaning(down, c, event, [target], [action]);
    assert target in [target] && action in [action];
    assert Doomed(event, [target], [action], key, created) <==> Condemns(target, action, key);
  }

  // ---- Every pod gone is on record ----

  /** What happened between two states of the cluster is on record: as many deletions as pods have gone, and
      one of each of these. */
  ghost predicate Recorded(c: Cluster, after: Cluster) {
    && c.deletions <= after.deletions && after.pods.Keys <= c.pods.Keys
    && |after.deletions| - |c.deletions| == |c.pods.Keys| - |after.pods.Keys|
    && forall key :: key in c.pods && key !in after.pods ==>
         exists i :: |c.deletions| <= i < |after.deletions| && DeletionOf(after.deletions[i], key)
  }

  predicate DeletionOf(d: Deletion, key: PodKey) {
    d.target.pod.Some? && d.target.pod.value.namespace == key.namespace && d.target.pod.value.name == key.name
  }

  lemma RecordedTwice(a: Cluster, b: Cluster, c: Cluster)
    requires Recorded(a, b) && Recorded(b, c)
    ensures Recorded(a, c)
  {
    forall key | key in a.pods && key !in c.pods
      ensures exists i :: |a.deletions| <= i < |c.deletions| && DeletionOf(c.deletions[i], key)
    {
      if key !in b.pods {
        var i :| |a.deletions| <= i < |b.deletions| && DeletionOf(b.deletions[i], key);
        assert c.deletions[i] == b.deletions[i];
      } else {
        var i :| |b.deletions| <= i < |c.deletions| && DeletionOf(c.deletions[i], key);
      }
    }
  }

  lemma TryActionRecords(
    down: nat -> bool, hasClient: bool, c: Cluster, event: Event, target: Target, action: Action)
    requires target.pod.Some?
    ensures Recorded(c, TryAction(down, hasClient, c, event, target, action))
  {
    var after := TryAction(down, hasClient, c, event, target, action);
    if after.deletions != c.deletions {
      var key := KeyOf(target.pod.value);
      assert after.pods.Keys == c.pods.Keys - {key};
      assert DeletionOf(after.deletions[|c.deletions|], key);
    }
  }

  lemma {:induction false} TryActionsRecord(
    down: nat -> bool, hasClient: bool, c: Cluster, event: Event, target: Target, actions: seq<Action>)
    requires target.pod.Some?
    ensures Recorded(c, TryActions(down, hasClient, c, event, target, actions))
    decreases |actions|
  {
    if actions != [] {
      var next := TryAction(down, hasClient, c, event, target, actions[0]);
      TryActionRecords(down, hasClient, c, event, target, actions[0]);
      TryActionsRecord(down, hasClient, next, event, target, actions[1..]);
      RecordedTwice(c, next, TryActions(down, hasClient, next, event, target, actions[1..]));
    }
  }

  /** With whatever API errors, an event's processing records exactly one deletion for each pod that it makes
      go, and none else. */
  lemma {:induction false} EveryDeletionIsRecorded(
    down: nat -> bool, hasClient: bool, c: Cluster, event: Event, targets: seq<Target>, actions: seq<Action>)
    ensures Recorded(c, ProcessTargets(down, hasClient, c, event, targets, actions))
    decreases |targets|
  {
    if targets != [] {
      var next := if targets[0].pod.None? then c else TryActions(down, hasClient, c, event, targets[0], actions);
      if targets[0].pod.Some? {
        TryActionsRecord(down, hasClient, c, event, targets[0], actions);
      }
      EveryDeletionIsRecorded(down, hasClient, next, event, targets[1..], actions);
      RecordedTwice(c, next, ProcessTargets(down, hasClient, next, event, targets[1..], actions));
    }
  }

  lemma DoomedSplits(event: Event, t: Target, rest: seq<Target>, actions: seq<Action>, key: PodKey, created: int)
    ensures Doomed(event, [t] + rest, actions, key, created) <==>
              Doomed(event, [t], actions, key, created) || Doomed(event, rest, actions, key, created)
  {
    assert forall x :: x in [t] + rest <==> x in [t] || x in rest;
  }

  /** The outcome depends on the sets of targets and actions alone. */
  lemma OrderDoesNotMatter(
    down: nat -> bool, c: Cluster, event: Event, targets: seq<Target>, targets': seq<Target>,
    actions: seq<Action>, actions': seq<Action>)
    requires forall n :: !down(n)
    requires (forall t :: t in targets <==> t in targets') && (forall a :: a in actions <==> a in actions')
    ensures ProcessTargets(down, true, c, event, targets, actions).pods
            == ProcessTargets(down, true, c, event, targets', actions').pods
  {
    ProcessMeaning(down, c, event, targets, actions);
    ProcessMeaning(down, c, event, targets', actions');
    forall key | key in c.pods
      ensures Doomed(event, targets, actions, key, c.pods[key]) == Doomed(event, targets', actions', key, c.pods[key])
    {}
  }

  // ---- The handler among other parties ----

  /** What the handler is doing: nothing, between two targets of an event, or - holding the lock on
      the actions - within one target. */
  datatype Work =
    | Waiting
    | Between(event: Event, targets: seq<Target>)
    | Within(event: Event, targets: seq<Target>, rest: seq<Action>)

  /** `queued` is the history of events ever queued. */
  datatype World = World(cluster: Cluster, queue: seq<Event>, actions: seq<Action>, work: Work, queued: seq<Event>)

  datatype Step =
    | QueueEvent(event: Event)
    | Dequeue
    | NextTarget
    | NextAction
    | SetActions(actions: seq<Action>)
    | CreatePod(key: PodKey, created: int)
    | PodGone(key: PodKey)

  predicate Ready(w: World, step: Step) {
    match step
    case QueueEvent(_) => |w.queue| < EVENTS_CHAN_CAPACITY
    case Dequeue => w.work.Waiting? && w.queue != []
    case NextTarget => w.work.Between?
    case NextAction => w.work.Within?
    case SetActions(_) => !w.work.Within?
    case CreatePod(key, _) => key !in w.cluster.pods
    case PodGone(_) => true
  }

  function Next(down: nat -> bool, hasClient: bool, w: World, step: Step): (w': World)
    requires Ready(w, step) && (w.work.Within? ==> w.work.targets != [] && w.work.targets[0].pod.Some?)
    ensures w'.work.Within? ==> w'.work.targets != [] && w'.work.targets[0].pod.Some?
  {
    match step
    case QueueEvent(e) => w.(queue := w.queue + [e], queued := w.queued + [e])
    case Dequeue => w.(queue := w.queue[1..], work := Between(w.queue[0], w.queue[0].targets))
    case NextTarget =>
      if w.work.targets == [] then w.(work := Waiting)
      else if w.work.targets[0].pod.None? then w.(work := Between(w.work.event, w.work.targets[1..]))
      else w.(work := Within(w.work.event, w.work.targets, w.actions))
    case NextAction =>
      if w.work.rest == [] then w.(work := Between(w.work.event, w.work.targets[1..]))
      else w.(cluster := TryAction(down, hasClient, w.cluster, w.work.event, w.work.targets[0], w.work.rest[0]),
              work := Within(w.work.event, w.work.targets, w.work.rest[1..]))
    case SetActions(actions) => w.(actions := actions)
    case CreatePod(key, created) => w.(cluster := w.cluster.(pods := w.cluster.pods[key := created]))
    case PodGone(key) => w.(cluster := w.cluster.(pods := w.cluster.pods - {key}))
  }

  predicate Framed(w: World) {
    w.work.Within? ==> w.work.targets != [] && w.work.targets[0].pod.Some?
  }

  ghost predicate RunFrom(down: nat -> bool, hasClient: bool, w: World, steps: seq<Step>)
    requires Framed(w)
    decreases |steps|
  {
    steps == [] || (Ready(w, steps[0]) && RunFrom(down, hasClient, Next(down, hasClient, w, steps[0]), steps[1..]))
  }

  ghost function Run(down: nat -> bool, hasClient: bool, w: World, steps: seq<Step>): (w': World)
    requires Framed(w) && RunFrom(down, hasClient, w, steps)
    ensures Framed(w')
    decreases |steps|
  {
    if steps == [] then w else Run(down, hasClient, Next(down, hasClient, w, steps[0]), steps[1..])
  }

  const INITIAL := World(Cluster(map[], 0, []), [], [], Waiting, [])

  /** A deletion is justified by a queued event, one of its targets, and a delete-pod action whose
      trigger is fulfilled, whose namespace is the pod's and whose selector lies within the labels the
      event reports; and the deleted pod was older than the event. */
  predicate Justified(d: Deletion, queued: seq<Event>) {
    && d.event in queued && d.target in d.event.targets && d.target.pod.Some?
    && Condemns(d.target, d.action, PodKey(d.target.pod.value.namespace, d.target.pod.value.name))
    && d.created < if d.event.clientTimestamp.Some? then d.event.clientTimestamp.value else 0
  }

  predicate Inv(w: World) {
    && (forall d :: d in w.cluster.deletions ==> Justified(d, w.queued))
    && (forall e :: e in w.queue ==> e in w.queued)
    && (!w.work.Waiting? ==> w.work.event in w.queued && forall t :: t in w.work.targets ==> t in w.work.event.targets)
    && (w.work.Within? ==> w.work.targets != [] && w.work.targets[0].pod.Some?
                           && forall a :: a in w.work.rest ==> a in w.actions)
  }

  lemma StepKeepsInv(down: nat -> bool, hasClient: bool, w: World, step: Step)
    requires Inv(w) && Ready(w, step)
    ensures Inv(Next(down, hasClient, w, step))
  {
    var w' := Next(down, hasClient, w, step);
    if step.Dequeue? {
      assert w.queue[0] in w.queue;
    }
    if step.NextAction? && w.work.rest != [] {
      assert w.work.targets[0] in w.work.targets;
      TextsWithin(w.work.rest[0].matchLabels, w.work.targets[0].pod.value.labels);
      forall d | d in w'.cluster.deletions ensures Justified(d, w'.queued) {
        assert d in w.cluster.deletions || Justified(d, w.queued);
      }
    }
  }

  lemma {:induction false} RunKeepsInv(down: nat -> bool, hasClient: bool, w: World, steps: seq<Step>)
    requires Inv(w) && RunFrom(down, hasClient, w, steps)
    ensures Inv(Run(down, hasClient, w, steps))
    decreases |steps|
  {
    if steps != [] {
      StepKeepsInv(down, hasClient, w, steps[0]);
      RunKeepsInv(down, hasClient, Next(down, hasClient, w, steps[0]), steps[1..]);
    }
  }

  /** Over every run - any queueing, syncing of actions, and re-creation of pods in between, with or
      without failing API calls - every deletion is justified. */
  lemma EveryDeletionIsJustified(down: nat -> bool, hasClient: bool, steps: seq<Step>, d: Deletion)
    requires RunFrom(down, hasClient, INITIAL, steps)
    requires d in Run(down, hasClient, INITIAL, steps).cluster.deletions
    ensures d.event in Run(down, hasClient, INITIAL, steps).queued && d.target in d.event.targets
    ensures d.event.clientTimestamp.Some? ==> d.created < d.event.clientTimestamp.value
    ensures d.event.clientTimestamp.None? ==> d.created < 0
    ensures d.action.action == "delete-pod"
    ensures || (d.action.onViolatedProcess && d.target.violatedProcesses != [])
            || (d.action.onViolatedFile && d.target.violatedFiles != [])
            || (d.action.onFalcoAlert && d.target.falcoAlert.Some?
                && d.target.falcoAlert.value.priority <= d.action.falcoPriority)
    ensures d.target.pod.Some? && d.action.namespace == d.target.pod.value.namespace
    ensures forall l :: l in d.action.matchLabels ==>
              exists m :: m in d.target.pod.value.labels && m.key + "=" + m.value == l.key + "=" + l.value
  {
    RunKeepsInv(down, hasClient, INITIAL, steps);
  }

  /** At the moment of a deletion the action is one of the handler's current actions, and the pod is
      the only thing that changes in the cluster. */
  lemma DeletionStep(down: nat -> bool, hasClient: bool, w: World, step: Step)
    requires Inv(w) && Ready(w, step)
    ensures var w' := Next(down, hasClient, w, step);
            if w'.cluster.deletions == w.cluster.deletions
            then step.CreatePod? || step.PodGone? || w'.cluster.pods == w.cluster.pods
            else
              && step.NextAction? && hasClient && |w'.cluster.deletions| == |w.cluster.deletions| + 1
              && w.cluster.deletions <= w'.cluster.deletions
              && var d := w'.cluster.deletions[|w.cluster.deletions|];
                 && d.action in w.actions && d.event == w.work.event && d.target.pod.Some?
                 && var key := KeyOf(d.target.pod.value);
                    key in w.cluster.pods && d.created == w.cluster.pods[key]
                    && w'.cluster.pods == w.cluster.pods - {key}
  {
  }

  /** Every event that is queued, being handled, or still to come is stamped no later than `t`. */
  ghost predicate NoYounger(w: World, steps: seq<Step>, t: int) {
    && (forall e :: e in w.queue ==> AsTime(e.clientTimestamp) <= t)
    && (!w.work.Waiting? ==> AsTime(w.work.event.clientTimestamp) <= t)
    && (forall s :: s in steps && s.QueueEvent? ==> AsTime(s.event.clientTimestamp) <= t)
  }

  /** A pod is safe from old events: as long as all events are stamped at or before its creation, no
      run deletes it, however often events, actions and other pods change - only someone else can. */
  lemma {:induction false} NewIncarnationSurvives(
    down: nat -> bool, hasClient: bool, w: World, steps: seq<Step>, key: PodKey)
    requires Framed(w) && RunFrom(down, hasClient, w, steps)
    requires key in w.cluster.pods && NoYounger(w, steps, w.cluster.pods[key])
    requires PodGone(key) !in steps
    ensures var w' := Run(down, hasClient, w, steps);
            key in w'.cluster.pods && w'.cluster.pods[key] == w.cluster.pods[key]
    decreases |steps|
  {
    if steps != [] {
      var next := Next(down, hasClient, w, steps[0]);
      assert steps[0] in steps;
      forall s | s in steps[1..] ensures s in steps {}
      assert steps[0].Dequeue? ==> w.queue[0] in w.queue;
      NewIncarnationSurvives(down, hasClient, next, steps[1..], key);
    }
  }

  // ---- The handler itself ----

  /** The part of the Kubernetes API the handler uses; `down` says which calls fail. */
  class KubeClient {
    const down: nat -> bool
    var pods: map<PodKey, int>
    var calls: nat

    constructor (down: nat -> bool)
      ensures this.down == down && pods == map[] && calls == 0
    {
      this.down := down;
      pods, calls := map[], 0;
    }

    /** The creation time of the pod, if there is one and the call succeeds. */
    method Get(key: PodKey) returns (created: Option<int>)
      modifies this`calls
      ensures calls == old(calls) + 1
      ensures created == if down(old(calls)) || key !in pods then None else Some(pods[key])
    {
      created := if down(calls) || key !in pods then None else Some(pods[key]);
      calls := calls + 1;
    }

    method Delete(key: PodKey) returns (err: bool)
      modifies this
      ensures calls == old(calls) + 1 && err == (down(old(calls)) || key !in old(pods))
      ensures pods == if err then old(pods) else old(pods) - {key}
    {
      err := down(calls) || key !in pods;
      calls := calls + 1;
      if !err {
        pods := pods - {key};
      }
    }
  }

  class ActionHandler {
    const k8sClient: KubeClient?
    var actions: seq<Action>
    var podDeletedEvents: seq<PodInfo>
    ghost var deletions: seq<Deletion>

    constructor (k8sClient: KubeClient?)
      ensures this.k8sClient == k8sClient && actions == [] && podDeletedEvents == [] && deletions == []
    {
      this.k8sClient := k8sClient;
      actions, podDeletedEvents, deletions := [], [], [];
    }

    /** The deletions are reported one by one. */
    ghost predicate Valid()
      reads this
    {
      && |podDeletedEvents| == |deletions|
      && forall i :: 0 <= i < |deletions| ==> deletions[i].target.pod == Some(podDeletedEvents[i])
    }

    /** The state the specification speaks of; without a client no pod is within reach. */
    ghost function View(): Cluster
      reads this, k8sClient
    {
      if k8sClient == null then Cluster(map[], 0, deletions) else Cluster(k8sClient.pods, k8sClient.calls, deletions)
    }

    ghost function Down(): nat -> bool {
      if k8sClient == null then (n: nat) => false else k8sClient.down
    }

    method SetActions(actions: seq<Action>)
      modifies this`actions
      ensures this.actions == actions
    {
      this.actions := actions;
    }

    method IsEventTimestampRecent(t: Option<int>, pod: PodInfo) returns (recent: bool)
      modifies if k8sClient == null then {} else {k8sClient}
      ensures k8sClient == null ==> !recent
      ensures k8sClient != null ==>
                && k8sClient.calls == old(k8sClient.calls) + 1 && k8sClient.pods == old(k8sClient.pods)
                && recent == (!k8sClient.down(old(k8sClient.calls)) && KeyOf(pod) in k8sClient.pods
                              && AsTime(t) > k8sClient.pods[KeyOf(pod)])
    {
      if k8sClient == null {
        return false;
      }
      var created := k8sClient.Get(KeyOf(pod));
      if created.None? {
        return false;
      }
      recent := AsTime(t) > created.value;
    }

    /** Whether some trigger of the action is fulfilled by the target. */
    method IsFulfilled(target: Target, action: Action) returns (actionEventFulfilled: bool)
      ensures actionEventFulfilled == Triggered(action, target)
      ensures actionEventFulfilled <==>
                || (action.onViolatedProcess && target.violatedProcesses != [])
                || (action.onViolatedFile && target.violatedFiles != [])
                || (action.onFalcoAlert && target.falcoAlert.Some?
                    && target.falcoAlert.value.priority <= action.falcoPriority)
    {
      actionEventFulfilled := false;
      if action.onViolatedProcess && |target.violatedProcesses| > 0 {
        actionEventFulfilled := true;
      }
      if action.onViolatedFile && |target.violatedFiles| > 0 {
        actionEventFulfilled := true;
      }
      if action.onFalcoAlert && target.falcoAlert.Some? {
        if target.falcoAlert.value.priority <= action.falcoPriority {
          actionEventFulfilled := true;
        }
      }
    }

    /** Deletes the pod, if the action is to, and reports the deletion. */
    method RunAction(event: Event, target: Target, action: Action)
      requires Valid() && target.pod.Some? && k8sClient != null && KeyOf(target.pod.value) in k8sClient.pods
      modifies this`podDeletedEvents, this`deletions, k8sClient
      ensures Valid()
      ensures View() ==
                var (c, key) := (old(View()), KeyOf(target.pod.value));
                if action.action != DELETE_POD then c
                else if k8sClient.down(c.calls) then c.(calls := c.calls + 1)
                else Cluster(c.pods - {key}, c.calls + 1, c.deletions + [Deletion(event, target, action, c.pods[key])])
    {
      if action.action != DELETE_POD {
        return;
      }
      var pod := target.pod.value;
      ghost var created := k8sClient.pods[KeyOf(pod)];
      var err := k8sClient.Delete(KeyOf(pod));
      if !err {
        deletions := deletions + [Deletion(event, target, action, created)];
        podDeletedEvents := podDeletedEvents + [pod];
      }
    }

    /** Considers one action for one target. */
    method ConsiderAction(event: Event, target: Target, action: Action)
      requires Valid() && target.pod.Some?
      modifies this`podDeletedEvents, this`deletions, if k8sClient == null then {} else {k8sClient}
      ensures Valid()
      ensures View() == TryAction(Down(), k8sClient != null, old(View()), event, target, action)
    {
      var pod := target.pod.value;
      var actionEventFulfilled := IsFulfilled(target, action);
      if actionEventFulfilled && ActionMatchesPod(action, pod) {
        var recent := IsEventTimestampRecent(event.clientTimestamp, pod);
        if recent {
          RunAction(event, target, action);
        }
      }
    }

    /** Processes one event, undisturbed. */
    method ProcessActions(event: Event)
      requires Valid()
      modifies this`podDeletedEvents, this`deletions, if k8sClient == null then {} else {k8sClient}
      ensures Valid()
      ensures View() == ProcessTargets(Down(), k8sClient != null, old(View()), event, event.targets, actions)
    {
      ghost var down, hasClient := Down(), k8sClient != null;
      assert event.targets[0..] == event.targets;
      for i := 0 to |event.targets|
        invariant Valid()
        invariant ProcessTargets(down, hasClient, View(), event, event.targets[i..], actions)
                  == ProcessTargets(down, hasClient, old(View()), event, event.targets, actions)
      {
        var target := event.targets[i];
        assert event.targets[i..][1..] == event.targets[i + 1..];
        if target.pod.None? {
          continue;
        }
        ProcessTarget(event, target);
      }
    }

    method ProcessTarget(event: Event, target: Target)
      requires Valid() && target.pod.Some?
      modifies this`podDeletedEvents, this`deletions, if k8sClient == null then {} else {k8sClient}
      ensures Valid()
      ensures View() == TryActions(Down(), k8sClient != null, old(View()), event, target, actions)
    {
      ghost var down, hasClient := Down(), k8sClient != null;
      assert actions[0..] == actions;
      for j := 0 to |actions|
        invariant Valid()
        invariant TryActions(down, hasClient, View(), event, target, actions[j..])
                  == TryActions(down, hasClient, old(View()), event, target, actions)
      {
        assert actions[j..][1..] == actions[j + 1..];
        ConsiderAction(event, target, actions[j]);
      }
    }
  }
}
