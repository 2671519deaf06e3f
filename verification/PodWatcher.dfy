/** The node agent's index from container IDs to pods. */
module PodWatcher {
  import opened Model
  import opened Seqs
  import opened Strings

  const CONTAINER_ID_LEN := 15

  /** A pod with the container IDs, as `runtime://id`, of its three kinds of containers. */
  datatype Pod = Pod(
    namespace: string,
    name: string,
    initContainers: seq<string>,
    containers: seq<string>,
    ephemeralContainers: seq<string>)
  {
    function AllContainers(): seq<string> {
      initContainers + containers + ephemeralContainers
    }
  }

  function Truncate(id: string): string {
    if |id| > CONTAINER_ID_LEN then id[..CONTAINER_ID_LEN] else id
  }

  /** The part after `//`, when there is exactly one. */
  function BareID(containerID: string): Option<string> {
    var parts := Split(containerID, "//");
    if |parts| == 2 then Some(parts[1]) else None
  }

  function CleanContainerID(containerID: string): Option<string> {
    if BareID(containerID).None? then None else Some(Truncate(BareID(containerID).value))
  }

  function IndexKeys(ids: seq<string>): Option<seq<string>> {
    if ids == [] then Some([])
    else
      var rest := IndexKeys(ids[1..]);
      if ids[0] == "" then rest
      else if CleanContainerID(ids[0]).None? || rest.None? then None
      else Some([CleanContainerID(ids[0]).value] + rest.value)
  }

  /** The index function: the truncated IDs of the containers that have been started. */
  method ContainerIndexFunc(pod: Pod) returns (keys: Option<seq<string>>)
    ensures keys == IndexKeys(pod.AllContainers())
  {
    IndexKeysAppend(pod.initContainers, pod.containers);
    IndexKeysAppend(pod.initContainers + pod.containers, pod.ephemeralContainers);
    keys := AppendContainerIDs([], pod.initContainers);
    if keys.None? {
      return;
    }
    assert keys.value == IndexKeys(pod.initContainers).value;
    keys := AppendContainerIDs(keys.value, pod.containers);
    if keys.None? {
      return;
    }
    keys := AppendContainerIDs(keys.value, pod.ephemeralContainers);
  }

  method AppendContainerIDs(before: seq<string>, ids: seq<string>) returns (keys: Option<seq<string>>)
    ensures keys == if IndexKeys(ids).None? then None else Some(before + IndexKeys(ids).value)
  {
    var found := before;
    assert ids[..0] == [];
    for i := 0 to |ids|
      invariant IndexKeys(ids[..i]) .Some? && found == before + IndexKeys(ids[..i]).value
    {
      assert ids[..i + 1] == ids[..i] + [ids[i]];
      IndexKeysAppend(ids[..i], [ids[i]]);
      if ids[i] == "" {
        continue;
      }
      var key := CleanContainerID(ids[i]);
      if key.None? {
        assert ids == ids[..i + 1] + ids[i + 1..];
        IndexKeysAppend(ids[..i + 1], ids[i + 1..]);
        return None;
      }
      found := found + [key.value];
    }
    assert ids[..|ids|] == ids;
    return Some(found);
  }

  lemma {:induction false} IndexKeysAppend(a: seq<string>, b: seq<string>)
    ensures IndexKeys(a + b) ==
              if IndexKeys(a).None? || IndexKeys(b).None? then None
              else Some(IndexKeys(a).value + IndexKeys(b).value)
  {
    if a == [] {
      assert a + b == b;
      assert IndexKeys(b).Some? ==> [] + IndexKeys(b).value == IndexKeys(b).value;
    } else {
      assert (a + b)[1..] == a[1..] + b;
      IndexKeysAppend(a[1..], b);
      if IndexKeys(a).Some? && IndexKeys(b).Some? && a[0] != "" {
        var key := [CleanContainerID(a[0]).value];
        assert (key + IndexKeys(a[1..]).value) + IndexKeys(b).value == key + (IndexKeys(a[1..]).value + IndexKeys(b).value);
      }
    }
  }

  function IsStarted(): string -> bool {
    (id: string) => id != ""
  }

  /** A pod can be indexed exactly if each of its IDs is empty or falls into two parts. */
  lemma {:induction false} IndexableExactly(ids: seq<string>)
    ensures IndexKeys(ids).Some? <==> forall id :: id in ids && id != "" ==> |Split(id, "//")| == 2
  {
    if ids != [] {
      IndexableExactly(ids[1..]);
      assert ids == [ids[0]] + ids[1..];
      assert ids[0] != "" ==> (CleanContainerID(ids[0]).Some? <==> |Split(ids[0], "//")| == 2);
      if IndexKeys(ids).None? && IndexKeys(ids[1..]).Some? {
        assert ids[0] in ids;
      }
    }
  }

  lemma FirstKey(ids: seq<string>)
    requires ids != [] && IndexKeys(ids).Some?
    ensures IndexKeys(ids[1..]).Some?
    ensures IndexKeys(ids).value
            == (if ids[0] == "" then [] else [CleanContainerID(ids[0]).value]) + IndexKeys(ids[1..]).value
    ensures Filter(IsStarted(), ids) == (if ids[0] == "" then [] else [ids[0]]) + Filter(IsStarted(), ids[1..])
  {
  }

  /** By what such a pod is indexed: its keys are, in order, the second parts of the non-empty IDs, cut to 15
      characters. */
  lemma {:induction false} IndexKeysMeaning(ids: seq<string>)
    ensures IndexKeys(ids).Some? ==>
              var (keys, started) := (IndexKeys(ids).value, Filter(IsStarted(), ids));
              && |keys| == |started|
              && forall i :: 0 <= i < |keys| ==>
                   && started[i] != "" && |Split(started[i], "//")| == 2
                   && var bare := Split(started[i], "//")[1];
                      keys[i] == if |bare| > 15 then bare[..15] else bare
  {
    if ids != [] && IndexKeys(ids).Some? {
      IndexKeysMeaning(ids[1..]);
      FirstKey(ids);
    }
  }

  lemma IndexKeysMembers(ids: seq<string>)
    requires forall id :: id in ids && id != "" ==> |Split(id, "//")| == 2
    ensures IndexKeys(ids).Some?
    ensures forall key :: key in IndexKeys(ids).value <==>
              exists id :: id in ids && id != "" && |Split(id, "//")| == 2 && Truncate(Split(id, "//")[1]) == key
  {
    IndexableExactly(ids);
    IndexKeysMeaning(ids);
    FilterMembers(IsStarted(), ids);
    var keys, started := IndexKeys(ids).value, Filter(IsStarted(), ids);
    forall key
      ensures key in keys <==>
                exists id :: id in ids && id != "" && |Split(id, "//")| == 2 && Truncate(Split(id, "//")[1]) == key
    {
      if key in keys {
        var i :| 0 <= i < |keys| && keys[i] == key;
        assert started[i] in started;
      }
      if id :| id in ids && id != "" && |Split(id, "//")| == 2 && Truncate(Split(id, "//")[1]) == key {
        assert id in started;
        var i :| 0 <= i < |started| && started[i] == id;
        assert keys[i] == key;
      }
    }
  }

  predicate ContainerIDContains(containerID: string, prefix: string) {
    BareID(containerID).Some? && prefix <= BareID(containerID).value
  }

  predicate Has(pod: Pod, id: string) {
    id in pod.containers || id in pod.initContainers || id in pod.ephemeralContainers
  }

  /** Every container of the pod has no ID yet, or one with exactly one `//`. */
  ghost predicate Wellformed(pod: Pod) {
    forall id :: Has(pod, id) && id != "" ==> |Split(id, "//")| == 2
  }

  /** Some container of the pod has an ID that starts, after the `//`, with the query. */
  ghost predicate Runs(pod: Pod, query: string) {
    exists id :: Has(pod, id) && |Split(id, "//")| == 2 && query <= Split(id, "//")[1]
  }

  /** Some container of the pod has exactly this ID. */
  ghost predicate RunsExactly(pod: Pod, query: string) {
    exists id :: Has(pod, id) && |Split(id, "//")| == 2 && Split(id, "//")[1] == query
  }

  /** The first listed pod with a matching container. */
  function FindContainer(query: string, pods: seq<Pod>): Option<Pod> {
    if query == "" || pods == [] then None
    else if (exists id :: id in pods[0].containers && ContainerIDContains(id, query))
         || (exists id :: id in pods[0].initContainers && ContainerIDContains(id, query))
         || (exists id :: id in pods[0].ephemeralContainers && ContainerIDContains(id, query))
    then Some(pods[0])
    else FindContainer(query, pods[1..])
  }

  /** What the indexer promises: the stored pods filed under the key, in any order. */
  ghost predicate ByIndex(store: seq<Pod>, key: string, hits: seq<Pod>) {
    forall pod :: pod in hits <==>
      pod in store && IndexKeys(pod.AllContainers()).Some? && key in IndexKeys(pod.AllContainers()).value
  }

  function FindPod(query: string, byIndex: string -> seq<Pod>): Option<Pod> {
    FindContainer(query, byIndex(Truncate(query)))
  }

  lemma RunsInOneList(p: Pod, query: string)
    ensures Runs(p, query) <==>
              || (exists id :: id in p.containers && ContainerIDContains(id, query))
              || (exists id :: id in p.initContainers && ContainerIDContains(id, query))
              || (exists id :: id in p.ephemeralContainers && ContainerIDContains(id, query))
  {
    if Runs(p, query) {
      var id :| Has(p, id) && |Split(id, "//")| == 2 && query <= Split(id, "//")[1];
      assert ContainerIDContains(id, query);
    }
    if id :| Has(p, id) && ContainerIDContains(id, query) {
      assert query <= Split(id, "//")[1];
    }
  }

  /** A scan finds a pod exactly if a listed pod runs the query, and finds such a pod. */
  lemma {:induction false} ScanMeaning(query: string, pods: seq<Pod>)
    ensures var r := FindContainer(query, pods);
            && (r.Some? ==> r.value in pods && Runs(r.value, query))
            && (r.Some? <==> query != "" && exists pod :: pod in pods && Runs(pod, query))
  {
    if pods != [] {
      ScanMeaning(query, pods[1..]);
      assert pods == [pods[0]] + pods[1..];
      var p := pods[0];
      RunsInOneList(p, query);
    }
  }

  lemma EmptyIDHasOnePart()
    ensures |Split("", "//")| == 1
  {
    assert !("//" <= "");
  }

  lemma HasAll(pod: Pod)
    ensures forall id :: id in pod.AllContainers() <==> Has(pod, id)
  {
  }

  /** A well-formed pod can be indexed; its keys are the truncated IDs of its started containers. */
  lemma FiledUnder(pod: Pod, key: string)
    requires Wellformed(pod)
    ensures IndexKeys(pod.AllContainers()).Some?
    ensures key in IndexKeys(pod.AllContainers()).value <==>
              exists id :: Has(pod, id) && |Split(id, "//")| == 2 && Truncate(Split(id, "//")[1]) == key
  {
    HasAll(pod);
    IndexKeysMembers(pod.AllContainers());
    EmptyIDHasOnePart();
  }

  /** A pod is filed under a query's key and matches the query exactly if it runs the query - for a
      long query by prefix, for one shorter than the keys only with the full ID. */
  lemma FiledMeaning(pod: Pod, query: string)
    requires Wellformed(pod)
    ensures IndexKeys(pod.AllContainers()).Some?
    ensures Truncate(query) in IndexKeys(pod.AllContainers()).value && Runs(pod, query) <==>
              if |query| >= 15 then Runs(pod, query) else RunsExactly(pod, query)
  {
    var key := Truncate(query);
    FiledUnder(pod, key);
    if |query| >= 15 {
      if Runs(pod, query) {
        var id :| Has(pod, id) && |Split(id, "//")| == 2 && query <= Split(id, "//")[1];
        assert Truncate(Split(id, "//")[1]) == key;
      }
    } else {
      if RunsExactly(pod, query) {
        var id :| Has(pod, id) && |Split(id, "//")| == 2 && Split(id, "//")[1] == query;
        assert query <= Split(id, "//")[1] && Truncate(Split(id, "//")[1]) == key;
      }
      if key in IndexKeys(pod.AllContainers()).value {
        var id :| Has(pod, id) && |Split(id, "//")| == 2 && Truncate(Split(id, "//")[1]) == key;
        assert Split(id, "//")[1] == query;
      }
    }
  }

  /** The indexed lookup against all stored pods. Every answer is a stored pod that runs the query.
      For a query of at least 15 characters an answer exists exactly if some stored pod runs it;
      for a shorter one exactly if some stored pod has a container of precisely that ID. */
  lemma FindPodAgreesWithStore(store: seq<Pod>, byIndex: string -> seq<Pod>, query: string)
    requires forall pod :: pod in store ==> Wellformed(pod)
    requires ByIndex(store, Truncate(query), byIndex(Truncate(query)))
    ensures var r := FindPod(query, byIndex);
            && (r.Some? ==> r.value in store && Runs(r.value, query))
            && (|query| >= 15 ==> (r.Some? <==> exists pod :: pod in store && Runs(pod, query)))
            && (|query| < 15 ==> (r.Some? <==> query != "" && exists pod :: pod in store && RunsExactly(pod, query)))
  {
    var hits := byIndex(Truncate(query));
    ScanMeaning(query, hits);
    forall pod | pod in store && query != ""
      ensures pod in hits && Runs(pod, query) <==>
                if |query| >= 15 then Runs(pod, query) else RunsExactly(pod, query)
    {
      FiledMeaning(pod, query);
    }
    if FindPod(query, byIndex).Some? {
      var pod := FindPod(query, byIndex).value;
      assert pod in hits && Runs(pod, query);
    }
  }

  /** The index and a scan of all pods give an answer for the same queries exactly if, for short
      queries, no pod runs the query other than under its full ID. */
  lemma FindPodAgreesWithScan(store: seq<Pod>, byIndex: string -> seq<Pod>, query: string)
    requires forall pod :: pod in store ==> Wellformed(pod)
    requires ByIndex(store, Truncate(query), byIndex(Truncate(query)))
    ensures FindPod(query, byIndex).Some? == FindContainer(query, store).Some? <==>
              || query == "" || |query| >= 15
              || (exists pod :: pod in store && RunsExactly(pod, query))
              || !(exists pod :: pod in store && Runs(pod, query))
  {
    FindPodAgreesWithStore(store, byIndex, query);
    ScanMeaning(query, store);
    forall pod | RunsExactly(pod, query) ensures Runs(pod, query) {
      var id :| Has(pod, id) && |Split(id, "//")| == 2 && Split(id, "//")[1] == query;
      assert query <= Split(id, "//")[1];
    }
  }

  lemma BareIDOf(id: string)
    requires '/' !in id
    ensures BareID("docker://" + id) == Some(id)
  {
    var s := "docker://" + id;
    assert At(s, "//", 7);
    IndexMeaning(s, "//");
    forall k | 0 <= k < 7 ensures !At(s, "//", k) {
      assert s[k] == "docker:"[k];
    }
    assert s[7 + |"//"|..] == id;
    NoSeparator(id);
    assert Split(s, "//") == [s[..7]] + [id];
  }

  lemma NoSeparator(id: string)
    requires '/' !in id
    ensures Split(id, "//") == [id]
  {
    IndexMeaning(id, "//");
    forall k | 0 <= k ensures !At(id, "//", k) {
      assert "//"[0] == '/';
      assert k + 2 <= |id| ==> id[k..k + 2][0] == id[k];
    }
  }

  /** Inputs: a short beginning of a container ID finds its pod in a scan, and not by the index - beside a
      container that has not been started. */
  lemma ShortQueryIsMissed(pod: Pod, id: string, query: string, byIndex: string -> seq<Pod>)
    requires '/' !in id && query != "" && query < id && |query| < 15
    requires pod.containers == ["docker://" + id, ""] && pod.initContainers == pod.ephemeralContainers == []
    requires ByIndex([pod], query, byIndex(query))
    ensures FindPod(query, byIndex) == None && FindContainer(query, [pod]) == Some(pod)
  {
    BareIDOf(id);
    OneStarted(pod, "docker://" + id, id, query);
    assert pod in [pod];
    FindPodAgreesWithStore([pod], byIndex, query);
    ScanMeaning(query, [pod]);
  }

  lemma OneStarted(pod: Pod, full: string, id: string, query: string)
    requires BareID(full) == Some(id) && query < id
    requires pod.containers == [full, ""] && pod.initContainers == pod.ephemeralContainers == []
    ensures Wellformed(pod) && Runs(pod, query) && !RunsExactly(pod, query)
  {
    EmptyIDHasOnePart();
    assert pod.containers[0] in pod.containers;
    assert Has(pod, full);
    assert forall other :: Has(pod, other) ==> other == full || other == "";
  }
}
