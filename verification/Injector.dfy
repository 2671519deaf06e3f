/** The webhook that injects the pod agent, and what the agent makes of the arguments. */
module Injector {
  import opened Model
  import opened Seqs
  import opened Strings
  import opened AgentCommand
  import PodLabels

  const THREAT_SCAN_ANNOTATION := "pod-agent.k8s.tarian.dev/threat-scan"
  const REGISTER_ANNOTATION := "pod-agent.k8s.tarian.dev/register"
  const FILE_VALIDATION_INTERVAL_ANNOTATION := "pod-agent.k8s.tarian.dev/file-validation-interval"
  const REGISTER_FILE_IGNORE_PATHS_ANNOTATION := "pod-agent.k8s.tarian.dev/register-file-ignore-paths"
  const POD_INFO_PATH := "/etc/podinfo"
  const SERVICE_ACCOUNT_PATH := "/var/run/secrets/kubernetes.io/serviceaccount"

  datatype VolumeMount = VolumeMount(name: string, mountPath: string)

  datatype Container = Container(name: string, image: string, args: seq<string>, mounts: seq<VolumeMount>)

  datatype Pod = Pod(annotations: map<string, string>, containers: seq<Container>, volumes: seq<string>)

  datatype Config = Config(name: string, image: string, logEncoding: string, host: string, port: string)

  datatype Response = Allowed | Patched(pod: Pod)

  // ---- Mounts ----

  function AllMounts(containers: seq<Container>): seq<VolumeMount> {
    if containers == [] then [] else containers[0].mounts + AllMounts(containers[1..])
  }

  /** The mounts of a container stand between those of the containers before and behind it. */
  lemma {:induction false} AllMountsMeaning(containers: seq<Container>, k: nat)
    requires k < |containers|
    ensures AllMounts(containers) == AllMounts(containers[..k]) + containers[k].mounts + AllMounts(containers[k + 1..])
    ensures AllMounts([]) == []
  {
    if k > 0 {
      AllMountsMeaning(containers[1..], k - 1);
      var before := containers[1..][..k - 1];
      assert containers[..k][1..] == before;
      assert containers[1..][k..] == containers[k + 1..];
      assert AllMounts(containers[..k]) == containers[0].mounts + AllMounts(before);
    }
  }

  /** The mounts whose names have not been seen, each name once. */
  function Unseen(mounts: seq<VolumeMount>, seen: set<string>): seq<VolumeMount> {
    if mounts == [] then []
    else if mounts[0].name in seen then Unseen(mounts[1..], seen)
    else [mounts[0]] + Unseen(mounts[1..], seen + {mounts[0].name})
  }

  function VolumeMounts(containers: seq<Container>): seq<VolumeMount> {
    [VolumeMount("podinfo", POD_INFO_PATH)] + Unseen(AllMounts(containers), {})
  }

  method CollectMounts(containers: seq<Container>) returns (volumeMounts: seq<VolumeMount>)
    ensures volumeMounts == VolumeMounts(containers)
  {
    volumeMounts := [VolumeMount("podinfo", POD_INFO_PATH)];
    var mountNamesAdded: set<string> := {};
    assert containers[0..] == containers;
    for i := 0 to |containers|
      invariant volumeMounts + Unseen(AllMounts(containers[i..]), mountNamesAdded) == VolumeMounts(containers)
    {
      var mounts := containers[i].mounts;
      ghost var later := AllMounts(containers[i + 1..]);
      assert containers[i..][1..] == containers[i + 1..];
      assert mounts[0..] == mounts;
      for j := 0 to |mounts|
        invariant volumeMounts + Unseen(mounts[j..] + later, mountNamesAdded) == VolumeMounts(containers)
      {
        var vm := mounts[j];
        NextMount(volumeMounts, mounts, j, later, mountNamesAdded);
        if vm.name in mountNamesAdded {
          continue;
        }
        volumeMounts := volumeMounts + [vm];
        mountNamesAdded := mountNamesAdded + {vm.name};
      }
      assert mounts[|mounts|..] + later == later;
    }
  }

  lemma UnseenStep(before: seq<VolumeMount>, vm: VolumeMount, later: seq<VolumeMount>, seen: set<string>)
    ensures before + Unseen([vm] + later, seen)
            == if vm.name in seen then before + Unseen(later, seen)
               else (before + [vm]) + Unseen(later, seen + {vm.name})
  {
    assert ([vm] + later)[1..] == later;
    assert before + ([vm] + Unseen(later, seen + {vm.name})) == (before + [vm]) + Unseen(later, seen + {vm.name});
  }

  lemma NextMount(
    before: seq<VolumeMount>, mounts: seq<VolumeMount>, j: nat, later: seq<VolumeMount>, seen: set<string>)
    requires j < |mounts|
    ensures before + Unseen(mounts[j..] + later, seen)
            == if mounts[j].name in seen then before + Unseen(mounts[j + 1..] + later, seen)
               else (before + [mounts[j]]) + Unseen(mounts[j + 1..] + later, seen + {mounts[j].name})
  {
    assert mounts[j..] + later == [mounts[j]] + (mounts[j + 1..] + later);
    UnseenStep(before, mounts[j], mounts[j + 1..] + later, seen);
  }

  predicate IsFirst(mounts: seq<VolumeMount>, seen: set<string>, i: int) {
    && 0 <= i < |mounts| && mounts[i].name !in seen
    && forall k :: 0 <= k < i ==> mounts[k].name != mounts[i].name
  }

  /** `picked` are the mounts at the positions where a name occurs first, in order, and `at` lists
      exactly these positions. */
  ghost predicate Picks(mounts: seq<VolumeMount>, seen: set<string>, picked: seq<VolumeMount>, at: seq<nat>) {
    && |at| == |picked|
    && (forall k :: 0 <= k < |at| ==> IsFirst(mounts, seen, at[k]) && picked[k] == mounts[at[k]])
    && (forall j, k :: 0 <= j < k < |at| ==> at[j] < at[k])
    && (forall i: nat :: IsFirst(mounts, seen, i) ==> i in at)
  }

  ghost function Shifted(at: seq<nat>): seq<nat> {
    seq(|at|, k requires 0 <= k < |at| => at[k] + 1)
  }

  /** Collecting mounts is a stable first-occurrence deduplication by volume name. */
  lemma {:induction false} UnseenMeaning(mounts: seq<VolumeMount>, seen: set<string>) returns (at: seq<nat>)
    ensures Picks(mounts, seen, Unseen(mounts, seen), at)
  {
    if mounts == [] {
      at := [];
    } else {
      var first := mounts[0].name;
      assert first in seen ==> seen + {first} == seen;
      var rest := UnseenMeaning(mounts[1..], seen + {first});
      PicksBehind(mounts, seen, Unseen(mounts[1..], seen + {first}), rest);
      at := (if first in seen then [] else [0]) + Shifted(rest);
    }
  }

  lemma PicksBehind(mounts: seq<VolumeMount>, seen: set<string>, picked: seq<VolumeMount>, rest: seq<nat>)
    requires mounts != [] && Picks(mounts[1..], seen + {mounts[0].name}, picked, rest)
    ensures mounts[0].name in seen ==> Picks(mounts, seen, picked, [] + Shifted(rest))
    ensures mounts[0].name !in seen ==> Picks(mounts, seen, [mounts[0]] + picked, [0] + Shifted(rest))
  {
    ShiftedPicks(mounts, seen, picked, rest);
    if mounts[0].name in seen {
      SeenIsSkipped(mounts, seen, picked, Shifted(rest));
    } else {
      FirstIsPicked(mounts, seen, picked, Shifted(rest));
    }
  }

  lemma SeenIsSkipped(mounts: seq<VolumeMount>, seen: set<string>, picked: seq<VolumeMount>, s: seq<nat>)
    requires mounts != [] && mounts[0].name in seen && |s| == |picked|
    requires forall k :: 0 <= k < |s| ==> s[k] > 0 && IsFirst(mounts, seen, s[k]) && picked[k] == mounts[s[k]]
    requires forall j, k :: 0 <= j < k < |s| ==> s[j] < s[k]
    requires forall i: nat :: IsFirst(mounts, seen, i) && i > 0 ==> i in s
    ensures Picks(mounts, seen, picked, [] + s)
  {
    assert [] + s == s;
    assert !IsFirst(mounts, seen, 0);
  }

  lemma FirstIsPicked(mounts: seq<VolumeMount>, seen: set<string>, picked: seq<VolumeMount>, s: seq<nat>)
    requires mounts != [] && mounts[0].name !in seen && |s| == |picked|
    requires forall k :: 0 <= k < |s| ==> s[k] > 0 && IsFirst(mounts, seen, s[k]) && picked[k] == mounts[s[k]]
    requires forall j, k :: 0 <= j < k < |s| ==> s[j] < s[k]
    requires forall i: nat :: IsFirst(mounts, seen, i) && i > 0 ==> i in s
    ensures Picks(mounts, seen, [mounts[0]] + picked, [0] + s)
  {
    var at, all := [0] + s, [mounts[0]] + picked;
    forall k | 0 <= k < |at| ensures IsFirst(mounts, seen, at[k]) && all[k] == mounts[at[k]] {
      if k > 0 {
        assert at[k] == s[k - 1] && all[k] == picked[k - 1];
      }
    }
    forall j, k | 0 <= j < k < |at| ensures at[j] < at[k] {
      assert at[k] == s[k - 1];
      if j > 0 {
        assert at[j] == s[j - 1];
      }
    }
    forall i: nat | IsFirst(mounts, seen, i) ensures i in at {
      assert i == 0 || i in s;
    }
  }

  lemma ShiftedPicks(mounts: seq<VolumeMount>, seen: set<string>, picked: seq<VolumeMount>, rest: seq<nat>)
    requires mounts != [] && Picks(mounts[1..], seen + {mounts[0].name}, picked, rest)
    ensures var s := Shifted(rest);
            && |s| == |picked|
            && (forall k :: 0 <= k < |s| ==> s[k] > 0 && IsFirst(mounts, seen, s[k]) && picked[k] == mounts[s[k]])
            && (forall j, k :: 0 <= j < k < |s| ==> s[j] < s[k])
            && (forall i: nat :: IsFirst(mounts, seen, i) && i > 0 ==> i in s)
  {
    FirstOfRest(mounts, seen);
    var s := Shifted(rest);
    forall k | 0 <= k < |s| ensures s[k] > 0 && IsFirst(mounts, seen, s[k]) && picked[k] == mounts[s[k]] {
      assert IsFirst(mounts[1..], seen + {mounts[0].name}, s[k] - 1);
      assert mounts[1..][rest[k]] == mounts[s[k]];
    }
    ShiftedIsComplete(mounts, seen, rest);
  }

  lemma ShiftedIsComplete(mounts: seq<VolumeMount>, seen: set<string>, rest: seq<nat>)
    requires mounts != [] && forall i: nat :: IsFirst(mounts[1..], seen + {mounts[0].name}, i) ==> i in rest
    ensures forall i: nat :: IsFirst(mounts, seen, i) && i > 0 ==> i in Shifted(rest)
  {
    FirstOfRest(mounts, seen);
    forall i: nat | IsFirst(mounts, seen, i) && i > 0 ensures i in Shifted(rest) {
      assert IsFirst(mounts[1..], seen + {mounts[0].name}, i - 1);
      var k :| 0 <= k < |rest| && rest[k] == i - 1;
      assert Shifted(rest)[k] == i;
    }
  }

  lemma FirstOfRest(mounts: seq<VolumeMount>, seen: set<string>)
    requires mounts != []
    ensures forall i: int :: i > 0 ==> (IsFirst(mounts, seen, i) <==> IsFirst(mounts[1..], seen + {mounts[0].name}, i - 1))
  {
    forall i: int | i > 0
      ensures IsFirst(mounts, seen, i) <==> IsFirst(mounts[1..], seen + {mounts[0].name}, i - 1)
    {
      var rest := mounts[1..];
      if IsFirst(mounts, seen, i) {
        assert mounts[0].name != mounts[i].name;
        assert forall k :: 0 <= k < i - 1 ==> rest[k] == mounts[k + 1];
      }
      if IsFirst(rest, seen + {mounts[0].name}, i - 1) {
        assert rest[i - 1] == mounts[i];
        forall k | 0 <= k < i ensures mounts[k].name != mounts[i].name {
          assert k > 0 ==> rest[k - 1] == mounts[k];
        }
      }
    }
  }

  // ---- Arguments ----

  predicate Registered(m: VolumeMount) {
    m.mountPath != POD_INFO_PATH && m.mountPath != SERVICE_ACCOUNT_PATH
  }

  function MountPaths(mounts: seq<VolumeMount>): seq<string> {
    if mounts == [] then []
    else (if Registered(mounts[0]) then [mounts[0].mountPath] else []) + MountPaths(mounts[1..])
  }

  /** The links of mounted config maps are ignored. */
  function LinkPatterns(paths: seq<string>): seq<string> {
    if paths == [] then [] else [paths[0] + "/..*", paths[0] + "/..**/*"] + LinkPatterns(paths[1..])
  }

  function UserPatterns(pod: Pod): seq<string> {
    if REGISTER_FILE_IGNORE_PATHS_ANNOTATION in pod.annotations
    then Split(pod.annotations[REGISTER_FILE_IGNORE_PATHS_ANNOTATION], ",") else []
  }

  predicate Registers(pod: Pod) {
    REGISTER_ANNOTATION in pod.annotations
  }

  function IgnorePaths(pod: Pod): seq<string> {
    UserPatterns(pod) + if Registers(pod) then LinkPatterns(MountPaths(VolumeMounts(pod.containers))) else []
  }

  function CommandOf(pod: Pod): string {
    if Registers(pod) then REGISTER else THREAT_SCAN
  }

  function BaseFlags(config: Config): seq<Flag> {
    [Flag("host", config.host),
     Flag("port", config.port),
     Flag("namespace", "$(NAMESPACE)"),
     Flag("pod-name", "$(POD_NAME)"),
     Flag("pod-uid", "$(POD_UID)"),
     Flag("pod-labels-file", "/etc/podinfo/labels")]
  }

  function RegisterFlags(pod: Pod): seq<Flag> {
    if Registers(pod)
    then [Flag(REGISTER_RULES, pod.annotations[REGISTER_ANNOTATION]),
          Flag(FILE_PATHS, Join(MountPaths(VolumeMounts(pod.containers)), ","))]
    else []
  }

  function IgnoreFlags(pod: Pod): seq<Flag> {
    if IgnorePaths(pod) == [] then [] else [Flag(IGNORE_PATHS, Join(IgnorePaths(pod), ","))]
  }

  function IntervalFlags(pod: Pod): seq<Flag> {
    if FILE_VALIDATION_INTERVAL_ANNOTATION in pod.annotations
    then [Flag(INTERVAL, pod.annotations[FILE_VALIDATION_INTERVAL_ANNOTATION])] else []
  }

  /** What comes after the paths to register. */
  function LastFlags(pod: Pod): seq<Flag> {
    IgnoreFlags(pod) + IntervalFlags(pod)
  }

  /** The flags after the command. */
  function Flags(config: Config, pod: Pod): seq<Flag> {
    BaseFlags(config) + RegisterFlags(pod) + LastFlags(pod)
  }

  function AgentArgs(config: Config, pod: Pod): seq<string> {
    [Print(Flag("log-formatter", config.logEncoding)), CommandOf(pod)] + PrintAll(Flags(config, pod))
  }

  function AgentContainer(config: Config, pod: Pod): Container {
    Container(config.name, config.image, AgentArgs(config, pod), VolumeMounts(pod.containers))
  }

  predicate HasContainer(containers: seq<Container>, name: string) {
    exists i :: 0 <= i < |containers| && containers[i].name == name
  }

  function Injected(config: Config, pod: Pod): Response {
    if (THREAT_SCAN_ANNOTATION !in pod.annotations && !Registers(pod)) || HasContainer(pod.containers, config.name)
    then Allowed
    else Patched(Pod(pod.annotations, pod.containers + [AgentContainer(config, pod)], pod.volumes + ["podinfo"]))
  }

  method BuildArgs(config: Config, pod: Pod, volumeMounts: seq<VolumeMount>) returns (args: seq<string>)
    requires volumeMounts == VolumeMounts(pod.containers)
    ensures args == AgentArgs(config, pod)
  {
    var podAgentCommand := THREAT_SCAN;
    if REGISTER_ANNOTATION in pod.annotations {
      podAgentCommand := REGISTER;
    }
    args := [Print(Flag("log-formatter", config.logEncoding)), podAgentCommand];
    ghost var lead := args;
    args := args + [Print(Flag("host", config.host)),
                    Print(Flag("port", config.port)),
                    Print(Flag("namespace", "$(NAMESPACE)")),
                    Print(Flag("pod-name", "$(POD_NAME)")),
                    Print(Flag("pod-uid", "$(POD_UID)")),
                    Print(Flag("pod-labels-file", "/etc/podinfo/labels"))];
    ghost var flags := BaseFlags(config);
    assert args == lead + PrintAll(flags) by {
      PrintedAt(flags);
    }
    var ignorePaths := UserPatterns(pod);
    if REGISTER_ANNOTATION in pod.annotations {
      args := args + [Print(Flag(REGISTER_RULES, pod.annotations[REGISTER_ANNOTATION]))];
      var mountPaths, patterns := CollectPaths(volumeMounts);
      ignorePaths := ignorePaths + patterns;
      args := args + [Print(Flag(FILE_PATHS, Join(mountPaths, ",")))];
      PrintTwoMore(lead, flags, RegisterFlags(pod));
    }
    PrintMore(lead, flags, RegisterFlags(pod));
    flags := flags + RegisterFlags(pod);
    assert args == lead + PrintAll(flags) && ignorePaths == IgnorePaths(pod);
    if |ignorePaths| > 0 {
      args := args + [Print(Flag(IGNORE_PATHS, Join(ignorePaths, ",")))];
    }
    PrintMore(lead, flags, IgnoreFlags(pod));
    flags := flags + IgnoreFlags(pod);
    assert args == lead + PrintAll(flags);
    if FILE_VALIDATION_INTERVAL_ANNOTATION in pod.annotations {
      args := args + [Print(Flag(INTERVAL, pod.annotations[FILE_VALIDATION_INTERVAL_ANNOTATION]))];
    }
    PrintMore(lead, flags, IntervalFlags(pod));
    Associate(BaseFlags(config) + RegisterFlags(pod), IgnoreFlags(pod), IntervalFlags(pod));
  }

  lemma PrintMore(lead: seq<string>, flags: seq<Flag>, more: seq<Flag>)
    ensures more == [] ==> lead + PrintAll(flags + more) == lead + PrintAll(flags)
    ensures |more| == 1 ==> lead + PrintAll(flags + more) == lead + PrintAll(flags) + [Print(more[0])]
  {
    PrintAppend(flags, more);
    PrintedAt(more);
  }

  lemma PrintTwoMore(lead: seq<string>, flags: seq<Flag>, more: seq<Flag>)
    requires |more| == 2
    ensures lead + PrintAll(flags + more) == lead + PrintAll(flags) + [Print(more[0])] + [Print(more[1])]
  {
    PrintAppend(flags, more);
    PrintedAt(more);
  }

  /** Answers an admission request for a pod. */
  method Handle(config: Config, pod: Pod) returns (response: Response)
    ensures response == Injected(config, pod)
  {
    if THREAT_SCAN_ANNOTATION !in pod.annotations && REGISTER_ANNOTATION !in pod.annotations {
      return Allowed;
    }
    for i := 0 to |pod.containers|
      invariant forall k :: 0 <= k < i ==> pod.containers[k].name != config.name
    {
      if pod.containers[i].name == config.name {
        return Allowed;
      }
    }
    var volumeMounts := CollectMounts(pod.containers);
    var args := BuildArgs(config, pod, volumeMounts);
    response := Patched(Pod(pod.annotations,
                            pod.containers + [Container(config.name, config.image, args, volumeMounts)],
                            pod.volumes + ["podinfo"]));
  }

  lemma {:induction false} PrintedAt(flags: seq<Flag>)
    ensures |PrintAll(flags)| == |flags|
    ensures forall i :: 0 <= i < |flags| ==> PrintAll(flags)[i] == Print(flags[i])
  {
    if flags != [] {
      PrintedAt(flags[1..]);
    }
  }

  method CollectPaths(volumeMounts: seq<VolumeMount>) returns (mountPaths: seq<string>, patterns: seq<string>)
    ensures mountPaths == MountPaths(volumeMounts) && patterns == LinkPatterns(mountPaths)
  {
    mountPaths, patterns := [], [];
    for i := 0 to |volumeMounts|
      invariant mountPaths == MountPaths(volumeMounts[..i]) && patterns == LinkPatterns(mountPaths)
    {
      var path := volumeMounts[i].mountPath;
      MountPathsAppend(volumeMounts[..i], volumeMounts[i]);
      assert volumeMounts[..i + 1] == volumeMounts[..i] + [volumeMounts[i]];
      if path != POD_INFO_PATH && path != SERVICE_ACCOUNT_PATH {
        LinkPatternsAppend(mountPaths, path);
        mountPaths := mountPaths + [path];
        patterns := patterns + [path + "/..*"];
        patterns := patterns + [path + "/..**/*"];
      }
    }
    assert volumeMounts[..|volumeMounts|] == volumeMounts;
  }

  lemma {:induction false} MountPathsAppend(mounts: seq<VolumeMount>, m: VolumeMount)
    ensures MountPaths(mounts + [m]) == MountPaths(mounts) + if Registered(m) then [m.mountPath] else []
  {
    if mounts == [] {
      assert mounts + [m] == [m];
    } else {
      MountPathsAppend(mounts[1..], m);
      assert (mounts + [m])[1..] == mounts[1..] + [m];
    }
  }

  lemma {:induction false} LinkPatternsAppend(paths: seq<string>, path: string)
    ensures LinkPatterns(paths + [path]) == LinkPatterns(paths) + [path + "/..*", path + "/..**/*"]
  {
    if paths == [] {
      assert paths + [path] == [path];
    } else {
      LinkPatternsAppend(paths[1..], path);
      assert (paths + [path])[1..] == paths[1..] + [path];
    }
  }

  function IsCollected(): VolumeMount -> bool {
    (m: VolumeMount) =>
      m.mountPath != "/etc/podinfo" && m.mountPath != "/var/run/secrets/kubernetes.io/serviceaccount"
  }

  /** The paths to register are, in order, those of the mounts other than pod info and service account. */
  lemma {:induction false} MountPathsMeaning(mounts: seq<VolumeMount>)
    ensures var collected := Filter(IsCollected(), mounts);
            && |MountPaths(mounts)| == |collected|
            && forall i :: 0 <= i < |collected| ==> MountPaths(mounts)[i] == collected[i].mountPath
  {
    if mounts != [] {
      MountPathsMeaning(mounts[1..]);
    }
  }

  /** Each path has two patterns, one after the other. */
  lemma {:induction false} LinkPatternsMeaning(paths: seq<string>)
    ensures |LinkPatterns(paths)| == 2 * |paths|
    ensures forall i :: 0 <= i < |paths| ==>
              LinkPatterns(paths)[2 * i] == paths[i] + "/..*" && LinkPatterns(paths)[2 * i + 1] == paths[i] + "/..**/*"
  {
    if paths != [] {
      LinkPatternsMeaning(paths[1..]);
      forall i | 0 < i < |paths|
        ensures LinkPatterns(paths)[2 * i] == paths[i] + "/..*" && LinkPatterns(paths)[2 * i + 1] == paths[i] + "/..**/*"
      {
        assert paths[i] == paths[1..][i - 1];
      }
    }
  }

  /** What the webhook does to a pod: it adds one container and one volume behind those there are, exactly if
      an annotation asks for it and no container has the name. The container mounts the pod info, and of the
      pod's mounts, in order, those of each name that comes first. */
  lemma InjectionMeaning(config: Config, pod: Pod) returns (at: seq<nat>)
    ensures Injected(config, pod).Patched? <==>
              && ("pod-agent.k8s.tarian.dev/threat-scan" in pod.annotations
                  || "pod-agent.k8s.tarian.dev/register" in pod.annotations)
              && forall c :: c in pod.containers ==> c.name != config.name
    ensures Injected(config, pod).Patched? ==>
              var (patched, n) := (Injected(config, pod).pod, |pod.containers|);
              && patched.annotations == pod.annotations && patched.volumes == pod.volumes + ["podinfo"]
              && |patched.containers| == n + 1 && patched.containers[..n] == pod.containers
              && var agent := patched.containers[n];
                 && agent.name == config.name && agent.image == config.image
                 && agent.args == AgentContainer(config, pod).args
                 && agent.mounts != [] && agent.mounts[0] == VolumeMount("podinfo", "/etc/podinfo")
                 && Picks(AllMounts(pod.containers), {}, agent.mounts[1..], at)
  {
    at := UnseenMeaning(AllMounts(pod.containers), {});
    if c :| c in pod.containers && c.name == config.name {
      var i :| 0 <= i < |pod.containers| && pod.containers[i] == c;
      assert pod.containers[i].name == config.name;
    }
  }

  // ---- From the webhook to the agent ----

  predicate Plain(name: string) {
    name != "" && name[0] != '-' && name[0] != 'l' && '=' !in name
  }

  lemma NamesArePlain()
    ensures Plain("host") && Plain("port") && Plain("namespace") && Plain("pod-name") && Plain("pod-uid")
    ensures Plain("pod-labels-file") && Plain(INTERVAL)
    ensures Plain(REGISTER_RULES) && Plain(FILE_PATHS) && Plain(IGNORE_PATHS)
  {
  }

  lemma FlagsAreWellformed(config: Config, pod: Pod)
    ensures forall f :: f in Flags(config, pod) ==>
              Wellformed(f) && f.name != "log-formatter" && f.name != "log-level"
  {
    NamesArePlain();
    forall f | f in Flags(config, pod)
      ensures Wellformed(f) && f.name != "log-formatter" && f.name != "log-level"
    {
      assert f in BaseFlags(config) || f in RegisterFlags(pod) || f in IgnoreFlags(pod) || f in IntervalFlags(pod);
      assert Plain(f.name);
    }
  }

  /** The command accepts the webhook's flags exactly if the ignore list goes to the registering agent
      only, and the interval is a duration. */
  lemma FlagsAcceptedExactly(config: Config, pod: Pod, isDuration: string -> bool)
    ensures (forall f :: f in Flags(config, pod) ==> Accepts(CommandOf(pod), isDuration, f)) <==>
              && (Registers(pod) || REGISTER_FILE_IGNORE_PATHS_ANNOTATION !in pod.annotations)
              && (FILE_VALIDATION_INTERVAL_ANNOTATION in pod.annotations ==>
                    isDuration(pod.annotations[FILE_VALIDATION_INTERVAL_ANNOTATION]))
  {
    var all := Flags(config, pod);
    assert forall f :: f in all <==>
      f in BaseFlags(config) || f in RegisterFlags(pod) || f in IgnoreFlags(pod) || f in IntervalFlags(pod);
    assert forall f :: f in BaseFlags(config) ==> Accepts(CommandOf(pod), isDuration, f) by {
      assert INTERVAL[0] == 'f';
    }
    IgnoreAcceptedExactly(pod, isDuration);
    assert forall f :: f in IntervalFlags(pod) ==>
      f == Flag(INTERVAL, pod.annotations[FILE_VALIDATION_INTERVAL_ANNOTATION]);
    if FILE_VALIDATION_INTERVAL_ANNOTATION in pod.annotations {
      assert IntervalFlags(pod)[0] in all;
    }
  }

  lemma IgnoreAcceptedExactly(pod: Pod, isDuration: string -> bool)
    ensures (forall f :: f in IgnoreFlags(pod) ==> Accepts(CommandOf(pod), isDuration, f)) <==>
              Registers(pod) || REGISTER_FILE_IGNORE_PATHS_ANNOTATION !in pod.annotations
    ensures forall f :: f in RegisterFlags(pod) ==> Accepts(CommandOf(pod), isDuration, f)
  {
    ListNamesDiffer();
    if REGISTER_FILE_IGNORE_PATHS_ANNOTATION in pod.annotations {
      SplitLength(pod.annotations[REGISTER_FILE_IGNORE_PATHS_ANNOTATION], ',');
      assert IgnoreFlags(pod)[0] in IgnoreFlags(pod);
    }
    assert IGNORE_PATHS in Defined(CommandOf(pod)) <==> Registers(pod) by {
      assert IGNORE_PATHS[0] == 'r' && forall n :: n in Defined(THREAT_SCAN) ==> n[0] != 'r';
    }
  }

  predicate StartsUp(config: Config, pod: Pod, isDuration: string -> bool) {
    && config.logEncoding in {"json", "text"}
    && (Registers(pod) || REGISTER_FILE_IGNORE_PATHS_ANNOTATION !in pod.annotations)
    && (FILE_VALIDATION_INTERVAL_ANNOTATION in pod.annotations ==>
          isDuration(pod.annotations[FILE_VALIDATION_INTERVAL_ANNOTATION]))
  }

  /** An injected agent gets past its command line exactly if the log encoding is one it knows, it is not
      handed an ignore list in threat-scan mode, and its interval is a duration. */
  lemma AgentStartsExactly(config: Config, pod: Pod, isDuration: string -> bool)
    ensures ParseCommandLine(isDuration, AgentContainer(config, pod).args)
            == if StartsUp(config, pod, isDuration)
               then Some(CommandLine(CommandOf(pod),
                                     Values(AllFlags(config, pod))))
               else None
  {
    FlagsAreWellformed(config, pod);
    FlagsAcceptedExactly(config, pod, isDuration);
    PrintedLineIsParsed(isDuration, Flag("log-formatter", config.logEncoding), CommandOf(pod), Flags(config, pod));
    AssociateFour([Flag("log-formatter", config.logEncoding)], BaseFlags(config), RegisterFlags(pod), LastFlags(pod));
  }

  /** An input: to scan for threats and to ignore some paths. The webhook injects an agent that refuses its
      arguments. */
  lemma ThreatScanRefusesIgnorePaths(config: Config, containers: seq<Container>, volumes: seq<string>, isDuration: string -> bool)
    requires !HasContainer(containers, config.name)
    ensures var pod := Pod(map[THREAT_SCAN_ANNOTATION := "true", REGISTER_FILE_IGNORE_PATHS_ANNOTATION := "a"],
                           containers, volumes);
            && Injected(config, pod).Patched?
            && ParseCommandLine(isDuration, AgentContainer(config, pod).args) == None
  {
    var pod := Pod(map[THREAT_SCAN_ANNOTATION := "true", REGISTER_FILE_IGNORE_PATHS_ANNOTATION := "a"],
                   containers, volumes);
    AgentStartsExactly(config, pod, isDuration);
    assert |REGISTER_ANNOTATION| < |REGISTER_FILE_IGNORE_PATHS_ANNOTATION|;
    assert REGISTER_ANNOTATION != THREAT_SCAN_ANNOTATION by {
      assert REGISTER_ANNOTATION[25] == 'r' && THREAT_SCAN_ANNOTATION[25] == 't';
    }
  }

  // ---- From the webhook to the agent ----

  /** What a registering agent that starts reads from the container the webhook injects. */
  lemma ArgumentsArrive(config: Config, pod: Pod, isDuration: string -> bool) returns (line: CommandLine)
    requires Registers(pod)
    requires ParseCommandLine(isDuration, AgentContainer(config, pod).args).Some?
    ensures Some(line) == ParseCommandLine(isDuration, AgentContainer(config, pod).args)
    ensures line.command == REGISTER
    ensures line.Value("pod-labels-file", "") == "/etc/podinfo/labels"
    ensures line.Value(REGISTER_RULES, "") == pod.annotations[REGISTER_ANNOTATION]
    ensures line.Value(FILE_PATHS, "") == Join(MountPaths(VolumeMounts(pod.containers)), ",")
    ensures line.Value(IGNORE_PATHS, "") == Join(IgnorePaths(pod), ",")
  {
    AgentStartsExactly(config, pod, isDuration);
    line := ParseCommandLine(isDuration, AgentContainer(config, pod).args).value;
    RegisterValues(config, pod);
    IgnoreValue(LeadFlags(config), RegisterFlags(pod), pod);
    LeadHasNoLists(config);
    ListNamesDiffer();
  }

  /** Whatever its command, an agent that starts reads the server's address as configured, and the pod's name,
      namespace and UID from variables, whose values Kubernetes puts in. */
  lemma SettingsArrive(config: Config, pod: Pod, isDuration: string -> bool) returns (line: CommandLine)
    requires ParseCommandLine(isDuration, AgentContainer(config, pod).args).Some?
    ensures Some(line) == ParseCommandLine(isDuration, AgentContainer(config, pod).args)
    ensures line.command
            == if "pod-agent.k8s.tarian.dev/register" in pod.annotations then "register" else "threat-scan"
    ensures line.Value("host", "") == config.host && line.Value("port", "") == config.port
    ensures line.Value("namespace", "") == "$(NAMESPACE)" && line.Value("pod-name", "") == "$(POD_NAME)"
    ensures line.Value("pod-uid", "") == "$(POD_UID)" && line.Value("pod-labels-file", "") == "/etc/podinfo/labels"
  {
    AgentStartsExactly(config, pod, isDuration);
    line := ParseCommandLine(isDuration, AgentContainer(config, pod).args).value;
    LeadArrives(config, pod);
    LeadSpelled(config);
    forall i | 1 <= i < 7
      ensures line.Value(LeadFlags(config)[i].name, "") == LeadFlags(config)[i].value
    {}
  }

  lemma LeadSpelled(config: Config)
    ensures var lead := LeadFlags(config);
            && |lead| == 7
            && lead[1] == Flag("host", config.host) && lead[2] == Flag("port", config.port)
            && lead[3] == Flag("namespace", "$(NAMESPACE)") && lead[4] == Flag("pod-name", "$(POD_NAME)")
            && lead[5] == Flag("pod-uid", "$(POD_UID)") && lead[6] == Flag("pod-labels-file", "/etc/podinfo/labels")
  {
  }

  lemma LeadArrives(config: Config, pod: Pod)
    ensures forall i :: 0 <= i < |LeadFlags(config)| ==>
              && LeadFlags(config)[i].name in Values(AllFlags(config, pod))
              && Values(AllFlags(config, pod))[LeadFlags(config)[i].name] == LeadFlags(config)[i].value
  {
    LeadNamesDiffer(config);
    LaterNames(pod);
    LeadHolds(LeadFlags(config), RegisterFlags(pod) + LastFlags(pod));
    Associate(LeadFlags(config), RegisterFlags(pod), LastFlags(pod));
  }

  /** The names of the flags after the base ones begin with other letters. */
  predicate NamedLater(f: Flag) {
    f.name in {REGISTER_RULES, FILE_PATHS, IGNORE_PATHS, INTERVAL}
  }

  lemma LaterNames(pod: Pod)
    ensures forall f :: f in RegisterFlags(pod) + LastFlags(pod) ==> NamedLater(f)
  {
  }

  lemma LeadNamesDiffer(config: Config)
    ensures |LeadFlags(config)| == 7
    ensures forall i, j :: 0 <= i < j < 7 ==> LeadFlags(config)[i].name != LeadFlags(config)[j].name
    ensures forall f :: f in LeadFlags(config) ==> !NamedLater(f)
  {
    assert |"host"| == |"port"| && "host"[0] != "port"[0];
    assert |"pod-name"| < |"namespace"| < |"log-formatter"| < |"pod-labels-file"|;
    forall f | f in LeadFlags(config) ensures !NamedLater(f) {
      assert f.name[0] != REGISTER_RULES[0] && f.name[0] != FILE_PATHS[0];
      assert f.name[0] != IGNORE_PATHS[0] && f.name[0] != INTERVAL[0];
    }
  }

  lemma LeadHolds(lead: seq<Flag>, later: seq<Flag>)
    requires forall i, j :: 0 <= i < j < |lead| ==> lead[i].name != lead[j].name
    requires forall f, g :: f in lead && g in later ==> f.name != g.name
    ensures forall i :: 0 <= i < |lead| ==>
              lead[i].name in Values(lead + later) && Values(lead + later)[lead[i].name] == lead[i].value
  {
    var all := lead + later;
    forall i | 0 <= i < |lead| ensures lead[i].name in Values(all) && Values(all)[lead[i].name] == lead[i].value {
      forall j | i < j < |all| ensures all[j].name != all[i].name {
        assert j >= |lead| ==> all[j] in later;
        assert lead[i] in lead;
      }
      LastHolds(all, i);
    }
  }

  function LeadFlags(config: Config): seq<Flag> {
    [Flag("log-formatter", config.logEncoding)] + BaseFlags(config)
  }

  /** All flags of an injected agent, the one before the command included. */
  function AllFlags(config: Config, pod: Pod): seq<Flag> {
    LeadFlags(config) + RegisterFlags(pod) + LastFlags(pod)
  }

  lemma AssociateFour<T>(a: seq<T>, b: seq<T>, c: seq<T>, d: seq<T>)
    ensures a + (b + c + d) == a + b + c + d
  {
  }

  lemma LastNames(pod: Pod)
    ensures forall f :: f in LastFlags(pod) ==> f.name == IGNORE_PATHS || f.name == INTERVAL
    ensures IgnorePaths(pod) == [] ==> forall f :: f in LastFlags(pod) ==> f.name == INTERVAL
    ensures IgnorePaths(pod) != [] ==> LastFlags(pod) != [] && LastFlags(pod)[0] == IgnoreFlags(pod)[0]
    ensures IgnorePaths(pod) != [] ==> forall f :: f in LastFlags(pod)[1..] ==> f.name == INTERVAL
  {
  }

  /** Three lists in one, of which the first two have seven elements and two. */
  lemma Places(lead: seq<Flag>, register: seq<Flag>, last: seq<Flag>)
    requires |lead| == 7 && |register| == 2
    ensures var all := lead + register + last;
            && all[6] == lead[6] && all[7] == register[0] && all[8] == register[1] && all[9..] == last
            && (forall f :: f in all ==> f in lead || f == register[0] || f == register[1] || f in last)
  {
  }

  /** In such a list the flags before the last ones hold, if the names differ. */
  lemma FewHold(lead: seq<Flag>, register: seq<Flag>, last: seq<Flag>)
    requires |lead| == 7 && |register| == 2
    requires register[0].name != register[1].name
    requires lead[6].name != register[0].name && lead[6].name != register[1].name
    requires forall f :: f in last ==> f.name !in {lead[6].name, register[0].name, register[1].name}
    ensures var values := Values(lead + register + last);
            && lead[6].name in values && values[lead[6].name] == lead[6].value
            && register[0].name in values && values[register[0].name] == register[0].value
            && register[1].name in values && values[register[1].name] == register[1].value
  {
    var all := lead + register + last;
    Places(lead, register, last);
    assert forall j :: 9 <= j < |all| ==> all[j] == last[j - 9];
    LastHolds(all, 6);
    LastHolds(all, 7);
    LastHolds(all, 8);
  }

  lemma RegisterValues(config: Config, pod: Pod)
    requires Registers(pod)
    ensures var values := Values(AllFlags(config, pod));
            && REGISTER_RULES in values && values[REGISTER_RULES] == pod.annotations[REGISTER_ANNOTATION]
            && FILE_PATHS in values && values[FILE_PATHS] == Join(MountPaths(VolumeMounts(pod.containers)), ",")
            && "pod-labels-file" in values && values["pod-labels-file"] == "/etc/podinfo/labels"
  {
    ListNamesDiffer();
    LastNames(pod);
    var lead, register := LeadFlags(config), RegisterFlags(pod);
    assert lead[6] == Flag("pod-labels-file", "/etc/podinfo/labels");
    FewHold(lead, register, LastFlags(pod));
  }

  lemma IgnoreValue(lead: seq<Flag>, register: seq<Flag>, pod: Pod)
    requires |lead| == 7 && |register| == 2
    ensures var values := Values(lead + register + LastFlags(pod));
            && (IgnorePaths(pod) != [] ==>
                  IGNORE_PATHS in values && values[IGNORE_PATHS] == Join(IgnorePaths(pod), ","))
            && (IgnorePaths(pod) == [] && (forall f :: f in lead + register ==> f.name != IGNORE_PATHS) ==>
                  IGNORE_PATHS !in values)
  {
    var all, last := lead + register + LastFlags(pod), LastFlags(pod);
    LastNames(pod);
    ListNamesDiffer();
    if IgnorePaths(pod) != [] {
      assert all[9] == last[0];
      forall j | 9 < j < |all| ensures all[j].name == INTERVAL {
        assert all[j] == last[1..][j - 10];
      }
      LastHolds(all, 9);
    } else if forall f :: f in lead + register ==> f.name != IGNORE_PATHS {
      ValuesNames(all);
      assert forall f :: f in all ==> f in lead + register || f in last;
    }
  }

  lemma ListNamesDiffer()
    ensures "pod-labels-file" !in {REGISTER_RULES, FILE_PATHS, IGNORE_PATHS, INTERVAL}
    ensures REGISTER_RULES != FILE_PATHS && REGISTER_RULES != IGNORE_PATHS && FILE_PATHS != IGNORE_PATHS
    ensures INTERVAL != REGISTER_RULES && INTERVAL != FILE_PATHS && INTERVAL != IGNORE_PATHS
  {
    assert |REGISTER_RULES| < |"pod-labels-file"| < |FILE_PATHS| < |INTERVAL| < |IGNORE_PATHS|;
  }

  lemma LeadHasNoLists(config: Config)
    ensures forall f :: f in LeadFlags(config) ==> f.name != IGNORE_PATHS
  {
    forall f | f in LeadFlags(config) ensures f.name[0] != IGNORE_PATHS[0] {}
  }

  /** The paths that a registering agent visits are the mount paths the webhook collected, exactly if
      there is one and none has a comma or outer spaces. */
  lemma MountPathsArrive(config: Config, pod: Pod, isDuration: string -> bool)
    requires Registers(pod)
    requires ParseCommandLine(isDuration, AgentContainer(config, pod).args).Some?
    ensures var line := ParseCommandLine(isDuration, AgentContainer(config, pod).args).value;
            var paths := MountPaths(VolumeMounts(pod.containers));
            PodLabels.ListValue(line.Value(FILE_PATHS, "")) == paths <==>
              paths != [] && forall p :: p in paths ==> ',' !in p && Trimmed(p, IsSpace)
  {
    var line := ArgumentsArrive(config, pod, isDuration);
    PodLabels.ListRoundTrip(MountPaths(VolumeMounts(pod.containers)));
  }

  /** The link patterns of a path arrive as they are exactly if it has no comma and does not begin with
      a space. */
  predicate LinksArrive(path: string) {
    ',' !in path && (path == "" || !IsSpace(path[0]))
  }

  lemma LinkArrives(path: string, link: string)
    requires link == "/..*" || link == "/..**/*"
    ensures ',' in path + link <==> ',' in path
    ensures TrimSpace(path + link) == path + link <==> path == "" || !IsSpace(path[0])
  {
    TrimFixpoint(path + link, IsSpace);
    assert (path + link)[|path + link| - 1] == '*';
  }

  lemma {:induction false} LinkPatternsArrive(paths: seq<string>)
    ensures (forall q :: q in LinkPatterns(paths) ==> ',' !in q && TrimSpace(q) == q) <==>
              forall p :: p in paths ==> LinksArrive(p)
    ensures LinkPatterns(paths) == [] <==> paths == []
  {
    if paths != [] {
      var first, rest := [paths[0] + "/..*", paths[0] + "/..**/*"], LinkPatterns(paths[1..]);
      LinkPatternsArrive(paths[1..]);
      LinkArrives(paths[0], "/..*");
      LinkArrives(paths[0], "/..**/*");
      assert paths == [paths[0]] + paths[1..];
      assert LinkPatterns(paths) == first + rest;
      assert first[0] in first && first[1] in first;
      assert forall q :: q in first + rest <==> q == first[0] || q == first[1] || q in rest;
      assert LinksArrive(paths[0]) <==> ',' !in first[0] && TrimSpace(first[0]) == first[0];
      assert LinksArrive(paths[0]) <==> ',' !in first[1] && TrimSpace(first[1]) == first[1];
    }
  }

  lemma TrimmedAlready(items: seq<string>)
    ensures Map(PodLabels.Trimming(), items) == items <==> forall q :: q in items ==> TrimSpace(q) == q
  {
    var f := PodLabels.Trimming();
    if Map(f, items) == items {
      forall q | q in items ensures TrimSpace(q) == q {
        var i :| 0 <= i < |items| && items[i] == q;
        assert Map(f, items)[i] == f(items[i]);
      }
    }
  }

  /** The ignore list of a registering agent is the user's patterns, trimmed, then two patterns for each
      mount path, in order - exactly if there is a pattern at all, and no mount path has a comma or a
      leading space. */
  lemma IgnorePathsArrive(config: Config, pod: Pod, isDuration: string -> bool)
    requires Registers(pod)
    requires ParseCommandLine(isDuration, AgentContainer(config, pod).args).Some?
    ensures var line := ParseCommandLine(isDuration, AgentContainer(config, pod).args).value;
            var paths := MountPaths(VolumeMounts(pod.containers));
            var user := if "pod-agent.k8s.tarian.dev/register-file-ignore-paths" in pod.annotations
                        then Split(pod.annotations["pod-agent.k8s.tarian.dev/register-file-ignore-paths"], ",") else [];
            PodLabels.ListValue(line.Value(IGNORE_PATHS, "")) == Map(PodLabels.Trimming(), user) + LinkPatterns(paths)
            <==> (user != [] || paths != []) && forall p :: p in paths ==> LinksArrive(p)
  {
    var line := ArgumentsArrive(config, pod, isDuration);
    var paths := MountPaths(VolumeMounts(pod.containers));
    var user, links := UserPatterns(pod), LinkPatterns(paths);
    assert IgnorePaths(pod) == user + links;
    LinkPatternsArrive(paths);
    UserPatternsLackCommas(pod);
    ListArrives(user, links);
  }

  lemma UserPatternsLackCommas(pod: Pod)
    ensures forall item :: item in UserPatterns(pod) ==> ',' !in item
  {
    if REGISTER_FILE_IGNORE_PATHS_ANNOTATION in pod.annotations {
      forall item | item in UserPatterns(pod) ensures ',' !in item {
        PieceLacksSeparator(pod.annotations[REGISTER_FILE_IGNORE_PATHS_ANNOTATION], ',', item);
      }
    }
  }

  /** Items of which the first few are to be trimmed arrive exactly if the others stand trimmed. */
  lemma ListArrives(user: seq<string>, links: seq<string>)
    requires forall item :: item in user ==> ',' !in item
    ensures PodLabels.ListValue(Join(user + links, ",")) == Map(PodLabels.Trimming(), user) + links <==>
              user + links != [] && forall q :: q in links ==> ',' !in q && TrimSpace(q) == q
  {
    var all, f := user + links, PodLabels.Trimming();
    SplitUndoesJoin(all, ',');
    MapAppend(f, user, links);
    if all == [] {
      NoIndex("", ',');
    } else if q :| q in all && ',' in q {
      assert q in links;
      assert |PodLabels.ListValue(Join(all, ","))| > |all|;
    } else {
      TrimmedAlready(links);
      forall q | q in links ensures q in all {}
      assert PodLabels.ListValue(Join(all, ",")) == Map(f, user) + Map(f, links);
      assert (Map(f, user) + Map(f, links))[|user|..] == Map(f, links);
      assert (Map(f, user) + links)[|user|..] == links;
    }
  }

  /** Injecting is idempotent: a pod that has been patched is let through as it is. */
  lemma SecondInjectionDoesNothing(config: Config, pod: Pod)
    requires Injected(config, pod).Patched?
    ensures Injected(config, Injected(config, pod).pod) == Allowed
  {
    var patched := Injected(config, pod).pod;
    assert patched.containers[|pod.containers|].name == config.name;
  }
}
