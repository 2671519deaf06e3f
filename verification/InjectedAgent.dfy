/** From the admission request to the first registration pass: what becomes of an injected agent. */
module InjectedAgent {
  import opened Model
  import opened Strings
  import opened AgentCommand
  import opened ConfigServer
  import FileRegistration
  import Injector
  import PodAgent
  import PodLabels

  /** The rules ask for the registration of files. */
  predicate AsksForFiles(rules: string) {
    exists rule :: rule in Split(rules, ",") && (TrimSpace(rule) == "files" || TrimSpace(rule) == "all")
  }

  /** The label file is unreadable, or has no line with `=`. */
  predicate LabelsMissing(lines: Option<seq<string>>) {
    lines.None? || forall line :: line in lines.value ==> '=' !in line
  }

  /** The loop over the rules to register. */
  method EnablesFiles(rules: string) returns (enableRegisterFiles: bool)
    ensures enableRegisterFiles <==>
              exists rule :: rule in Split(rules, ",") && (TrimSpace(rule) == "files" || TrimSpace(rule) == "all")
  {
    enableRegisterFiles := false;
    var registerRules := Split(rules, ",");
    for i := 0 to |registerRules|
      invariant enableRegisterFiles <==>
        exists k :: 0 <= k < i && (TrimSpace(registerRules[k]) == "files" || TrimSpace(registerRules[k]) == "all")
    {
      if TrimSpace(registerRules[i]) == "files" || TrimSpace(registerRules[i]) == "all" {
        enableRegisterFiles := true;
      }
    }
  }

  /** The register command up to its loops: sets the agent up, or fails over the label file. */
  method RunRegisterCommand(
    line: CommandLine, lines: Option<seq<string>>, hostname: string, agent: PodAgent.PodAgent)
    returns (err: bool, enableRegisterFiles: bool)
    modifies agent
    ensures err <==> line.Value("pod-labels-file", "") != "" && LabelsMissing(lines)
    ensures !err ==>
              && agent.podName == (if line.Value("pod-name", "") != "" then line.Value("pod-name", "") else hostname)
              && agent.namespace == (if line.Value("namespace", "") != "" then line.Value("namespace", "")
                                     else old(agent.namespace))
              && agent.podLabels == (if line.Value("pod-labels-file", "") != ""
                                     then PodLabels.DropFirstHash(PodLabels.ParseLines(lines.value))
                                     else old(agent.podLabels))
              && agent.registerFilePaths == PodLabels.ListValue(line.Value(FILE_PATHS, ""))
              && agent.registerFileIgnorePaths == PodLabels.ListValue(line.Value(IGNORE_PATHS, ""))
              && enableRegisterFiles == AsksForFiles(line.Value(REGISTER_RULES, ""))
    ensures agent.constraints == old(agent.constraints)
  {
    err, enableRegisterFiles := false, false;
    if line.Value("pod-labels-file", "") != "" {
      if lines.None? {
        return true, false;
      }
      var podLabels := PodLabels.ReadLabels(lines.value);
      if podLabels.None? {
        return true, false;
      }
      agent.podLabels := PodLabels.DropTemplateHash(podLabels.value);
    }
    agent.podName := if line.Value("pod-name", "") != "" then line.Value("pod-name", "") else hostname;
    if line.Value("namespace", "") != "" {
      agent.namespace := line.Value("namespace", "");
    }
    enableRegisterFiles := EnablesFiles(line.Value(REGISTER_RULES, ""));
    agent.registerFilePaths := PodLabels.ParseList(line.Value(FILE_PATHS, ""));
    agent.registerFileIgnorePaths := PodLabels.ParseList(line.Value(IGNORE_PATHS, ""));
  }

  /** The webhook collected no path for the agent, or some piece of one, between commas and without outer
      spaces, does not exist. */
  predicate PathMissing(walk: PodAgent.Walk, pod: Injector.Pod) {
    var paths := Injector.MountPaths(Injector.VolumeMounts(pod.containers));
    paths == [] || exists p, piece :: p in paths && piece in Split(p, ",") && walk(TrimSpace(piece)).None?
  }

  /** The roots that a registering agent is handed miss one exactly if there is no collected path or one of
      them is missing: of no path, the agent makes the empty root. */
  lemma RootMissingExactly(walk: PodAgent.Walk, pod: Injector.Pod)
    requires walk("").None?
    ensures var paths := Injector.MountPaths(Injector.VolumeMounts(pod.containers));
            PodAgent.MissesRoot(walk, PodLabels.ListValue(Join(paths, ","))) <==> PathMissing(walk, pod)
  {
    var paths := Injector.MountPaths(Injector.VolumeMounts(pod.containers));
    var pieces, roots := Split(Join(paths, ","), ","), PodLabels.ListValue(Join(paths, ","));
    PiecesOfJoined(paths, ',');
    if paths == [] {
      assert TrimSpace("") == "";
      assert walk(roots[0]).None?;
    } else {
      if PodAgent.MissesRoot(walk, roots) {
        var i :| 0 <= i < |roots| && walk(roots[i]).None?;
        assert pieces[i] in pieces && roots[i] == TrimSpace(pieces[i]);
      }
      if p, piece :| p in paths && piece in Split(p, ",") && walk(TrimSpace(piece)).None? {
        assert piece in pieces;
        var i :| 0 <= i < |pieces| && pieces[i] == piece;
        assert roots[i] == TrimSpace(piece);
      }
    }
  }

  datatype Startup = Refused | LabelsFailed | NoRegistration | Crashed | Registered

  /** An agent injected into a pod with the register annotation, from its arguments to the end of its first
      pass. No path at all is a path that does not exist. */
  method StartRegistering(
    config: Injector.Config, pod: Injector.Pod, isDuration: string -> bool, lines: Option<seq<string>>, hostname: string,
    agent: PodAgent.PodAgent, server: Server, files: FileRegistration.Files, walk: PodAgent.Walk,
    glob: (string, string) -> bool) returns (outcome: Startup)
    requires Injector.Registers(pod) && walk("").None?
    modifies agent, server.store
    ensures outcome == Refused <==> !Injector.StartsUp(config, pod, isDuration)
    ensures outcome == LabelsFailed <==> Injector.StartsUp(config, pod, isDuration) && LabelsMissing(lines)
    ensures outcome == Crashed <==>
              && Injector.StartsUp(config, pod, isDuration) && !LabelsMissing(lines)
              && AsksForFiles(pod.annotations[Injector.REGISTER_ANNOTATION]) && PathMissing(walk, pod)
    ensures outcome == Registered <==>
              && Injector.StartsUp(config, pod, isDuration) && !LabelsMissing(lines)
              && AsksForFiles(pod.annotations[Injector.REGISTER_ANNOTATION]) && !PathMissing(walk, pod)
    ensures if outcome == Registered || outcome == Crashed then
              && agent.registerFilePaths
                 == PodLabels.ListValue(Join(Injector.MountPaths(Injector.VolumeMounts(pod.containers)), ","))
              && agent.registerFileIgnorePaths == PodLabels.ListValue(Join(Injector.IgnorePaths(pod), ","))
              && agent.podLabels == PodLabels.DropFirstHash(PodLabels.ParseLines(lines.value))
              && agent.constraints == old(agent.constraints)
              && server.store.State()
                 == FileRegistration.Finish(
                   server.store.down,
                   FileRegistration.Pass(agent.Identity(), files, FileRegistration.Registered(agent.constraints)),
                   agent.constraints,
                   FileRegistration.Pc(
                     PodAgent.Visited(walk, glob, agent.registerFileIgnorePaths, agent.registerFilePaths),
                     FileRegistration.Idle),
                   old(server.store.State()))
            else server.store.State() == old(server.store.State())
  {
    Injector.AgentStartsExactly(config, pod, isDuration);
    var parsed := ParseCommandLine(isDuration, Injector.AgentContainer(config, pod).args);
    if parsed.None? {
      return Refused;
    }
    ghost var line := Injector.ArgumentsArrive(config, pod, isDuration);
    RootMissingExactly(walk, pod);
    var err, enableRegisterFiles := RunRegisterCommand(parsed.value, lines, hostname, agent);
    if err {
      return LabelsFailed;
    }
    if !enableRegisterFiles {
      return NoRegistration;
    }
    var crashed := agent.RegisterFileChecksums(server, files, walk, glob);
    outcome := if crashed then Crashed else Registered;
  }

  /** An input: a pod without mounts that asks for files to be registered. Its agent crashes. */
  lemma NoMountsCrash(walk: PodAgent.Walk, pod: Injector.Pod)
    requires walk("").None? && pod.containers == []
    ensures PathMissing(walk, pod)
    ensures PodAgent.MissesRoot(walk, PodLabels.ListValue(Join([], ",")))
  {
    assert Injector.VolumeMounts([]) == [Injector.VolumeMount("podinfo", Injector.POD_INFO_PATH)];
    assert Injector.VolumeMounts([])[1..] == [];
    RootMissingExactly(walk, pod);
  }
}
