/** The agent's parts put together: what an agent in register mode registers, an agent in threat-scan
    mode accepts. */
module RegisterMode {
  import opened Model
  import opened Seqs
  import opened ConfigServer
  import opened FileRegistration
  import opened RegistrationProofs
  import opened RegistrationResults
  import PodAgent

  /** An undisturbed pass from a synced snapshot, followed by a sync, leaves every visited file
      accepted - with overlapping roots, and with manual constraints for the same files. */
  lemma UndisturbedPassConverges(
    down: nat -> bool, ag: Agent, paths: set<string>, files: Files, db: Db, todo: seq<string>, p: string)
    requires AlwaysUp(down) && ag.namespace != "" && Distinguished(ag, paths)
    requires Keyed(db.rows) && WellNamed(ag, paths, db.rows)
    requires p in todo && forall q :: q in todo ==> q in paths
    ensures var snapshot := Matching(db.rows, ag.namespace, ag.podLabels);
            var after := Finish(down, Pass(ag, files, Registered(snapshot)), snapshot, Pc(todo, Idle), db);
            var synced := Matching(after.rows, ag.namespace, ag.podLabels);
            Accepted(ag, files, synced, p) && p !in Violations(ag, files, synced)
  {
    var w := World(db, [], files, Pc([], Idle), [], [], {}, {});
    SyncedIsFresh(down, ag, paths, w);
    var synced := Next(down, ag, w, Sync).(db := db);
    BeginHolds(down, ag, paths, synced, todo);
    var begun := Next(down, ag, synced, BeginPass(todo));
    var n := FinishIsRun(down, ag, paths, begun);
    MovesAreOrderly(down, ag, paths, p, begun, n);
    AcceptedExactly(down, ag, paths, begun, Moves(n), p);
    if !Needs(PassOf(ag, begun), p) {
      MovesKeepRules(ag, db.rows, p, Checksum(ag, files, p), n);
    }
  }

  /** The agent's own moves remove nothing on behalf of others. */
  lemma MovesKeepRules(ag: Agent, rows: seq<Constraint>, p: string, sum: Digest, n: nat)
    requires var snapshot := Matching(rows, ag.namespace, ag.podLabels);
             p in Registered(snapshot) && Registered(snapshot)[p] == sum
    ensures Kept(ag, rows, FileRule(p, sum), Moves(n))
  {
    var snapshot := Matching(rows, ag.namespace, ag.podLabels);
    RuleMembers(snapshot);
    LastSumsMembers(AllRules(snapshot));
    var c :| c in snapshot && FileRule(p, sum) in c.allowedFiles;
    assert !Removes(Moves(n), c);
  }

  /** The file stands below a root that exists, as do the roots before it, and no pattern matches it. */
  ghost predicate Covered(
    walk: PodAgent.Walk, glob: (string, string) -> bool, patterns: seq<string>, roots: seq<string>, p: string)
  {
    exists i :: 0 <= i < |roots| && (forall k :: 0 <= k <= i ==> walk(roots[k]).Some?)
                && p in walk(roots[i]).value && forall k :: 0 <= k < |patterns| ==> !glob(patterns[k], p)
  }

  /** No rule gives a checksum of the file. */
  ghost predicate Unlisted(constraints: seq<Constraint>, p: string) {
    forall c, r :: c in constraints && r in c.allowedFiles && r.name == p ==> r.sha256Sum == ""
  }

  /** The constraint, name by name, for a file and its present checksum. */
  function Registration(ag: Agent, files: Files, p: string): Constraint {
    var sum := ag.sha256(if p in files then files[p] else "");
    Constraint(ag.namespace, ag.podName + "-" + ag.sha256(p)[..10] + "-" + sum[..10], ag.podLabels, [],
               [FileRule(p, sum)])
  }

  /** An undisturbed pass from a synced snapshot stores the constraint of an unlisted file that it visits. */
  lemma UnlistedIsStored(
    down: nat -> bool, ag: Agent, paths: set<string>, files: Files, db: Db, todo: seq<string>, p: string)
    requires AlwaysUp(down) && ag.namespace != "" && Distinguished(ag, paths)
    requires Keyed(db.rows) && WellNamed(ag, paths, db.rows)
    requires p in todo && forall q :: q in todo ==> q in paths
    requires Unlisted(Matching(db.rows, ag.namespace, ag.podLabels), p)
    ensures var snapshot := Matching(db.rows, ag.namespace, ag.podLabels);
            Registration(ag, files, p)
            in Finish(down, Pass(ag, files, Registered(snapshot)), snapshot, Pc(todo, Idle), db).rows
  {
    var snapshot := Matching(db.rows, ag.namespace, ag.podLabels);
    var ps := Pass(ag, files, Registered(snapshot));
    var after := Finish(down, ps, snapshot, Pc(todo, Idle), db);
    RuleMembers(snapshot);
    LastSumsMembers(AllRules(snapshot));
    assert Needs(ps, p);
    SyncedIsFresh(down, ag, paths, World(db, [], files, Pc([], Idle), [], [], {}, {}));
    PassMeaning(down, ag, paths, files, snapshot, db.rows, db.calls, todo, p);
    FilterMembers(OwnTest(ag, p), after.rows);
    assert Desired(ps, p) in Own(ag, p, after.rows);
  }

  /** What registration writes is what validation accepts: with a working database, an agent that
      syncs, runs a pass, and syncs again reports no file below its roots that no pattern matches - unless a
      root does not exist, at which the agent crashes in its pass. Also then, what no constraint of the pod
      gave a checksum of is registered of the roots before. */
  method RegisterThenValidate(
    agent: PodAgent.PodAgent, server: Server, files: Files, walk: PodAgent.Walk, glob: (string, string) -> bool,
    ghost paths: set<string>) returns (violated: Option<map<string, Violation>>)
    requires AlwaysUp(server.store.down) && agent.namespace != "" && Distinguished(agent.Identity(), paths)
    requires Keyed(server.store.rows) && WellNamed(agent.Identity(), paths, server.store.rows)
    requires forall p :: Covered(walk, glob, agent.registerFileIgnorePaths, agent.registerFilePaths, p) ==> p in paths
    modifies agent, server.store
    ensures violated.None? <==> exists root :: root in old(agent.registerFilePaths) && walk(root).None?
    ensures violated.Some? ==>
              forall root, p :: root in old(agent.registerFilePaths) && p in walk(root).value
                                && (forall pattern :: pattern in old(agent.registerFileIgnorePaths) ==> !glob(pattern, p))
                                ==> p !in violated.value
    ensures forall p :: Covered(walk, glob, old(agent.registerFileIgnorePaths), old(agent.registerFilePaths), p)
                        && Unlisted(Matching(old(server.store.rows), old(agent.namespace), old(agent.podLabels)), p)
                        ==> Registration(old(agent.Identity()), files, p) in server.store.rows
  {
    ghost var ag, down := agent.Identity(), server.store.down;
    ghost var todo := PodAgent.Visited(walk, glob, agent.registerFileIgnorePaths, agent.registerFilePaths);
    CoveredIsVisited(walk, glob, agent.registerFileIgnorePaths, agent.registerFilePaths);
    SyncsSnapshot(agent, server);
    ghost var snapshot, begun := agent.constraints, server.store.State();
    var crashed := agent.RegisterFileChecksums(server, files, walk, glob);
    ghost var after := server.store.State();
    assert after == Finish(down, Pass(ag, files, Registered(snapshot)), snapshot, Pc(todo, Idle), begun);
    forall p | p in todo && Unlisted(snapshot, p) ensures Registration(ag, files, p) in after.rows {
      UnlistedIsStored(down, ag, paths, files, begun, todo, p);
    }
    if crashed {
      return None;
    }
    SyncsSnapshot(agent, server);
    var found := agent.ValidateFileChecksums(files);
    forall p | p in todo ensures p !in found {
      UndisturbedPassConverges(down, ag, paths, files, begun, todo, p);
    }
    violated := Some(found);
  }

  /** A pass visits what is covered, and misses a root that does not exist. */
  lemma CoveredIsVisited(
    walk: PodAgent.Walk, glob: (string, string) -> bool, patterns: seq<string>, roots: seq<string>)
    ensures PodAgent.MissesRoot(walk, roots) <==> exists root :: root in roots && walk(root).None?
    ensures forall p :: p in PodAgent.Visited(walk, glob, patterns, roots) <==> Covered(walk, glob, patterns, roots, p)
    ensures (forall root :: root in roots ==> walk(root).Some?) ==>
              forall root, p :: root in roots && p in walk(root).value
                                && (forall pattern :: pattern in patterns ==> !glob(pattern, p))
                                ==> Covered(walk, glob, patterns, roots, p)
  {
    forall p ensures p in PodAgent.Visited(walk, glob, patterns, roots) <==> Covered(walk, glob, patterns, roots, p) {
      PodAgent.VisitedMembers(walk, glob, patterns, roots, p);
    }
    if root :| root in roots && walk(root).None? {
      var i :| 0 <= i < |roots| && roots[i] == root;
      assert walk(roots[i]).None?;
    }
  }

  /** With a working database a sync copies the matching constraints. */
  method SyncsSnapshot(agent: PodAgent.PodAgent, server: Server)
    requires AlwaysUp(server.store.down)
    modifies agent`constraints, agent`constraintsInitialized, server.store
    ensures server.store.rows == old(server.store.rows)
    ensures agent.constraints == Matching(server.store.rows, agent.namespace, agent.podLabels)
  {
    assert !server.store.down(server.store.calls);
    agent.SyncConstraints(server);
  }
}
