/** The pod agent: it syncs constraints, registers file checksums and validates files. */
module PodAgent {
  import opened Model
  import opened Seqs
  import opened ConfigServer
  import opened FileRegistration

  // ---- The loops of the agent as functions ----

  predicate Ignored(glob: (string, string) -> bool, patterns: seq<string>, path: string) {
    exists i :: 0 <= i < |patterns| && glob(patterns[i], path)
  }

  function NotIgnored(glob: (string, string) -> bool, patterns: seq<string>): string -> bool {
    path => !Ignored(glob, patterns, path)
  }

  /** The files below a root, in walking order; nothing for a root that does not exist. */
  type Walk = string -> Option<seq<string>>

  /** At a root that does not exist the walk hands a missing directory entry to the callback, whose
      first statement then crashes the agent. */
  predicate MissesRoot(walk: Walk, roots: seq<string>) {
    exists i :: 0 <= i < |roots| && walk(roots[i]).None?
  }

  /** The files a pass visits: under every root in turn up to a missing one, in walking order, without
      ignored ones. */
  function Visited(walk: Walk, glob: (string, string) -> bool, patterns: seq<string>, roots: seq<string>): seq<string> {
    if roots == [] || walk(roots[0]).None? then []
    else Filter(NotIgnored(glob, patterns), walk(roots[0]).value) + Visited(walk, glob, patterns, roots[1..])
  }

  lemma {:induction false} VisitedSnoc(
    walk: Walk, glob: (string, string) -> bool, patterns: seq<string>, roots: seq<string>, root: string)
    ensures Visited(walk, glob, patterns, roots + [root])
            == Visited(walk, glob, patterns, roots)
               + if MissesRoot(walk, roots) || walk(root).None? then []
                 else Filter(NotIgnored(glob, patterns), walk(root).value)
  {
    var all := roots + [root];
    if roots == [] {
      assert all == [root] && all[1..] == [];
    } else {
      assert all[0] == roots[0] && all[1..] == roots[1..] + [root];
      VisitedSnoc(walk, glob, patterns, roots[1..], root);
      MissesLater(walk, roots);
    }
  }

  lemma MissesLater(walk: Walk, roots: seq<string>)
    requires roots != []
    ensures MissesRoot(walk, roots) <==> walk(roots[0]).None? || MissesRoot(walk, roots[1..])
  {
    if i :| 0 <= i < |roots| && walk(roots[i]).None? {
      assert i > 0 ==> walk(roots[1..][i - 1]).None?;
    }
  }

  /** The `j`-th file below the `i`-th root is one to visit: no root up to this one is missing, and no pattern
      matches the file. */
  ghost predicate IsPlace(
    walk: Walk, glob: (string, string) -> bool, patterns: seq<string>, roots: seq<string>, i: nat, j: nat)
  {
    && i < |roots| && (forall k :: 0 <= k <= i ==> walk(roots[k]).Some?)
    && j < |walk(roots[i]).value|
    && forall k :: 0 <= k < |patterns| ==> !glob(patterns[k], walk(roots[i]).value[j])
  }

  /** `at` lists the places of `files` in order: all the places of files to visit, and no others. */
  ghost predicate ListsPlaces(
    walk: Walk, glob: (string, string) -> bool, patterns: seq<string>, roots: seq<string>, files: seq<string>,
    at: seq<(nat, nat)>)
  {
    && |at| == |files|
    && (forall k :: 0 <= k < |at| ==>
          IsPlace(walk, glob, patterns, roots, at[k].0, at[k].1) && files[k] == walk(roots[at[k].0]).value[at[k].1])
    && (forall j, k :: 0 <= j < k < |at| ==> at[j].0 < at[k].0 || (at[j].0 == at[k].0 && at[j].1 < at[k].1))
    && (forall i: nat, j: nat :: IsPlace(walk, glob, patterns, roots, i, j) ==> (i, j) in at)
  }

  /** A pass goes from root to root up to the first missing one, below each in walking order, and leaves out
      exactly the files that a pattern matches. */
  lemma {:induction false} VisitedPlaces(
    walk: Walk, glob: (string, string) -> bool, patterns: seq<string>, roots: seq<string>) returns (at: seq<(nat, nat)>)
    ensures ListsPlaces(walk, glob, patterns, roots, Visited(walk, glob, patterns, roots), at)
  {
    if roots == [] {
      at := [];
    } else {
      var n := |roots| - 1;
      var before, root := roots[..n], roots[n];
      assert roots == before + [root];
      VisitedSnoc(walk, glob, patterns, before, root);
      at := VisitedPlaces(walk, glob, patterns, before);
      if MissesRoot(walk, before) || walk(root).None? {
        PlacesAtMissing(walk, glob, patterns, before, root, Visited(walk, glob, patterns, before), at);
      } else {
        var below := FilterPlaces(NotIgnored(glob, patterns), walk(root).value);
        PlacesBelow(walk, glob, patterns, before, root, Visited(walk, glob, patterns, before), at,
                    Filter(NotIgnored(glob, patterns), walk(root).value), below);
        at := at + Beside(n, below);
      }
    }
  }

  lemma PlacesOfMore(
    walk: Walk, glob: (string, string) -> bool, patterns: seq<string>, roots: seq<string>, root: string, i: nat, j: nat)
    ensures IsPlace(walk, glob, patterns, roots + [root], i, j) <==>
              || IsPlace(walk, glob, patterns, roots, i, j)
              || (i == |roots| && !MissesRoot(walk, roots) && walk(root).Some? && j < |walk(root).value|
                  && !Ignored(glob, patterns, walk(root).value[j]))
    ensures i < |roots| ==> (roots + [root])[i] == roots[i]
  {
    var all := roots + [root];
    assert forall k :: 0 <= k < |roots| ==> all[k] == roots[k];
    assert all[|roots|] == root;
  }

  lemma PlacesAtMissing(
    walk: Walk, glob: (string, string) -> bool, patterns: seq<string>, roots: seq<string>, root: string,
    files: seq<string>, at: seq<(nat, nat)>)
    requires ListsPlaces(walk, glob, patterns, roots, files, at)
    requires MissesRoot(walk, roots) || walk(root).None?
    ensures ListsPlaces(walk, glob, patterns, roots + [root], files, at)
  {
    forall i: nat, j: nat
      ensures IsPlace(walk, glob, patterns, roots + [root], i, j) <==> IsPlace(walk, glob, patterns, roots, i, j)
      ensures i < |roots| ==> (roots + [root])[i] == roots[i]
    {
      PlacesOfMore(walk, glob, patterns, roots, root, i, j);
    }
  }

  /** `below` lists the places of `kept` among `paths`, which are those that no pattern matches. */
  ghost predicate Picks(
    glob: (string, string) -> bool, patterns: seq<string>, paths: seq<string>, kept: seq<string>, below: seq<nat>)
  {
    && |below| == |kept|
    && (forall k :: 0 <= k < |below| ==>
          below[k] < |paths| && !Ignored(glob, patterns, paths[below[k]]) && kept[k] == paths[below[k]])
    && (forall j, k :: 0 <= j < k < |below| ==> below[j] < below[k])
    && (forall i: nat :: i < |paths| && !Ignored(glob, patterns, paths[i]) ==> i in below)
  }

  function Beside(n: nat, below: seq<nat>): (at: seq<(nat, nat)>)
    ensures |at| == |below|
    ensures forall k :: 0 <= k < |below| ==> at[k] == (n, below[k])
  {
    seq(|below|, k requires 0 <= k < |below| => (n, below[k]))
  }

  lemma PlacesBelow(
    walk: Walk, glob: (string, string) -> bool, patterns: seq<string>, roots: seq<string>, root: string,
    files: seq<string>, at: seq<(nat, nat)>, kept: seq<string>, below: seq<nat>)
    requires ListsPlaces(walk, glob, patterns, roots, files, at)
    requires !MissesRoot(walk, roots) && walk(root).Some? && Picks(glob, patterns, walk(root).value, kept, below)
    ensures ListsPlaces(walk, glob, patterns, roots + [root], files + kept, at + Beside(|roots|, below))
  {
    var all := at + Beside(|roots|, below);
    forall k | 0 <= k < |all|
      ensures IsPlace(walk, glob, patterns, roots + [root], all[k].0, all[k].1)
      ensures (files + kept)[k] == walk((roots + [root])[all[k].0]).value[all[k].1]
    {
      PlacesOfMore(walk, glob, patterns, roots, root, all[k].0, all[k].1);
    }
    forall i: nat, j: nat | IsPlace(walk, glob, patterns, roots + [root], i, j) ensures (i, j) in all {
      PlacesOfMore(walk, glob, patterns, roots, root, i, j);
      if i == |roots| {
        var k :| 0 <= k < |below| && below[k] == j;
        assert Beside(|roots|, below)[k] == (i, j);
      }
    }
    forall k | 0 <= k < |at| ensures at[k].0 < |roots| {
      assert IsPlace(walk, glob, patterns, roots, at[k].0, at[k].1);
    }
    BesideIsLater(at, |roots|, below);
  }

  lemma BesideIsLater(at: seq<(nat, nat)>, n: nat, below: seq<nat>)
    requires forall k :: 0 <= k < |at| ==> at[k].0 < n
    requires forall j, k :: 0 <= j < k < |at| ==> at[j].0 < at[k].0 || (at[j].0 == at[k].0 && at[j].1 < at[k].1)
    requires forall j, k :: 0 <= j < k < |below| ==> below[j] < below[k]
    ensures var all := at + Beside(n, below);
            forall j, k :: 0 <= j < k < |all| ==>
              all[j].0 < all[k].0 || (all[j].0 == all[k].0 && all[j].1 < all[k].1)
  {
  }

  /** A pass visits exactly the files below the roots before the first missing one that no pattern matches. */
  lemma VisitedMembers(
    walk: Walk, glob: (string, string) -> bool, patterns: seq<string>, roots: seq<string>, p: string)
    ensures p in Visited(walk, glob, patterns, roots) <==>
              exists i :: 0 <= i < |roots| && (forall k :: 0 <= k <= i ==> walk(roots[k]).Some?)
                          && p in walk(roots[i]).value && forall k :: 0 <= k < |patterns| ==> !glob(patterns[k], p)
  {
    var at := VisitedPlaces(walk, glob, patterns, roots);
    var files := Visited(walk, glob, patterns, roots);
    if p in files {
      var k :| 0 <= k < |files| && files[k] == p;
      assert IsPlace(walk, glob, patterns, roots, at[k].0, at[k].1);
    }
    if i :| 0 <= i < |roots| && (forall k :: 0 <= k <= i ==> walk(roots[k]).Some?)
            && p in walk(roots[i]).value && forall k :: 0 <= k < |patterns| ==> !glob(patterns[k], p) {
      var j :| 0 <= j < |walk(roots[i]).value| && walk(roots[i]).value[j] == p;
      assert IsPlace(walk, glob, patterns, roots, i, j);
      var k :| 0 <= k < |at| && at[k] == (i, j);
    }
  }

  /** Removing, in snapshot order, the constraints with a name prefix, up to the first error. */
  function DeleteRun(down: nat -> bool, namespace: string, rest: seq<Constraint>, prefix: string, db: Db): (Db, bool)
    decreases |rest|
  {
    if rest == [] then (db, false)
    else if prefix <= rest[0].name then
      var (after, reply) := Remove(down, db, namespace, rest[0].name);
      if reply.Error? then (after, true) else DeleteRun(down, namespace, rest[1..], prefix, after)
    else DeleteRun(down, namespace, rest[1..], prefix, db)
  }

  /** The database after the constraints of a file have been replaced by one for a checksum. */
  function Replace(down: nat -> bool, ps: Pass, snapshot: seq<Constraint>, path: string, sum: Digest, db: Db): Db {
    var cleared := if path in ps.registered
                   then DeleteRun(down, ps.agent.namespace, snapshot, Prefix(ps.agent, path), db).0
                   else db;
    Add(down, cleared, Some(Auto(ps.agent, path, sum))).0
  }

  /** The database after one visit of a file. */
  function Visit(down: nat -> bool, ps: Pass, snapshot: seq<Constraint>, path: string, db: Db): Db {
    if Needs(ps, path) then Replace(down, ps, snapshot, path, Checksum(ps.agent, ps.files, path), db) else db
  }

  lemma {:induction false} RegisteringIsDeleteRun(
    down: nat -> bool, ps: Pass, snapshot: seq<Constraint>, path: string, sum: Digest, rest: seq<Constraint>,
    todo: seq<string>, db: Db)
    ensures Finish(down, ps, snapshot, Pc(todo, Registering(path, sum, rest)), db)
            == Finish(down, ps, snapshot, Pc(todo, Registering(path, sum, [])),
                      DeleteRun(down, ps.agent.namespace, rest, Prefix(ps.agent, path), db).0)
    decreases |rest|
  {
    if rest != [] {
      if Prefix(ps.agent, path) <= rest[0].name {
        var (after, reply) := Remove(down, db, ps.agent.namespace, rest[0].name);
        if !reply.Error? {
          RegisteringIsDeleteRun(down, ps, snapshot, path, sum, rest[1..], todo, after);
        }
      } else {
        RegisteringIsDeleteRun(down, ps, snapshot, path, sum, rest[1..], todo, db);
      }
    }
  }

  /** From the beginning of the deletion on, the steps of the state machine replace the constraints. */
  lemma ChosenIsReplaced(
    down: nat -> bool, ps: Pass, snapshot: seq<Constraint>, path: string, sum: Digest, todo: seq<string>, db: Db)
    ensures Finish(down, ps, snapshot, Pc(todo, Chosen(path, sum)), db)
            == Finish(down, ps, snapshot, Pc(todo, Idle), Replace(down, ps, snapshot, path, sum, db))
  {
    RegisteringIsDeleteRun(down, ps, snapshot, path, sum, ToScan(ps, snapshot, path), todo, db);
  }

  /** The steps of the state machine for one file amount to one visit. */
  lemma VisitIsFinish(
    down: nat -> bool, ps: Pass, snapshot: seq<Constraint>, path: string, todo: seq<string>, db: Db)
    ensures Finish(down, ps, snapshot, Pc([path] + todo, Idle), db)
            == Finish(down, ps, snapshot, Pc(todo, Idle), Visit(down, ps, snapshot, path, db))
  {
    assert ([path] + todo)[1..] == todo;
    if Needs(ps, path) {
      ChosenIsReplaced(down, ps, snapshot, path, Checksum(ps.agent, ps.files, path), todo, db);
    }
  }

  lemma NextVisited(keep: string -> bool, paths: seq<string>, j: nat, later: seq<string>)
    requires j < |paths|
    ensures Filter(keep, paths[j..]) + later
            == if keep(paths[j]) then [paths[j]] + (Filter(keep, paths[j + 1..]) + later)
               else Filter(keep, paths[j + 1..]) + later
  {
    assert paths[j..][1..] == paths[j + 1..];
  }

  class PodAgent {
    const sha256: string -> Digest
    var podName: string
    var namespace: string
    var podLabels: seq<Label>
    var constraints: seq<Constraint>
    var constraintsInitialized: bool
    var registerFilePaths: seq<string>
    var registerFileIgnorePaths: seq<string>

    constructor (sha256: string -> Digest)
      ensures this.sha256 == sha256 && constraints == [] && !constraintsInitialized
    {
      this.sha256 := sha256;
      podName, namespace, podLabels := "", "", [];
      constraints, constraintsInitialized := [], false;
      registerFilePaths, registerFileIgnorePaths := [], [];
    }

    function Identity(): Agent
      reads this
    {
      Agent(podName, namespace, podLabels, sha256)
    }

    method SyncConstraints(server: Server)
      modifies this`constraints, this`constraintsInitialized, server.store
      ensures (server.store.State(), constraints)
              == Get(server.store.down, old(server.store.State()), namespace, podLabels)
      ensures constraintsInitialized
    {
      var received := server.GetConstraints(namespace, podLabels);
      constraints := received;
      constraintsInitialized := true;
    }

    /** Reports exactly the violations that the specification names. */
    method ValidateFileChecksums(files: Files) returns (violatedFiles: map<string, Violation>)
      ensures violatedFiles == Violations(Identity(), files, constraints)
    {
      violatedFiles := map[];
      var allowedFiles: set<string> := {};
      for i := 0 to |constraints|
        invariant Sorted(Identity(), files, AllRules(constraints[..i]), violatedFiles, allowedFiles)
      {
        AllRulesSnoc(constraints, i);
        violatedFiles, allowedFiles :=
          CheckRules(files, AllRules(constraints[..i]), constraints[i].allowedFiles, violatedFiles, allowedFiles);
      }
      assert constraints[..|constraints|] == constraints;
      SortedIsViolations(Identity(), files, constraints, violatedFiles, allowedFiles);
      violatedFiles := violatedFiles - allowedFiles;
    }

    /** The inner loop, over the rules of one constraint; `before` are the rules of earlier ones. */
    method CheckRules(
      files: Files, ghost before: seq<FileRule>, rules: seq<FileRule>, violated: map<string, Violation>,
      allowed: set<string>) returns (violatedFiles: map<string, Violation>, allowedFiles: set<string>)
      requires Sorted(Identity(), files, before, violated, allowed)
      ensures Sorted(Identity(), files, before + rules, violatedFiles, allowedFiles)
    {
      violatedFiles, allowedFiles := violated, allowed;
      assert before + rules[..0] == before;
      for j := 0 to |rules|
        invariant Sorted(Identity(), files, before + rules[..j], violatedFiles, allowedFiles)
      {
        var rule := rules[j];
        SortedStep(Identity(), files, before + rules[..j], violatedFiles, allowedFiles, rule);
        TakeNext(before, rules, j);
        if rule.name == "" || rule.sha256Sum == "" {
          continue;
        }
        var actual := Checksum(Identity(), files, rule.name);
        if actual == rule.sha256Sum {
          allowedFiles := allowedFiles + {rule.name};
        } else {
          violatedFiles := violatedFiles[rule.name := Violation(rule.name, rule.sha256Sum, actual)];
        }
      }
      assert rules[..|rules|] == rules;
    }

    method DeleteConstraintByNamePrefix(server: Server, prefix: string) returns (err: bool)
      modifies server.store
      ensures (server.store.State(), err)
              == DeleteRun(server.store.down, namespace, constraints, prefix, old(server.store.State()))
    {
      err := false;
      var i := 0;
      while i < |constraints|
        invariant 0 <= i <= |constraints|
        invariant DeleteRun(server.store.down, namespace, constraints[i..], prefix, server.store.State())
                  == DeleteRun(server.store.down, namespace, constraints, prefix, old(server.store.State()))
      {
        assert constraints[i..][1..] == constraints[i + 1..];
        if prefix <= constraints[i].name {
          var reply := server.RemoveConstraint(namespace, constraints[i].name);
          if reply.Error? {
            return true;
          }
        }
        i := i + 1;
      }
    }

    method CreateConstraintWithFileRule(server: Server, constraintName: string, path: string, sum: Digest)
      returns (reply: Reply)
      modifies server.store
      ensures (server.store.State(), reply)
              == Add(server.store.down, old(server.store.State()),
                     Some(Constraint(namespace, constraintName, podLabels, [], [FileRule(path, sum)])))
    {
      reply := server.AddConstraint(Some(Constraint(namespace, constraintName, podLabels, [], [FileRule(path, sum)])));
    }

    /** One pass, undisturbed; `glob` matches a pattern. */
    method RegisterFileChecksums(server: Server, files: Files, walk: Walk, glob: (string, string) -> bool)
      returns (crashed: bool)
      modifies server.store
      ensures crashed <==> MissesRoot(walk, registerFilePaths)
      ensures server.store.State()
              == Finish(server.store.down, Pass(Identity(), files, Registered(constraints)), constraints,
                        Pc(Visited(walk, glob, registerFileIgnorePaths, registerFilePaths), Idle),
                        old(server.store.State()))
    {
      var registered := RegisteredSums();
      ghost var ps := Pass(Identity(), files, registered);
      ghost var down := server.store.down;
      ghost var end := Finish(down, ps, constraints,
                              Pc(Visited(walk, glob, registerFileIgnorePaths, registerFilePaths), Idle),
                              server.store.State());
      var i := 0;
      while i < |registerFilePaths|
        invariant 0 <= i <= |registerFilePaths|
        invariant forall k :: 0 <= k < i ==> walk(registerFilePaths[k]).Some?
        invariant Finish(down, ps, constraints,
                         Pc(Visited(walk, glob, registerFileIgnorePaths, registerFilePaths[i..]), Idle),
                         server.store.State()) == end
      {
        assert registerFilePaths[i..][1..] == registerFilePaths[i + 1..];
        var paths := walk(registerFilePaths[i]);
        if paths.None? {
          return true;
        }
        RegisterBelow(server, files, registered, glob, paths.value,
                      Visited(walk, glob, registerFileIgnorePaths, registerFilePaths[i + 1..]));
        i := i + 1;
      }
      crashed := false;
    }

    /** The walk below one root; `later` are the files the pass visits after it. */
    method RegisterBelow(
      server: Server, files: Files, registered: map<string, string>, glob: (string, string) -> bool,
      paths: seq<string>, ghost later: seq<string>)
      modifies server.store
      ensures var ps := Pass(Identity(), files, registered);
              Finish(server.store.down, ps, constraints,
                     Pc(Filter(NotIgnored(glob, registerFileIgnorePaths), paths) + later, Idle), old(server.store.State()))
              == Finish(server.store.down, ps, constraints, Pc(later, Idle), server.store.State())
    {
      ghost var down := server.store.down;
      ghost var ps := Pass(Identity(), files, registered);
      ghost var keep := NotIgnored(glob, registerFileIgnorePaths);
      assert paths[0..] == paths;
      var j := 0;
      while j < |paths|
        invariant 0 <= j <= |paths|
        invariant Finish(down, ps, constraints, Pc(Filter(keep, paths[j..]) + later, Idle), server.store.State())
                  == Finish(down, ps, constraints, Pc(Filter(keep, paths) + later, Idle), old(server.store.State()))
      {
        ghost var rest := Filter(keep, paths[j + 1..]) + later;
        NextVisited(keep, paths, j, later);
        var ignored := IsIgnored(glob, paths[j]);
        if !ignored {
          VisitIsFinish(down, ps, constraints, paths[j], rest, server.store.State());
          VisitFile(server, files, registered, paths[j]);
        }
        j := j + 1;
      }
      assert Filter(keep, paths[j..]) + later == later;
    }

    method IsIgnored(glob: (string, string) -> bool, path: string) returns (ignored: bool)
      ensures ignored == Ignored(glob, registerFileIgnorePaths, path)
    {
      for i := 0 to |registerFileIgnorePaths|
        invariant forall k :: 0 <= k < i ==> !glob(registerFileIgnorePaths[k], path)
      {
        if glob(registerFileIgnorePaths[i], path) {
          return true;
        }
      }
      return false;
    }

    method RegisteredSums() returns (sums: map<string, string>)
      ensures sums == Registered(constraints)
    {
      sums := map[];
      ghost var rules := [];
      for i := 0 to |constraints|
        invariant rules == AllRules(constraints[..i]) && sums == LastSums(rules)
      {
        var allowed := constraints[i].allowedFiles;
        for j := 0 to |allowed|
          invariant rules == AllRules(constraints[..i]) + allowed[..j] && sums == LastSums(rules)
        {
          LastSumsSnoc(rules, allowed[j]);
          TakeNext(AllRules(constraints[..i]), allowed, j);
          rules := rules + [allowed[j]];
          if allowed[j].name == "" || allowed[j].sha256Sum == "" {
            continue;
          }
          sums := sums[allowed[j].name := allowed[j].sha256Sum];
        }
        assert allowed[..|allowed|] == allowed;
        AllRulesSnoc(constraints, i);
      }
      assert constraints[..|constraints|] == constraints;
    }

    /** What the walk does at a file that is not ignored. */
    method VisitFile(server: Server, files: Files, registered: map<string, string>, path: string)
      modifies server.store
      ensures server.store.State()
              == Visit(server.store.down, Pass(Identity(), files, registered), constraints, path, old(server.store.State()))
    {
      var actual := Checksum(Identity(), files, path);
      var pathSum := sha256(path)[..10];
      if path in registered {
        if actual != registered[path] {
          var _ := DeleteConstraintByNamePrefix(server, podName + "-" + pathSum + "-");
          var _ := CreateConstraintWithFileRule(server, podName + "-" + pathSum + "-" + actual[..10], path, actual);
        }
      } else {
        var _ := CreateConstraintWithFileRule(server, podName + "-" + pathSum + "-" + actual[..10], path, actual);
      }
    }
  }

  /** The two collections of the validation loop after some rules: a file is allowed if one of them
      has its checksum; otherwise the last usable one is on record as violated. */
  ghost predicate Sorted(
    ag: Agent, files: Files, rules: seq<FileRule>, violated: map<string, Violation>, allowed: set<string>)
  {
    && (forall p :: p in allowed <==> p != "" && FileRule(p, Checksum(ag, files, p)) in rules)
    && (forall p :: p in LastSums(rules) ==> p in violated || p in allowed)
    && (forall p :: p in violated ==> p in LastSums(rules))
    && (forall p :: p in violated && p !in allowed ==>
          violated[p] == Violation(p, LastSums(rules)[p], Checksum(ag, files, p)))
  }

  lemma TakeNext<T>(before: seq<T>, s: seq<T>, j: nat)
    requires j < |s|
    ensures before + s[..j + 1] == before + s[..j] + [s[j]]
  {
  }

  lemma AllRulesSnoc(constraints: seq<Constraint>, i: nat)
    requires i < |constraints|
    ensures AllRules(constraints[..i + 1]) == AllRules(constraints[..i]) + constraints[i].allowedFiles
  {
    assert constraints[..i + 1][..i] == constraints[..i];
  }

  lemma LastSumsSnoc(rules: seq<FileRule>, r: FileRule)
    ensures LastSums(rules + [r]) == if Usable(r) then LastSums(rules)[r.name := r.sha256Sum] else LastSums(rules)
  {
    assert (rules + [r])[..|rules|] == rules;
  }

  lemma SortedStep(
    ag: Agent, files: Files, rules: seq<FileRule>, violated: map<string, Violation>, allowed: set<string>, r: FileRule)
    requires Sorted(ag, files, rules, violated, allowed)
    ensures !Usable(r) ==> Sorted(ag, files, rules + [r], violated, allowed)
    ensures Usable(r) && r.sha256Sum == Checksum(ag, files, r.name) ==>
              Sorted(ag, files, rules + [r], violated, allowed + {r.name})
    ensures Usable(r) && r.sha256Sum != Checksum(ag, files, r.name) ==>
              Sorted(ag, files, rules + [r],
                     violated[r.name := Violation(r.name, r.sha256Sum, Checksum(ag, files, r.name))], allowed)
  {
    LastSumsSnoc(rules, r);
    forall p ensures FileRule(p, Checksum(ag, files, p)) in rules + [r] <==>
                       FileRule(p, Checksum(ag, files, p)) in rules || r == FileRule(p, Checksum(ag, files, p)) {}
  }

  lemma SortedIsViolations(
    ag: Agent, files: Files, constraints: seq<Constraint>, violated: map<string, Violation>, allowed: set<string>)
    requires Sorted(ag, files, AllRules(constraints), violated, allowed)
    ensures violated - allowed == Violations(ag, files, constraints)
  {
    LastSumsMembers(AllRules(constraints));
  }
}
