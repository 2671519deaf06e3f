/** The protocol by which a pod agent registers file checksums at the configuration server, as a
    state machine whose steps are single RPCs. Other clients and the agent's own sync loop may act
    between any two steps. */
module FileRegistration {
  import opened Model
  import opened Seqs
  import opened ConfigServer

  /** A SHA-256 sum in hexadecimal: of its form only the length, and that it has no dash, matter. */
  predicate IsDigest(s: string) {
    |s| == 64 && '-' !in s
  }

  type Digest = s: string | IsDigest(s) witness seq(64, _ => '0')

  type Files = map<string, string>

  datatype Agent = Agent(podName: string, namespace: string, podLabels: seq<Label>, sha256: string -> Digest)

  /** A file that cannot be read has the checksum of empty content. */
  function Checksum(ag: Agent, files: Files, path: string): Digest {
    ag.sha256(if path in files then files[path] else "")
  }

  function Prefix(ag: Agent, path: string): string {
    ag.podName + "-" + ag.sha256(path)[..10] + "-"
  }

  /** The constraint the agent registers for a file with a given checksum. */
  function Auto(ag: Agent, path: string, sum: Digest): Constraint {
    Constraint(ag.namespace, Prefix(ag, path) + sum[..10], ag.podLabels, [], [FileRule(path, sum)])
  }

  // ---- File rules of a list of constraints ----

  function AllRules(constraints: seq<Constraint>): seq<FileRule> {
    if constraints == [] then []
    else AllRules(constraints[..|constraints| - 1]) + constraints[|constraints| - 1].allowedFiles
  }

  predicate Usable(r: FileRule) {
    r.name != "" && r.sha256Sum != ""
  }

  /** The checksum each file name stands registered with: its last usable rule wins. */
  function LastSums(rules: seq<FileRule>): map<string, string> {
    if rules == [] then map[]
    else
      var sums := LastSums(rules[..|rules| - 1]);
      var r := rules[|rules| - 1];
      if Usable(r) then sums[r.name := r.sha256Sum] else sums
  }

  function Registered(constraints: seq<Constraint>): map<string, string> {
    LastSums(AllRules(constraints))
  }

  lemma {:induction false} RuleMembers(constraints: seq<Constraint>)
    ensures forall r :: r in AllRules(constraints) <==> exists c :: c in constraints && r in c.allowedFiles
  {
    if constraints != [] {
      var n := |constraints| - 1;
      RuleMembers(constraints[..n]);
      assert constraints == constraints[..n] + [constraints[n]];
    }
  }

  lemma {:induction false} LastSumsMembers(rules: seq<FileRule>)
    ensures forall p :: p in LastSums(rules) <==> exists r :: r in rules && Usable(r) && r.name == p
    ensures forall p :: p in LastSums(rules) ==> FileRule(p, LastSums(rules)[p]) in rules
  {
    if rules != [] {
      var n := |rules| - 1;
      LastSumsMembers(rules[..n]);
      assert rules == rules[..n] + [rules[n]];
    }
  }

  lemma {:induction false} LastSumsAppend(a: seq<FileRule>, b: seq<FileRule>)
    ensures LastSums(a + b) == LastSums(a) + LastSums(b)
  {
    if b == [] {
      assert a + b == a;
    } else {
      var n := |b| - 1;
      LastSumsAppend(a, b[..n]);
      assert (a + b)[..|a| + n] == a + b[..n] && (a + b)[|a| + n] == b[n];
      PutLast(LastSums(a), LastSums(b[..n]), b[n].name, b[n].sha256Sum);
    }
  }

  lemma {:induction false} LastPlace(rules: seq<FileRule>, p: string) returns (j: nat)
    requires p in LastSums(rules)
    ensures j < |rules| && rules[j] == FileRule(p, LastSums(rules)[p]) && Usable(rules[j])
    ensures forall k :: j < k < |rules| && rules[k].name == p ==> !Usable(rules[k])
  {
    var n := |rules| - 1;
    if Usable(rules[n]) && rules[n].name == p {
      j := n;
    } else {
      j := LastPlace(rules[..n], p);
    }
  }

  /** The `j`-th rule of the `i`-th constraint is the last one, constraint after constraint, that gives a
      checksum of the file. */
  ghost predicate IsLastRule(constraints: seq<Constraint>, path: string, i: nat, j: nat) {
    && i < |constraints| && j < |constraints[i].allowedFiles|
    && constraints[i].allowedFiles[j].name == path != "" && constraints[i].allowedFiles[j].sha256Sum != ""
    && (forall k :: j < k < |constraints[i].allowedFiles| && constraints[i].allowedFiles[k].name == path ==>
          constraints[i].allowedFiles[k].sha256Sum == "")
    && (forall k, r :: i < k < |constraints| && r in constraints[k].allowedFiles && r.name == path ==> r.sha256Sum == "")
  }

  lemma LastRuleIsOne(constraints: seq<Constraint>, path: string, i: nat, j: nat, i': nat, j': nat)
    requires IsLastRule(constraints, path, i, j) && IsLastRule(constraints, path, i', j')
    ensures i == i' && j == j'
  {
  }

  /** What stands registered of a file is the checksum of the last rule that gives one. */
  lemma {:induction false} LastRuleWins(constraints: seq<Constraint>, path: string) returns (i: nat, j: nat)
    requires path in Registered(constraints)
    ensures IsLastRule(constraints, path, i, j)
    ensures Registered(constraints)[path] == constraints[i].allowedFiles[j].sha256Sum
  {
    var n := |constraints| - 1;
    var before, last := constraints[..n], constraints[n].allowedFiles;
    LastSumsAppend(AllRules(before), last);
    if path in LastSums(last) {
      i := n;
      j := LastPlace(last, path);
    } else {
      i, j := LastRuleWins(before, path);
      LastSumsMembers(last);
    }
  }

  // ---- Validation ----

  datatype Violation = Violation(name: string, expected: string, actual: string)

  /** Some rule names the file with the checksum it has now. */
  predicate Accepted(ag: Agent, files: Files, constraints: seq<Constraint>, path: string) {
    FileRule(path, Checksum(ag, files, path)) in AllRules(constraints)
  }

  function Violations(ag: Agent, files: Files, constraints: seq<Constraint>): map<string, Violation> {
    var registered := Registered(constraints);
    map p | p in registered && !Accepted(ag, files, constraints, p)
      :: Violation(p, registered[p], Checksum(ag, files, p))
  }

  /** The reported files are exactly those of which some rule gives a checksum and none gives the checksum
      of the present content, or of empty content if the file cannot be read. */
  lemma ViolationMeaning(ag: Agent, files: Files, constraints: seq<Constraint>, path: string)
    ensures var sum := ag.sha256(if path in files then files[path] else "");
            path in Violations(ag, files, constraints) <==>
              && path != ""
              && (exists c, r :: c in constraints && r in c.allowedFiles && r.name == path && r.sha256Sum != "")
              && (forall c, r :: c in constraints && r in c.allowedFiles && r.name == path ==> r.sha256Sum != sum)
  {
    RuleMembers(constraints);
    LastSumsMembers(AllRules(constraints));
    var sum := Checksum(ag, files, path);
    if path in Violations(ag, files, constraints) {
      var r :| r in AllRules(constraints) && Usable(r) && r.name == path;
      var c :| c in constraints && r in c.allowedFiles;
      forall c, r | c in constraints && r in c.allowedFiles && r.name == path ensures r.sha256Sum != sum {
        assert r in AllRules(constraints);
        assert r == FileRule(path, r.sha256Sum);
      }
    } else if Accepted(ag, files, constraints, path) {
      var c :| c in constraints && FileRule(path, sum) in c.allowedFiles;
      assert FileRule(path, sum).name == path && FileRule(path, sum).sha256Sum == sum;
    } else {
      forall c, r | c in constraints && r in c.allowedFiles ensures !(Usable(r) && r.name == path) {
        assert r in AllRules(constraints);
      }
    }
  }

  /** A report gives the present checksum, and as the expected one that of the last rule with one. */
  lemma ViolationRecord(ag: Agent, files: Files, constraints: seq<Constraint>, path: string) returns (i: nat, j: nat)
    requires path in Violations(ag, files, constraints)
    ensures IsLastRule(constraints, path, i, j)
    ensures Violations(ag, files, constraints)[path]
            == Violation(path, constraints[i].allowedFiles[j].sha256Sum,
                         ag.sha256(if path in files then files[path] else ""))
  {
    i, j := LastRuleWins(constraints, path);
  }

  /** Which files are reported depends on the set of constraints alone: neither their order nor
      repetition matters. */
  lemma ViolationsIgnoreOrder(ag: Agent, files: Files, one: seq<Constraint>, other: seq<Constraint>)
    requires forall c :: c in one <==> c in other
    ensures Violations(ag, files, one).Keys == Violations(ag, files, other).Keys
  {
    forall path ensures path in Violations(ag, files, one) <==> path in Violations(ag, files, other) {
      ViolationMeaning(ag, files, one, path);
      ViolationMeaning(ag, files, other, path);
    }
  }

  /** More constraints never turn an accepted file into a reported one. */
  lemma ValidationIsMonotone(ag: Agent, files: Files, fewer: seq<Constraint>, more: seq<Constraint>, path: string)
    requires forall c :: c in fewer ==> c in more
    requires Accepted(ag, files, fewer, path)
    ensures Accepted(ag, files, more, path) && path !in Violations(ag, files, more)
  {
    RuleMembers(fewer);
    RuleMembers(more);
  }

  // ---- A registration pass, one RPC at a time ----

  /** What a pass works with: the agent, the files, and the checksums registered when it began. */
  datatype Pass = Pass(agent: Agent, files: Files, registered: map<string, string>)

  predicate Needs(ps: Pass, path: string) {
    !(path in ps.registered && ps.registered[path] == Checksum(ps.agent, ps.files, path))
  }

  /** A file is left alone exactly if the last rule that gives its checksum gives the present one. */
  lemma NeedsExactly(ag: Agent, files: Files, constraints: seq<Constraint>, path: string)
    ensures !Needs(Pass(ag, files, Registered(constraints)), path) <==>
              exists i: nat, j: nat :: IsLastRule(constraints, path, i, j)
                && constraints[i].allowedFiles[j].sha256Sum == ag.sha256(if path in files then files[path] else "")
  {
    if path in Registered(constraints) {
      var i, j := LastRuleWins(constraints, path);
      forall i': nat, j': nat | IsLastRule(constraints, path, i', j') ensures i' == i && j' == j {
        LastRuleIsOne(constraints, path, i, j, i', j');
      }
    } else {
      RuleMembers(constraints);
      LastSumsMembers(AllRules(constraints));
      forall c, r | c in constraints && r in c.allowedFiles ensures !(Usable(r) && r.name == path) {
        assert r in AllRules(constraints);
      }
    }
  }

  function Desired(ps: Pass, path: string): Constraint {
    Auto(ps.agent, path, Checksum(ps.agent, ps.files, path))
  }

  /** Having read a file whose checksum it must register, the agent begins to run through `rest`, the
      snapshot of that moment, and removes the constraints named after the file; with nothing left it
      adds the new constraint, for the checksum it read. */
  datatype Phase = Idle | Chosen(path: string, sum: Digest) | Registering(path: string, sum: Digest, rest: seq<Constraint>)

  datatype Pc = Pc(todo: seq<string>, phase: Phase)

  predicate Finished(pc: Pc) {
    pc == Pc([], Idle)
  }

  /** What the deletion of a file's constraints runs through. */
  function ToScan(ps: Pass, snapshot: seq<Constraint>, path: string): seq<Constraint> {
    if path in ps.registered then snapshot else []
  }

  function AgentStep(down: nat -> bool, ps: Pass, snapshot: seq<Constraint>, pc: Pc, db: Db): (Pc, Db)
    requires !Finished(pc)
  {
    match pc.phase
    case Idle =>
      var path := pc.todo[0];
      var phase := if Needs(ps, path) then Chosen(path, Checksum(ps.agent, ps.files, path)) else Idle;
      (Pc(pc.todo[1..], phase), db)
    case Chosen(path, sum) =>
      (Pc(pc.todo, Registering(path, sum, ToScan(ps, snapshot, path))), db)
    case Registering(path, sum, rest) =>
      if rest == [] then
        (Pc(pc.todo, Idle), Add(down, db, Some(Auto(ps.agent, path, sum))).0)
      else if Prefix(ps.agent, path) <= rest[0].name then
        var (after, reply) := Remove(down, db, ps.agent.namespace, rest[0].name);
        // The first error ends the deletion; the new constraint is added all the same.
        (Pc(pc.todo, Registering(path, sum, if reply.Error? then [] else rest[1..])), after)
      else
        (Pc(pc.todo, Registering(path, sum, rest[1..])), db)
  }

  /** How many steps a phase may still take. */
  function Remaining(phase: Phase, snapshot: seq<Constraint>): nat {
    match phase
    case Idle => 0
    case Chosen(_, _) => 2 + |snapshot|
    case Registering(_, _, rest) => 1 + |rest|
  }

  /** The database after the agent has run to the end of its pass undisturbed. */
  function Finish(down: nat -> bool, ps: Pass, snapshot: seq<Constraint>, pc: Pc, db: Db): Db
    decreases |pc.todo|, Remaining(pc.phase, snapshot)
  {
    if Finished(pc) then db
    else
      var (pc', db') := AgentStep(down, ps, snapshot, pc, db);
      Finish(down, ps, snapshot, pc', db')
  }

  // ---- The state machine ----

  /** `db` belongs to the server, `snapshot` and `pc` to the agent. The last four fields record the
      history of the latest pass: the snapshot and the rows it began with, the files it has read,
      and those it has dealt with. */
  datatype World = World(
    db: Db,
    snapshot: seq<Constraint>,
    files: Files,
    pc: Pc,
    basis: seq<Constraint>,
    atStart: seq<Constraint>,
    visited: set<string>,
    done: set<string>)

  datatype Step =
    | Sync
    | BeginPass(todo: seq<string>)
    | AgentMove
    | WriteFile(path: string, content: string)
    | Other(request: Request)

  function PassOf(ag: Agent, w: World): Pass {
    Pass(ag, w.files, Registered(w.basis))
  }

  /** The file that the next step of the agent reads, if it reads one. */
  function Reads(w: World): set<string>
    requires !Finished(w.pc)
  {
    if w.pc.phase.Idle? then {w.pc.todo[0]} else {}
  }

  /** The file that the next step of the agent completes, if it completes one. */
  function Completes(ag: Agent, w: World): set<string>
    requires !Finished(w.pc)
  {
    match w.pc.phase
    case Idle => if Needs(PassOf(ag, w), w.pc.todo[0]) then {} else {w.pc.todo[0]}
    case Chosen(_, _) => {}
    case Registering(path, _, rest) => if rest == [] then {path} else {}
  }

  function Next(down: nat -> bool, ag: Agent, w: World, step: Step): World
    requires step.AgentMove? ==> !Finished(w.pc)
  {
    match step
    case Sync =>
      var (after, matched) := Get(down, w.db, ag.namespace, ag.podLabels);
      w.(db := after, snapshot := matched)
    case BeginPass(todo) =>
      w.(pc := Pc(todo, Idle), basis := w.snapshot, atStart := w.db.rows, visited := {}, done := {})
    case AgentMove =>
      var (pc, db) := AgentStep(down, PassOf(ag, w), w.snapshot, w.pc, w.db);
      w.(pc := pc, db := db, visited := w.visited + Reads(w), done := w.done + Completes(ag, w))
    case WriteFile(path, content) => w.(files := w.files[path := content])
    case Other(request) => w.(db := Serve(down, w.db, request).0)
  }

  // ---- Which constraints belong to a file ----

  /** Named after the file by this pod's agent. */
  function OwnTest(ag: Agent, path: string): Constraint -> bool {
    (c: Constraint) => c.namespace == ag.namespace && Prefix(ag, path) <= c.name
  }

  function Own(ag: Agent, path: string, rows: seq<Constraint>): seq<Constraint> {
    Filter(OwnTest(ag, path), rows)
  }

  /** The constraints the agent would remove for a file carry that file's rule and the pod's labels. */
  ghost predicate WellNamed(ag: Agent, paths: set<string>, rows: seq<Constraint>) {
    forall c, p :: c in rows && p in paths && OwnTest(ag, p)(c) ==>
      |c.allowedFiles| == 1 && IsDigest(c.allowedFiles[0].sha256Sum) && c == Auto(ag, p, c.allowedFiles[0].sha256Sum)
  }

  /** The paths in play are real file names of which no two share the ten digits used in names. */
  ghost predicate Distinguished(ag: Agent, paths: set<string>) {
    && "" !in paths
    && forall p, q :: p in paths && q in paths && ag.sha256(p)[..10] == ag.sha256(q)[..10] ==> p == q
  }

  lemma OwnersAreUnique(ag: Agent, paths: set<string>, c: Constraint, p: string, q: string)
    requires Distinguished(ag, paths) && p in paths && q in paths
    requires OwnTest(ag, p)(c) && OwnTest(ag, q)(c)
    ensures p == q
  {
    var n := |ag.podName| + 1;
    assert Prefix(ag, p)[n..n + 10] == ag.sha256(p)[..10] == c.name[n..n + 10];
    assert Prefix(ag, q)[n..n + 10] == ag.sha256(q)[..10] == c.name[n..n + 10];
  }

  lemma TargetIsOwn(ag: Agent, path: string, sum: Digest)
    ensures OwnTest(ag, path)(Auto(ag, path, sum))
  {
  }
}
