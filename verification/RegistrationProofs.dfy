/** What every run of the registration protocol keeps, and what a pass achieves. */
module RegistrationProofs {
  import opened Model
  import opened Seqs
  import opened ConfigServer
  import opened FileRegistration

  // ---- How one RPC changes the constraints a test selects ----

  lemma {:induction false} FilterRemoveKept(keep: Constraint -> bool, rows: seq<Constraint>, namespace: string, name: string)
    requires forall c :: Named(c, namespace, name) ==> keep(c)
    ensures Filter(keep, RemoveFirst(rows, namespace, name)) == RemoveFirst(Filter(keep, rows), namespace, name)
  {
    if rows != [] {
      FilterRemoveKept(keep, rows[1..], namespace, name);
      var tail := RemoveFirst(rows[1..], namespace, name);
      var kept := Filter(keep, rows[1..]);
      if Named(rows[0], namespace, name) {
        assert ([rows[0]] + kept)[1..] == kept;
      } else {
        assert ([rows[0]] + tail)[1..] == tail;
        if keep(rows[0]) {
          assert ([rows[0]] + kept)[1..] == kept;
        } else {
          assert Filter(keep, rows) == kept;
        }
      }
    }
  }

  lemma {:induction false} FilterRemoveDropped(keep: Constraint -> bool, rows: seq<Constraint>, namespace: string, name: string)
    requires forall c :: Named(c, namespace, name) ==> !keep(c)
    ensures Filter(keep, RemoveFirst(rows, namespace, name)) == Filter(keep, rows)
  {
    if rows != [] {
      FilterRemoveDropped(keep, rows[1..], namespace, name);
      if !Named(rows[0], namespace, name) {
        FilterAppend(keep, [rows[0]], RemoveFirst(rows[1..], namespace, name));
      }
    }
  }

  // ---- Names: kept by every run, whatever fails and however stale the snapshot ----

  ghost predicate Reserved(ag: Agent, paths: set<string>, namespace: string, name: string) {
    namespace == ag.namespace && exists p :: p in paths && Prefix(ag, p) <= name
  }

  /** Other clients do not add constraints under names reserved for this agent's files. */
  ghost predicate AddsRespect(ag: Agent, paths: set<string>, step: Step) {
    step.Other? && step.request.AddRequest? && step.request.constraint.Some? ==>
      !Reserved(ag, paths, step.request.constraint.value.namespace, step.request.constraint.value.name)
  }

  /** The agent can take a step exactly while a pass is in progress, and walks only known paths. */
  ghost predicate Possible(paths: set<string>, w: World, step: Step) {
    && (step.AgentMove? ==> !Finished(w.pc))
    && (step.BeginPass? ==> Finished(w.pc) && forall p :: p in step.todo ==> p in paths)
  }

  ghost predicate PathsKnown(paths: set<string>, pc: Pc) {
    (forall p :: p in pc.todo ==> p in paths) && (!pc.phase.Idle? ==> pc.phase.path in paths)
  }

  ghost predicate NamesHold(ag: Agent, paths: set<string>, w: World) {
    Keyed(w.db.rows) && WellNamed(ag, paths, w.db.rows) && PathsKnown(paths, w.pc)
  }

  ghost predicate PossibleRun(down: nat -> bool, ag: Agent, paths: set<string>, w: World, steps: seq<Step>)
    decreases |steps|
  {
    steps == [] ||
    (Possible(paths, w, steps[0]) && AddsRespect(ag, paths, steps[0])
     && PossibleRun(down, ag, paths, Next(down, ag, w, steps[0]), steps[1..]))
  }

  ghost function Run(down: nat -> bool, ag: Agent, paths: set<string>, w: World, steps: seq<Step>): World
    requires PossibleRun(down, ag, paths, w, steps)
    decreases |steps|
  {
    if steps == [] then w else Run(down, ag, paths, Next(down, ag, w, steps[0]), steps[1..])
  }

  lemma AddKeepsWellNamed(down: nat -> bool, ag: Agent, paths: set<string>, db: Db, c: Constraint)
    requires WellNamed(ag, paths, db.rows)
    requires WellNamed(ag, paths, [c])
    ensures WellNamed(ag, paths, Add(down, db, Some(c)).0.rows)
  {
    assert c in [c];
  }

  lemma TargetWellNamed(ag: Agent, paths: set<string>, path: string, sum: Digest)
    requires Distinguished(ag, paths) && path in paths
    ensures WellNamed(ag, paths, [Auto(ag, path, sum)])
  {
    TargetIsOwn(ag, path, sum);
    forall p | p in paths && OwnTest(ag, p)(Auto(ag, path, sum)) ensures p == path {
      OwnersAreUnique(ag, paths, Auto(ag, path, sum), p, path);
    }
  }

  lemma RemoveKeepsNames(down: nat -> bool, ag: Agent, paths: set<string>, db: Db, namespace: string, name: string)
    requires Keyed(db.rows) && WellNamed(ag, paths, db.rows)
    ensures Keyed(Remove(down, db, namespace, name).0.rows)
    ensures WellNamed(ag, paths, Remove(down, db, namespace, name).0.rows)
  {
    RemoveFirstIsExact(db.rows, namespace, name);
  }

  lemma NamesKeptByStep(down: nat -> bool, ag: Agent, paths: set<string>, w: World, step: Step)
    requires Distinguished(ag, paths) && NamesHold(ag, paths, w)
    requires Possible(paths, w, step) && AddsRespect(ag, paths, step)
    ensures NamesHold(ag, paths, Next(down, ag, w, step))
  {
    match step {
      case AgentMove =>
        if w.pc.phase.Registering? {
          var target := Auto(ag, w.pc.phase.path, w.pc.phase.sum);
          TargetWellNamed(ag, paths, w.pc.phase.path, w.pc.phase.sum);
          AddKeepsWellNamed(down, ag, paths, w.db, target);
          ServeKeepsKeyed(down, w.db, AddRequest(Some(target)));
          if w.pc.phase.rest != [] {
            RemoveKeepsNames(down, ag, paths, w.db, ag.namespace, w.pc.phase.rest[0].name);
          }
        }
      case Other(request) =>
        ServeKeepsKeyed(down, w.db, request);
        if request.RemoveRequest? {
          RemoveKeepsNames(down, ag, paths, w.db, request.namespace, request.name);
        } else if request.AddRequest? && request.constraint.Some? {
          AddKeepsWellNamed(down, ag, paths, w.db, request.constraint.value);
        }
      case _ =>
    }
  }

  /** Over every run - passes from stale snapshots, interleaved clients, failing database calls
      included - names stay unique and every constraint named after a file by the agent carries
      exactly that file's rule and the pod's labels. */
  lemma {:induction false} NamesKeptByRun(down: nat -> bool, ag: Agent, paths: set<string>, w: World, steps: seq<Step>)
    requires Distinguished(ag, paths) && NamesHold(ag, paths, w)
    requires PossibleRun(down, ag, paths, w, steps)
    ensures NamesHold(ag, paths, Run(down, ag, paths, w, steps))
    decreases |steps|
  {
    if steps != [] {
      NamesKeptByStep(down, ag, paths, w, steps[0]);
      NamesKeptByRun(down, ag, paths, Next(down, ag, w, steps[0]), steps[1..]);
    }
  }

  // ---- What a pass from a fresh snapshot keeps ----

  /** The agent's snapshot lists the constraints named after its files just as the server does. */
  ghost predicate Fresh(ag: Agent, paths: set<string>, w: World) {
    forall p :: p in paths ==> Own(ag, p, w.snapshot) == Own(ag, p, w.db.rows)
  }

  /** What may happen while one file is followed through a pass: its checksum stays, and others leave
      the constraints named after it alone. Other files may be written and their constraints removed. */
  ghost predicate Orderly(ag: Agent, paths: set<string>, p: string, w: World, step: Step) {
    && Possible(paths, w, step) && AddsRespect(ag, paths, step) && !step.BeginPass?
    && (step.WriteFile? && step.path == p ==> ag.sha256(step.content) == Checksum(ag, w.files, p))
    && (step.Other? && step.request.RemoveRequest? ==>
          !(step.request.namespace == ag.namespace && Prefix(ag, p) <= step.request.name))
  }

  ghost predicate OrderlyRun(down: nat -> bool, ag: Agent, paths: set<string>, p: string, w: World, steps: seq<Step>)
    decreases |steps|
  {
    steps == [] ||
    (Orderly(ag, paths, p, w, steps[0])
     && OrderlyRun(down, ag, paths, p, Next(down, ag, w, steps[0]), steps[1..]))
  }

  /** The constraints named after a file that a pass has dealt with. */
  function Goal(ag: Agent, w: World, p: string): seq<Constraint> {
    if Needs(PassOf(ag, w), p) then [Desired(PassOf(ag, w), p)] else Own(ag, p, w.atStart)
  }

  ghost predicate FileHolds(ag: Agent, w: World, p: string) {
    var rows := Own(ag, p, w.db.rows);
    && (!w.pc.phase.Idle? && w.pc.phase.path == p ==>
          Needs(PassOf(ag, w), p) && w.pc.phase.sum == Checksum(ag, w.files, p))
    && if w.pc.phase.Registering? && w.pc.phase.path == p
       then if p in w.done then rows == [] || rows == Goal(ag, w, p) else rows == Own(ag, p, w.pc.phase.rest)
       else rows == if p in w.done then Goal(ag, w, p) else Own(ag, p, w.atStart)
  }

  ghost predicate SnapshotHolds(ag: Agent, w: World, p: string) {
    && Own(ag, p, w.basis) == Own(ag, p, w.atStart)
    && (p !in w.done && !(w.pc.phase.Registering? && w.pc.phase.path == p) ==>
          Own(ag, p, w.snapshot) == Own(ag, p, w.atStart))
  }

  ghost predicate AllMatch(ag: Agent, constraints: seq<Constraint>) {
    forall c :: c in constraints ==> Matches(ag.namespace, ag.podLabels)(c)
  }

  /** The invariant of a pass that began from a fresh snapshot, for one file. */
  ghost predicate Inv(ag: Agent, paths: set<string>, p: string, w: World) {
    && NamesHold(ag, paths, w) && WellNamed(ag, paths, w.atStart)
    && AllMatch(ag, w.snapshot)
    && (w.pc.phase.Registering? ==> AllMatch(ag, w.pc.phase.rest))
    && FileHolds(ag, w, p) && SnapshotHolds(ag, w, p)
  }

  /** A synced snapshot contains every constraint named after the agent's files. */
  lemma SyncKeepsOwn(ag: Agent, paths: set<string>, rows: seq<Constraint>, p: string)
    requires WellNamed(ag, paths, rows) && p in paths
    ensures Own(ag, p, Matching(rows, ag.namespace, ag.podLabels)) == Own(ag, p, rows)
    ensures AllMatch(ag, Matching(rows, ag.namespace, ag.podLabels))
  {
    FilterMembers(Matches(ag.namespace, ag.podLabels), rows);
    forall c | c in rows && OwnTest(ag, p)(c) ensures Matches(ag.namespace, ag.podLabels)(c) {
      assert c.matchLabels == ag.podLabels;
      assert Selected(ag.podLabels, c);
      assert Within(ag.namespace, c);
    }
    FilterWithin(OwnTest(ag, p), Matches(ag.namespace, ag.podLabels), rows);
  }

  /** Adding the constraint of one file leaves the constraints of the others. */
  lemma AddOwn(down: nat -> bool, ag: Agent, paths: set<string>, db: Db, path: string, sum: Digest)
    requires AlwaysUp(down) && ag.namespace != "" && Distinguished(ag, paths) && path in paths
    requires Own(ag, path, db.rows) == [] || Own(ag, path, db.rows) == [Auto(ag, path, sum)]
    ensures var after := Add(down, db, Some(Auto(ag, path, sum))).0;
            && Own(ag, path, after.rows) == [Auto(ag, path, sum)]
            && (forall q :: q in paths && q != path ==> Own(ag, q, after.rows) == Own(ag, q, db.rows))
            && (forall c :: c in db.rows ==> c in after.rows)
  {
    var target := Auto(ag, path, sum);
    var keep := OwnTest(ag, path);
    TargetIsOwn(ag, path, sum);
    FilterMembers(keep, db.rows);
    FilterAppend(keep, db.rows, [target]);
    if Own(ag, path, db.rows) == [] {
      forall c | c in db.rows ensures !Named(c, target.namespace, target.name) {
        assert Named(c, target.namespace, target.name) ==> keep(c);
        assert c !in Own(ag, path, db.rows);
      }
      assert !Exists(db.rows, target.namespace, target.name);
    } else {
      assert target in Own(ag, path, db.rows);
      var i :| 0 <= i < |db.rows| && db.rows[i] == target;
      assert Named(db.rows[i], target.namespace, target.name);
    }
    forall q | q in paths && q != path
      ensures Own(ag, q, Add(down, db, Some(target)).0.rows) == Own(ag, q, db.rows)
    {
      AddOthers(down, ag, paths, db, path, sum, q);
    }
  }

  lemma AddOthers(down: nat -> bool, ag: Agent, paths: set<string>, db: Db, path: string, sum: Digest, q: string)
    requires Distinguished(ag, paths) && path in paths && q in paths && q != path
    ensures Own(ag, q, Add(down, db, Some(Auto(ag, path, sum))).0.rows) == Own(ag, q, db.rows)
  {
    var target := Auto(ag, path, sum);
    TargetIsOwn(ag, path, sum);
    FilterAppend(OwnTest(ag, q), db.rows, [target]);
    if OwnTest(ag, q)(target) {
      OwnersAreUnique(ag, paths, target, q, path);
    }
  }

  /** Removing a constraint named after one file touches the constraints of that file only. */
  lemma RemoveOwn(ag: Agent, paths: set<string>, rows: seq<Constraint>, path: string, name: string)
    requires Distinguished(ag, paths) && path in paths && Prefix(ag, path) <= name
    ensures var after := RemoveFirst(rows, ag.namespace, name);
            && Own(ag, path, after) == RemoveFirst(Own(ag, path, rows), ag.namespace, name)
            && (forall q :: q in paths && q != path ==> Own(ag, q, after) == Own(ag, q, rows))
  {
    FilterRemoveKept(OwnTest(ag, path), rows, ag.namespace, name);
    forall q | q in paths && q != path
      ensures Own(ag, q, RemoveFirst(rows, ag.namespace, name)) == Own(ag, q, rows)
    {
      forall c | Named(c, ag.namespace, name) ensures !OwnTest(ag, q)(c) {
        if OwnTest(ag, q)(c) {
          OwnersAreUnique(ag, paths, c, q, path);
        }
      }
      FilterRemoveDropped(OwnTest(ag, q), rows, ag.namespace, name);
    }
  }

  /** A file without registered checksum has no constraint of its own in the snapshot. */
  lemma UnregisteredOwnsNothing(ag: Agent, paths: set<string>, snapshot: seq<Constraint>, rows: seq<Constraint>, p: string)
    requires Distinguished(ag, paths) && WellNamed(ag, paths, rows)
    requires Own(ag, p, snapshot) == Own(ag, p, rows)
    requires p in paths && p !in Registered(snapshot)
    ensures Own(ag, p, rows) == []
  {
    var mine := Own(ag, p, snapshot);
    if mine != [] {
      var c := mine[0];
      FilterMembers(OwnTest(ag, p), snapshot);
      FilterMembers(OwnTest(ag, p), rows);
      assert c in rows;
      assert c.allowedFiles[0] == FileRule(p, c.allowedFiles[0].sha256Sum) && Usable(c.allowedFiles[0]);
      RuleMembers(snapshot);
      assert c.allowedFiles[0] in AllRules(snapshot);
      LastSumsMembers(AllRules(snapshot));
    }
  }

  /** What the agent does about one file leaves the constraints of the others. */
  lemma OtherFileMove(down: nat -> bool, ag: Agent, paths: set<string>, w: World, p: string)
    requires Distinguished(ag, paths) && PathsKnown(paths, w.pc) && p in paths
    requires !Finished(w.pc) && (!w.pc.phase.Idle? ==> w.pc.phase.path != p)
    ensures Own(ag, p, Next(down, ag, w, AgentMove).db.rows) == Own(ag, p, w.db.rows)
  {
    if w.pc.phase.Registering? {
      var path, sum, rest := w.pc.phase.path, w.pc.phase.sum, w.pc.phase.rest;
      if rest == [] {
        AddOthers(down, ag, paths, w.db, path, sum, p);
      } else if Prefix(ag, path) <= rest[0].name {
        RemoveMoveShape(down, ag, w);
        RemoveOwn(ag, paths, w.db.rows, path, rest[0].name);
      }
    }
  }

  /** A step that is not about a file, and leaves its constraints, keeps the invariant of the file. */
  lemma UntouchedHolds(ag: Agent, w: World, w': World, p: string)
    requires FileHolds(ag, w, p) && SnapshotHolds(ag, w, p)
    requires Checksum(ag, w'.files, p) == Checksum(ag, w.files, p)
    requires w'.basis == w.basis && w'.atStart == w.atStart && w'.snapshot == w.snapshot
    requires (p in w'.done <==> p in w.done) && Own(ag, p, w'.db.rows) == Own(ag, p, w.db.rows)
    requires w'.pc == w.pc
             || ((!w.pc.phase.Idle? ==> w.pc.phase.path != p) && (!w'.pc.phase.Idle? ==> w'.pc.phase.path != p))
    ensures FileHolds(ag, w', p) && SnapshotHolds(ag, w', p)
  {
    assert Goal(ag, w', p) == Goal(ag, w, p);
  }

  lemma IdleMoveKeeps(down: nat -> bool, ag: Agent, paths: set<string>, p: string, w: World)
    requires Distinguished(ag, paths) && p in paths
    requires Inv(ag, paths, p, w) && !Finished(w.pc) && w.pc.phase.Idle?
    ensures Inv(ag, paths, p, Next(down, ag, w, AgentMove))
  {
    NamesKeptByStep(down, ag, paths, w, AgentMove);
    assert Goal(ag, Next(down, ag, w, AgentMove), p) == Goal(ag, w, p);
  }

  lemma ChosenMoveKeeps(down: nat -> bool, ag: Agent, paths: set<string>, p: string, w: World)
    requires Distinguished(ag, paths) && p in paths
    requires Inv(ag, paths, p, w) && w.pc.phase.Chosen?
    ensures Inv(ag, paths, p, Next(down, ag, w, AgentMove))
  {
    NamesKeptByStep(down, ag, paths, w, AgentMove);
    if p !in Registered(w.basis) {
      UnregisteredOwnsNothing(ag, paths, w.basis, w.atStart, p);
    }
    assert Goal(ag, Next(down, ag, w, AgentMove), p) == Goal(ag, w, p);
  }

  /** First visit of a file: the deletion loop removes exactly what the rest of the snapshot lists. */
  lemma RemoveListed(down: nat -> bool, ag: Agent, db: Db, path: string, rest: seq<Constraint>)
    requires AlwaysUp(down) && ag.namespace != ""
    requires rest != [] && Prefix(ag, path) <= rest[0].name && rest[0].namespace == ag.namespace
    requires Own(ag, path, db.rows) == Own(ag, path, rest)
    ensures var (after, reply) := Remove(down, db, ag.namespace, rest[0].name);
            && reply == Answer(true)
            && after.rows == RemoveFirst(db.rows, ag.namespace, rest[0].name)
            && Own(ag, path, after.rows) == Own(ag, path, rest[1..])
  {
    var mine := Own(ag, path, db.rows);
    assert mine == [rest[0]] + Own(ag, path, rest[1..]);
    assert mine[1..] == Own(ag, path, rest[1..]);
    FilterMembers(OwnTest(ag, path), db.rows);
    assert mine[0] in mine;
    var i :| 0 <= i < |db.rows| && db.rows[i] == rest[0];
    assert Named(db.rows[i], ag.namespace, rest[0].name);
    FilterRemoveKept(OwnTest(ag, path), db.rows, ag.namespace, rest[0].name);
  }

  /** Later visits of the file: at most the constraint added before is there to be removed. */
  lemma RemoveRevisited(down: nat -> bool, ag: Agent, db: Db, path: string, name: string, target: Constraint)
    requires AlwaysUp(down) && Prefix(ag, path) <= name
    requires Own(ag, path, db.rows) == [] || Own(ag, path, db.rows) == [target]
    ensures var after := Remove(down, db, ag.namespace, name).0;
            && (after.rows == db.rows || after.rows == RemoveFirst(db.rows, ag.namespace, name))
            && (Own(ag, path, after.rows) == [] || Own(ag, path, after.rows) == [target])
  {
    FilterRemoveKept(OwnTest(ag, path), db.rows, ag.namespace, name);
    assert [target][1..] == [];
    assert RemoveFirst([target], ag.namespace, name) == [] || RemoveFirst([target], ag.namespace, name) == [target];
  }

  lemma RemoveMoveShape(down: nat -> bool, ag: Agent, w: World)
    requires w.pc.phase.Registering? && w.pc.phase.rest != []
    requires Prefix(ag, w.pc.phase.path) <= w.pc.phase.rest[0].name
    ensures var w' := Next(down, ag, w, AgentMove);
            var (path, sum, rest) := (w.pc.phase.path, w.pc.phase.sum, w.pc.phase.rest);
            var (after, reply) := Remove(down, w.db, ag.namespace, rest[0].name);
            && w' == w.(db := after, pc := Pc(w.pc.todo, Registering(path, sum, if reply.Error? then [] else rest[1..])))
            && (after.rows == w.db.rows || after.rows == RemoveFirst(w.db.rows, ag.namespace, rest[0].name))
  {
    assert w.done + {} == w.done && w.visited + {} == w.visited;
  }

  /** The move that adds the constraint of the file completes it. */
  lemma AddMoveKeeps(down: nat -> bool, ag: Agent, paths: set<string>, p: string, w: World)
    requires AlwaysUp(down) && ag.namespace != "" && Distinguished(ag, paths)
    requires Inv(ag, paths, p, w) && w.pc.phase.Registering? && w.pc.phase.path == p && w.pc.phase.rest == []
    ensures Inv(ag, paths, p, Next(down, ag, w, AgentMove))
  {
    NamesKeptByStep(down, ag, paths, w, AgentMove);
    AddOwn(down, ag, paths, w.db, p, w.pc.phase.sum);
    assert Goal(ag, Next(down, ag, w, AgentMove), p) == Goal(ag, w, p);
  }

  lemma RemoveMoveKeeps(down: nat -> bool, ag: Agent, paths: set<string>, p: string, w: World)
    requires AlwaysUp(down) && ag.namespace != "" && Distinguished(ag, paths)
    requires Inv(ag, paths, p, w) && w.pc.phase.Registering? && w.pc.phase.path == p && w.pc.phase.rest != []
    requires Prefix(ag, p) <= w.pc.phase.rest[0].name
    ensures Inv(ag, paths, p, Next(down, ag, w, AgentMove))
  {
    var rest, w' := w.pc.phase.rest, Next(down, ag, w, AgentMove);
    NamesKeptByStep(down, ag, paths, w, AgentMove);
    RemoveMoveShape(down, ag, w);
    if p in w.done {
      RemoveRevisited(down, ag, w.db, p, rest[0].name, Desired(PassOf(ag, w), p));
    } else {
      assert Matches(ag.namespace, ag.podLabels)(rest[0]) && Within(ag.namespace, rest[0]);
      RemoveListed(down, ag, w.db, p, rest);
    }
    assert Goal(ag, w', p) == Goal(ag, w, p);
  }

  lemma RegisteringMoveKeeps(down: nat -> bool, ag: Agent, paths: set<string>, p: string, w: World)
    requires AlwaysUp(down) && ag.namespace != "" && Distinguished(ag, paths) && p in paths
    requires Inv(ag, paths, p, w) && w.pc.phase.Registering?
    ensures Inv(ag, paths, p, Next(down, ag, w, AgentMove))
  {
    var path, rest, w' := w.pc.phase.path, w.pc.phase.rest, Next(down, ag, w, AgentMove);
    if path != p {
      NamesKeptByStep(down, ag, paths, w, AgentMove);
      OtherFileMove(down, ag, paths, w, p);
      UntouchedHolds(ag, w, w', p);
    } else if rest == [] {
      AddMoveKeeps(down, ag, paths, p, w);
    } else if Prefix(ag, path) <= rest[0].name {
      RemoveMoveKeeps(down, ag, paths, p, w);
    } else {
      assert Goal(ag, w', p) == Goal(ag, w, p);
    }
  }

  lemma SyncKeeps(down: nat -> bool, ag: Agent, paths: set<string>, p: string, w: World)
    requires AlwaysUp(down) && Inv(ag, paths, p, w) && p in paths
    ensures Inv(ag, paths, p, Next(down, ag, w, Sync))
  {
    FilterMembers(Matches(ag.namespace, ag.podLabels), w.db.rows);
    SyncKeepsOwn(ag, paths, w.db.rows, p);
    assert Goal(ag, Next(down, ag, w, Sync), p) == Goal(ag, w, p);
  }

  /** Another client's call adds nothing under a file's name, and removes something under it only if it
      names it. */
  lemma OtherOwn(down: nat -> bool, ag: Agent, paths: set<string>, w: World, step: Step, p: string)
    requires step.Other? && AddsRespect(ag, paths, step) && p in paths
    ensures var before, after := Own(ag, p, w.db.rows), Own(ag, p, Next(down, ag, w, step).db.rows);
            after == before
            || (step.request.RemoveRequest?
                && step.request.namespace == ag.namespace && Prefix(ag, p) <= step.request.name
                && after == RemoveFirst(before, step.request.namespace, step.request.name))
  {
    match step.request {
      case AddRequest(c) =>
        if c.Some? {
          FilterAppend(OwnTest(ag, p), w.db.rows, [c.value]);
        }
      case RemoveRequest(namespace, name) =>
        if namespace == ag.namespace && Prefix(ag, p) <= name {
          FilterRemoveKept(OwnTest(ag, p), w.db.rows, namespace, name);
        } else {
          FilterRemoveDropped(OwnTest(ag, p), w.db.rows, namespace, name);
        }
      case GetRequest(_, _) =>
    }
  }

  /** A pass that begins from a fresh snapshot begins with the invariant of every file. */
  lemma BeginHolds(down: nat -> bool, ag: Agent, paths: set<string>, w: World, todo: seq<string>)
    requires NamesHold(ag, paths, w) && Finished(w.pc) && AllMatch(ag, w.snapshot) && Fresh(ag, paths, w)
    requires forall q :: q in todo ==> q in paths
    ensures forall p :: p in paths ==> Inv(ag, paths, p, Next(down, ag, w, BeginPass(todo)))
  {
  }

  lemma StepKeepsInv(down: nat -> bool, ag: Agent, paths: set<string>, p: string, w: World, step: Step)
    requires AlwaysUp(down) && ag.namespace != "" && Distinguished(ag, paths) && p in paths
    requires Inv(ag, paths, p, w) && Orderly(ag, paths, p, w, step)
    ensures Inv(ag, paths, p, Next(down, ag, w, step))
  {
    match step {
      case Sync => SyncKeeps(down, ag, paths, p, w);
      case AgentMove =>
        if w.pc.phase.Idle? {
          IdleMoveKeeps(down, ag, paths, p, w);
        } else if w.pc.phase.Chosen? {
          ChosenMoveKeeps(down, ag, paths, p, w);
        } else {
          RegisteringMoveKeeps(down, ag, paths, p, w);
        }
      case Other(_) =>
        NamesKeptByStep(down, ag, paths, w, step);
        OtherOwn(down, ag, paths, w, step, p);
        UntouchedHolds(ag, w, Next(down, ag, w, step), p);
      case WriteFile(_, _) =>
        NamesKeptByStep(down, ag, paths, w, step);
        UntouchedHolds(ag, w, Next(down, ag, w, step), p);
    }
  }

  lemma {:induction false} RunKeepsInv(
    down: nat -> bool, ag: Agent, paths: set<string>, p: string, w: World, steps: seq<Step>)
    requires AlwaysUp(down) && ag.namespace != "" && Distinguished(ag, paths) && p in paths
    requires Inv(ag, paths, p, w) && OrderlyRun(down, ag, paths, p, w, steps)
    ensures PossibleRun(down, ag, paths, w, steps)
    ensures Inv(ag, paths, p, Run(down, ag, paths, w, steps))
    decreases |steps|
  {
    if steps != [] {
      StepKeepsInv(down, ag, paths, p, w, steps[0]);
      RunKeepsInv(down, ag, paths, p, Next(down, ag, w, steps[0]), steps[1..]);
    }
  }
}
