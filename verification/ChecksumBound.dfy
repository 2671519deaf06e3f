/** One checksum per file: what keeps the bound in every run, and exactly how it is broken. */
module ChecksumBound {
  import opened Model
  import opened Seqs
  import opened ConfigServer
  import opened FileRegistration
  import opened RegistrationProofs
  import opened StalePasses
  import PodAgent

  // ---- Runs whose passes begin fresh ----

  /** A pass begins from a fresh snapshot. Anyone may remove anything at any time, files may be written
      at any time, and the agent may sync during its pass. */
  ghost predicate FreshStep(ag: Agent, paths: set<string>, w: World, step: Step) {
    Possible(paths, w, step) && AddsRespect(ag, paths, step) && (step.BeginPass? ==> Fresh(ag, paths, w))
  }

  /** A file that the pass has read already, and will visit again, gets a content of another checksum
      as far as names tell. */
  predicate Rewrites(ag: Agent, w: World, step: Step) {
    && step.WriteFile? && step.path in w.visited && step.path in w.pc.todo
    && ag.sha256(step.content)[..10] != Checksum(ag, w.files, step.path)[..10]
  }

  /** The deletion that begins now finds a constraint of the file that it will not remove: one of
      another checksum, of a file that was not registered when the pass began, or missing in the
      snapshot. */
  ghost predicate Overtaken(ag: Agent, w: World) {
    && w.pc.phase.Chosen?
    && var own := Own(ag, w.pc.phase.path, w.db.rows);
       && own != [] && own[0].name != Auto(ag, w.pc.phase.path, w.pc.phase.sum).name && !Listing(ag, w, w.pc.phase.path)
  }

  /** The file was registered when the pass began, and the snapshot lists the constraint stored for it. */
  ghost predicate Listing(ag: Agent, w: World, p: string) {
    var own := Own(ag, p, w.db.rows);
    p in Registered(w.basis) && own != [] && own[0].name in Names(Own(ag, p, w.snapshot))
  }

  ghost predicate FreshRun(down: nat -> bool, ag: Agent, paths: set<string>, w: World, steps: seq<Step>)
    decreases |steps|
  {
    steps == [] ||
    (FreshStep(ag, paths, w, steps[0]) && FreshRun(down, ag, paths, Next(down, ag, w, steps[0]), steps[1..]))
  }

  ghost predicate NeverOvertaken(down: nat -> bool, ag: Agent, paths: set<string>, w: World, steps: seq<Step>)
    requires FreshRun(down, ag, paths, w, steps)
    decreases |steps|
  {
    steps == [] ||
    (!(steps[0].AgentMove? && Overtaken(ag, w))
     && NeverOvertaken(down, ag, paths, Next(down, ag, w, steps[0]), steps[1..]))
  }

  ghost predicate NeverRewrites(down: nat -> bool, ag: Agent, paths: set<string>, w: World, steps: seq<Step>)
    requires FreshRun(down, ag, paths, w, steps)
    decreases |steps|
  {
    steps == [] ||
    (!Rewrites(ag, w, steps[0]) && NeverRewrites(down, ag, paths, Next(down, ag, w, steps[0]), steps[1..]))
  }

  // ---- The bound ----

  /** Every stored constraint of the file being registered bears the new name, or is the one that the
      rest of the deletion will remove. */
  ghost predicate Removable(ag: Agent, w: World) {
    w.pc.phase.Registering? ==>
      var (path, sum, rest) := (w.pc.phase.path, w.pc.phase.sum, w.pc.phase.rest);
      var own := Own(ag, path, w.db.rows);
      || own == [] || own[0].name == Auto(ag, path, sum).name
      || (|Own(ag, path, rest)| == 1 && Own(ag, path, rest)[0].name == own[0].name)
  }

  ghost predicate Bound(ag: Agent, paths: set<string>, w: World) {
    && NamesHold(ag, paths, w) && AllMatch(ag, w.snapshot)
    && (w.pc.phase.Registering? ==> AllMatch(ag, w.pc.phase.rest))
    && (forall p :: p in paths ==> |Own(ag, p, w.db.rows)| <= 1)
    && (!Finished(w.pc) ==> forall p :: p in paths ==> |Own(ag, p, w.snapshot)| <= 1)
    && Removable(ag, w)
  }

  lemma AddKeepsBound(down: nat -> bool, ag: Agent, paths: set<string>, w: World)
    requires AlwaysUp(down) && ag.namespace != "" && Distinguished(ag, paths)
    requires Bound(ag, paths, w) && w.pc.phase.Registering? && w.pc.phase.rest == []
    ensures Bound(ag, paths, Next(down, ag, w, AgentMove))
    ensures var own := Own(ag, w.pc.phase.path, Next(down, ag, w, AgentMove).db.rows);
            own != [] && own[0].name == Auto(ag, w.pc.phase.path, w.pc.phase.sum).name
    ensures forall q :: q in paths && q != w.pc.phase.path ==>
              Own(ag, q, Next(down, ag, w, AgentMove).db.rows) == Own(ag, q, w.db.rows)
  {
    var path, sum := w.pc.phase.path, w.pc.phase.sum;
    var own, target := Own(ag, path, w.db.rows), Auto(ag, path, sum);
    NamesKeptByStep(down, ag, paths, w, AgentMove);
    AddedOwn(down, ag, w.db, path, sum);
    FilterMembers(OwnTest(ag, path), w.db.rows);
    ExistsMember(own, target.namespace, target.name);
    if own != [] {
      assert own[0] in own;
    }
    forall q | q in paths && q != path
      ensures Own(ag, q, Next(down, ag, w, AgentMove).db.rows) == Own(ag, q, w.db.rows)
    {
      AddOthers(down, ag, paths, w.db, path, sum, q);
    }
  }

  lemma RemoveKeepsBound(down: nat -> bool, ag: Agent, paths: set<string>, w: World)
    requires AlwaysUp(down) && ag.namespace != "" && Distinguished(ag, paths)
    requires Bound(ag, paths, w) && w.pc.phase.Registering? && w.pc.phase.rest != []
    ensures Bound(ag, paths, Next(down, ag, w, AgentMove))
    ensures forall q :: q in paths ==>
              var (before, after) := (Own(ag, q, w.db.rows), Own(ag, q, Next(down, ag, w, AgentMove).db.rows));
              after == before || after == []
  {
    NamesKeptByStep(down, ag, paths, w, AgentMove);
    var path, rest := w.pc.phase.path, w.pc.phase.rest;
    if Prefix(ag, path) <= rest[0].name {
      RemoveMoveShape(down, ag, w);
      assert Matches(ag.namespace, ag.podLabels)(rest[0]) && Within(ag.namespace, rest[0]);
      assert Own(ag, path, rest) == [rest[0]] + Own(ag, path, rest[1..]);
      RemovalOfOwn(down, ag, paths, w.db, path, rest[0].name);
    }
  }

  /** What removing a name under a file's prefix answers, and what it leaves. */
  lemma RemovalOfOwn(down: nat -> bool, ag: Agent, paths: set<string>, db: Db, path: string, name: string)
    requires AlwaysUp(down) && ag.namespace != "" && Distinguished(ag, paths) && path in paths
    requires Prefix(ag, path) <= name && |Own(ag, path, db.rows)| <= 1
    ensures var (after, reply) := Remove(down, db, ag.namespace, name);
            var own := Own(ag, path, db.rows);
            && (reply.Error? <==> own == [] || own[0].name != name)
            && Own(ag, path, after.rows) == (if reply.Error? then own else [])
            && (forall q :: q in paths && q != path ==> Own(ag, q, after.rows) == Own(ag, q, db.rows))
  {
    var own := Own(ag, path, db.rows);
    RemoveOwn(ag, paths, db.rows, path, name);
    RemoveOne(own, ag.namespace, name);
    StoredUnder(ag, path, db.rows, name);
    FilterMembers(OwnTest(ag, path), db.rows);
    if own != [] {
      assert own[0] in own;
    }
  }

  lemma RemoveOne(own: seq<Constraint>, namespace: string, name: string)
    requires |own| <= 1
    ensures RemoveFirst(own, namespace, name)
            == if own != [] && Named(own[0], namespace, name) then [] else own
  {
    if own != [] {
      assert own[1..] == [] && own == [own[0]];
    }
  }

  lemma StoredUnder(ag: Agent, path: string, rows: seq<Constraint>, name: string)
    requires Prefix(ag, path) <= name && |Own(ag, path, rows)| <= 1
    ensures Exists(rows, ag.namespace, name) <==>
              var own := Own(ag, path, rows); own != [] && own[0].name == name
  {
    var own := Own(ag, path, rows);
    ExistsMember(rows, ag.namespace, name);
    FilterMembers(OwnTest(ag, path), rows);
    if own != [] {
      assert own[0] in own;
    }
    if c :| c in rows && Named(c, ag.namespace, name) {
      assert c in own && c == own[0];
    }
  }

  lemma ChosenKeepsBound(down: nat -> bool, ag: Agent, paths: set<string>, w: World)
    requires Bound(ag, paths, w) && w.pc.phase.Chosen? && !Overtaken(ag, w)
    ensures Bound(ag, paths, Next(down, ag, w, AgentMove))
  {
    var path := w.pc.phase.path;
    assert path in paths && |Own(ag, path, w.snapshot)| <= 1;
  }

  lemma SyncKeepsBound(down: nat -> bool, ag: Agent, paths: set<string>, w: World)
    requires AlwaysUp(down) && Bound(ag, paths, w)
    ensures Bound(ag, paths, Next(down, ag, w, Sync))
    ensures forall p :: p in paths ==> Own(ag, p, Next(down, ag, w, Sync).snapshot) == Own(ag, p, w.db.rows)
  {
    forall p | p in paths
      ensures Own(ag, p, Matching(w.db.rows, ag.namespace, ag.podLabels)) == Own(ag, p, w.db.rows)
    {
      SyncKeepsOwn(ag, paths, w.db.rows, p);
    }
    FilterMembers(Matches(ag.namespace, ag.podLabels), w.db.rows);
  }

  lemma OtherKeepsBound(down: nat -> bool, ag: Agent, paths: set<string>, w: World, step: Step)
    requires Distinguished(ag, paths) && Bound(ag, paths, w) && FreshStep(ag, paths, w, step) && step.Other?
    ensures Bound(ag, paths, Next(down, ag, w, step))
    ensures forall p :: p in paths ==>
              var (before, after) := (Own(ag, p, w.db.rows), Own(ag, p, Next(down, ag, w, step).db.rows));
              after == before || after == []
  {
    NamesKeptByStep(down, ag, paths, w, step);
    forall p | p in paths
      ensures var (before, after) := (Own(ag, p, w.db.rows), Own(ag, p, Next(down, ag, w, step).db.rows));
              after == before || after == []
    {
      OtherOwn(down, ag, paths, w, step, p);
      if step.request.RemoveRequest? {
        RemoveOne(Own(ag, p, w.db.rows), step.request.namespace, step.request.name);
      }
    }
  }

  lemma StepKeepsBound(down: nat -> bool, ag: Agent, paths: set<string>, w: World, step: Step)
    requires AlwaysUp(down) && ag.namespace != "" && Distinguished(ag, paths)
    requires Bound(ag, paths, w) && FreshStep(ag, paths, w, step) && !(step.AgentMove? && Overtaken(ag, w))
    ensures Bound(ag, paths, Next(down, ag, w, step))
  {
    match step {
      case AgentMove =>
        if w.pc.phase.Idle? {
          NamesKeptByStep(down, ag, paths, w, step);
        } else if w.pc.phase.Chosen? {
          ChosenKeepsBound(down, ag, paths, w);
        } else if w.pc.phase.rest == [] {
          AddKeepsBound(down, ag, paths, w);
        } else {
          RemoveKeepsBound(down, ag, paths, w);
        }
      case Sync => SyncKeepsBound(down, ag, paths, w);
      case Other(_) => OtherKeepsBound(down, ag, paths, w, step);
      case _ => NamesKeptByStep(down, ag, paths, w, step);
    }
  }

  /** Over every run whose passes begin fresh, with writes and removals at any time, at most one
      constraint is named after each file at every moment - unless a visit was overtaken. */
  lemma {:induction false} BoundUnlessOvertaken(
    down: nat -> bool, ag: Agent, paths: set<string>, w: World, steps: seq<Step>)
    requires AlwaysUp(down) && ag.namespace != "" && Distinguished(ag, paths)
    requires Bound(ag, paths, w) && FreshRun(down, ag, paths, w, steps)
    requires NeverOvertaken(down, ag, paths, w, steps)
    ensures PossibleRun(down, ag, paths, w, steps)
    ensures Bound(ag, paths, Run(down, ag, paths, w, steps))
    decreases |steps|
  {
    if steps != [] {
      StepKeepsBound(down, ag, paths, w, steps[0]);
      BoundUnlessOvertaken(down, ag, paths, Next(down, ag, w, steps[0]), steps[1..]);
    }
  }

  /** Being overtaken is what breaks the bound: a deletion and addition, undisturbed from their beginning
      on, leave more than one constraint of the file if and only if they are overtaken. */
  lemma OvertakenLeavesTwoExactly(down: nat -> bool, ag: Agent, paths: set<string>, w: World)
    requires AlwaysUp(down) && ag.namespace != ""
    requires Bound(ag, paths, w) && w.pc.phase.Chosen?
    ensures |Own(ag, w.pc.phase.path, Finish(down, PassOf(ag, w), w.snapshot, Pc([], w.pc.phase), w.db).rows)| > 1
            <==> Overtaken(ag, w)
  {
    var p, sum, ps := w.pc.phase.path, w.pc.phase.sum, PassOf(ag, w);
    assert p in paths;
    PodAgent.ChosenIsReplaced(down, ps, w.snapshot, p, sum, [], w.db);
    ReplaceMeaning(down, ps, w.snapshot, p, sum, w.db);
    var own, removed := Own(ag, p, w.db.rows), Removed(down, ps, w.snapshot, p, w.db);
    if own != [] {
      StoredIsRemoved(down, ag, paths, w, own[0].name);
    }
    FilterMembers(OwnTest(ag, p), w.db.rows);
    AtMostOneLeft(own, NotNamed(ag.namespace, removed), Auto(ag, p, sum));
  }

  lemma AtMostOneLeft(own: seq<Constraint>, stay: Constraint -> bool, target: Constraint)
    requires |own| <= 1 && forall c :: c in own ==> c.namespace == target.namespace
    ensures var left := Filter(stay, own);
            |if Exists(left, target.namespace, target.name) then left else left + [target]| > 1
            <==> own != [] && stay(own[0]) && own[0].name != target.name
  {
    if own != [] {
      assert own == [own[0]] && own[1..] == [] && own[0] in own;
      assert Filter(stay, own) == if stay(own[0]) then own else [];
      ExistsMember(Filter(stay, own), target.namespace, target.name);
    }
  }

  /** The one stored constraint is removed exactly if the snapshot lists it. */
  lemma StoredIsRemoved(down: nat -> bool, ag: Agent, paths: set<string>, w: World, name: string)
    requires AlwaysUp(down) && ag.namespace != ""
    requires Bound(ag, paths, w) && w.pc.phase.Chosen?
    requires var own := Own(ag, w.pc.phase.path, w.db.rows); own != [] && own[0].name == name
    ensures var p := w.pc.phase.path;
            name in Removed(down, PassOf(ag, w), w.snapshot, p, w.db) <==> Listing(ag, w, p)
  {
    var p, ps := w.pc.phase.path, PassOf(ag, w);
    var names := ToRemove(ps, w.snapshot, p);
    assert p in paths && |Own(ag, p, w.snapshot)| <= 1;
    var own := Own(ag, p, w.db.rows);
    assert own[0] in own;
    FilterMembers(OwnTest(ag, p), w.db.rows);
    StoredUnder(ag, p, w.db.rows, name);
    if p in Registered(w.basis) {
      ListedIsOwn(ag, p, w.snapshot);
      if name in names {
        assert names == [name];
        assert Works(down, w.db, ag.namespace, names, 0);
      }
    }
  }

  /** A matching snapshot lists under the prefix of a file exactly the constraints of the file. */
  lemma {:induction false} ListedIsOwn(ag: Agent, p: string, snapshot: seq<Constraint>)
    requires ag.namespace != "" && AllMatch(ag, snapshot)
    ensures Listed(Prefix(ag, p), snapshot) == Map((c: Constraint) => c.name, Own(ag, p, snapshot))
    ensures forall n :: n in Listed(Prefix(ag, p), snapshot) <==> n in Names(Own(ag, p, snapshot))
  {
    if snapshot != [] {
      var rest := snapshot[1..];
      assert Matches(ag.namespace, ag.podLabels)(snapshot[0]) && Within(ag.namespace, snapshot[0]);
      assert snapshot == [snapshot[0]] + rest;
      ListedIsOwn(ag, p, rest);
      if OwnTest(ag, p)(snapshot[0]) {
        assert Own(ag, p, snapshot)[1..] == Own(ag, p, rest);
        assert Own(ag, p, snapshot) == [snapshot[0]] + Own(ag, p, rest);
      } else {
        assert Own(ag, p, snapshot) == Own(ag, p, rest);
      }
    }
  }

  // ---- What overtakes a visit ----

  /** A file that the pass will visit has no constraint, or the one it had - registered when the pass
      began and listed -, or, once visited, one of its present checksum. */
  ghost predicate InStep(ag: Agent, w: World, p: string) {
    var own := Own(ag, p, w.db.rows);
    own == [] || Listing(ag, w, p) || (p in w.visited && own[0].name == Desired(PassOf(ag, w), p).name)
  }

  ghost predicate AllInStep(ag: Agent, w: World) {
    && (forall p :: p in w.pc.todo ==> InStep(ag, w, p))
    && (!w.pc.phase.Idle? && w.pc.phase.path in w.pc.todo ==>
          w.pc.phase.path in w.visited && w.pc.phase.sum[..10] == Checksum(ag, w.files, w.pc.phase.path)[..10])
    && !Overtaken(ag, w)
  }

  lemma MoveKeepsInStep(down: nat -> bool, ag: Agent, paths: set<string>, w: World)
    requires AlwaysUp(down) && ag.namespace != "" && Distinguished(ag, paths)
    requires Bound(ag, paths, w) && !Finished(w.pc) && AllInStep(ag, w)
    ensures AllInStep(ag, Next(down, ag, w, AgentMove))
  {
    if w.pc.phase.Idle? {
      ReadKeepsInStep(down, ag, w);
    } else if w.pc.phase.Chosen? {
      var w' := Next(down, ag, w, AgentMove);
      forall p | p in w'.pc.todo ensures InStep(ag, w', p) {
        assert InStep(ag, w, p);
      }
    } else if w.pc.phase.rest == [] {
      AddKeepsInStep(down, ag, paths, w);
    } else {
      RemoveKeepsBound(down, ag, paths, w);
      var w' := Next(down, ag, w, AgentMove);
      forall p | p in w'.pc.todo ensures InStep(ag, w', p) {
        assert p in w.pc.todo && p in paths && InStep(ag, w, p);
      }
    }
  }

  lemma ReadKeepsInStep(down: nat -> bool, ag: Agent, w: World)
    requires !Finished(w.pc) && w.pc.phase.Idle? && AllInStep(ag, w)
    ensures AllInStep(ag, Next(down, ag, w, AgentMove))
  {
    var w' := Next(down, ag, w, AgentMove);
    assert InStep(ag, w, w.pc.todo[0]);
    forall p | p in w'.pc.todo ensures InStep(ag, w', p) {
      assert p in w.pc.todo && InStep(ag, w, p);
    }
  }

  lemma AddKeepsInStep(down: nat -> bool, ag: Agent, paths: set<string>, w: World)
    requires AlwaysUp(down) && ag.namespace != "" && Distinguished(ag, paths)
    requires Bound(ag, paths, w) && w.pc.phase.Registering? && w.pc.phase.rest == [] && AllInStep(ag, w)
    ensures AllInStep(ag, Next(down, ag, w, AgentMove))
  {
    var path, w' := w.pc.phase.path, Next(down, ag, w, AgentMove);
    AddKeepsBound(down, ag, paths, w);
    forall p | p in w'.pc.todo ensures InStep(ag, w', p) {
      assert p in w.pc.todo && p in paths && InStep(ag, w, p);
      if p == path {
        assert Auto(ag, path, w.pc.phase.sum).name == Desired(PassOf(ag, w), path).name;
      }
    }
  }

  lemma StepKeepsInStep(down: nat -> bool, ag: Agent, paths: set<string>, w: World, step: Step)
    requires AlwaysUp(down) && ag.namespace != "" && Distinguished(ag, paths)
    requires Bound(ag, paths, w) && FreshStep(ag, paths, w, step) && !Rewrites(ag, w, step)
    requires AllInStep(ag, w)
    ensures AllInStep(ag, Next(down, ag, w, step))
  {
    var w' := Next(down, ag, w, step);
    match step {
      case AgentMove => MoveKeepsInStep(down, ag, paths, w);
      case BeginPass(todo) =>
        forall p | p in todo ensures InStep(ag, w', p) {
          if p !in Registered(w.snapshot) {
            UnregisteredOwnsNothing(ag, paths, w.snapshot, w.db.rows, p);
          } else if Own(ag, p, w.db.rows) != [] {
            assert Own(ag, p, w.snapshot)[0] in Own(ag, p, w.snapshot);
          }
        }
      case WriteFile(path, content) =>
        forall p | p in w'.pc.todo ensures InStep(ag, w', p) {
          assert InStep(ag, w, p);
        }
      case Sync =>
        SyncKeepsBound(down, ag, paths, w);
        forall p | p in paths && InStep(ag, w, p) ensures InStep(ag, w', p) {
          SyncedLists(ag, w, w', p);
        }
        if w.pc.phase.Chosen? {
          SyncedLists(ag, w, w', w.pc.phase.path);
        }
      case Other(_) =>
        OtherKeepsBound(down, ag, paths, w, step);
        forall p | p in w'.pc.todo ensures InStep(ag, w', p) {
          assert p in paths && InStep(ag, w, p);
        }
    }
  }

  lemma SyncedLists(ag: Agent, w: World, w': World, p: string)
    requires w'.basis == w.basis && w'.db.rows == w.db.rows && Own(ag, p, w'.snapshot) == Own(ag, p, w.db.rows)
    ensures Listing(ag, w, p) ==> Listing(ag, w', p)
  {
    if Listing(ag, w, p) {
      assert Own(ag, p, w.db.rows)[0] in Own(ag, p, w'.snapshot);
    }
  }

  /** The agent is between passes, and the store holds at most one constraint named after each file. */
  ghost predicate Ready(ag: Agent, paths: set<string>, w: World) {
    && Finished(w.pc) && NamesHold(ag, paths, w) && AllMatch(ag, w.snapshot)
    && forall p :: p in paths ==> |Own(ag, p, w.db.rows)| <= 1
  }

  lemma {:induction false} RunStaysInStep(
    down: nat -> bool, ag: Agent, paths: set<string>, w: World, steps: seq<Step>)
    requires AlwaysUp(down) && ag.namespace != "" && Distinguished(ag, paths)
    requires Bound(ag, paths, w) && AllInStep(ag, w)
    requires FreshRun(down, ag, paths, w, steps) && NeverRewrites(down, ag, paths, w, steps)
    ensures NeverOvertaken(down, ag, paths, w, steps)
    decreases |steps|
  {
    if steps != [] {
      StepKeepsBound(down, ag, paths, w, steps[0]);
      StepKeepsInStep(down, ag, paths, w, steps[0]);
      RunStaysInStep(down, ag, paths, Next(down, ag, w, steps[0]), steps[1..]);
    }
  }

  /** One checksum per file, at every moment of every run: passes begin fresh, the agent syncs, others
      add and remove, and files are written at any time - except that no file gets another checksum
      after the pass has read it while it is still to be visited again. */
  lemma OneChecksumPerFile(down: nat -> bool, ag: Agent, paths: set<string>, w: World, steps: seq<Step>, p: string)
    requires AlwaysUp(down) && ag.namespace != "" && Distinguished(ag, paths) && p in paths
    requires Ready(ag, paths, w)
    requires FreshRun(down, ag, paths, w, steps) && NeverRewrites(down, ag, paths, w, steps)
    ensures PossibleRun(down, ag, paths, w, steps)
    ensures |Own(ag, p, Run(down, ag, paths, w, steps).db.rows)| <= 1
  {
    RunStaysInStep(down, ag, paths, w, steps);
    BoundUnlessOvertaken(down, ag, paths, w, steps);
  }

  // ---- A run that breaks the bound ----

  lemma RunFirst(down: nat -> bool, ag: Agent, paths: set<string>, w: World, step: Step, rest: seq<Step>)
    requires FreshStep(ag, paths, w, step)
    requires FreshRun(down, ag, paths, Next(down, ag, w, step), rest)
    requires PossibleRun(down, ag, paths, Next(down, ag, w, step), rest)
    ensures FreshRun(down, ag, paths, w, [step] + rest) && PossibleRun(down, ag, paths, w, [step] + rest)
    ensures Run(down, ag, paths, w, [step] + rest) == Run(down, ag, paths, Next(down, ag, w, step), rest)
  {
    assert ([step] + rest)[1..] == rest;
  }

  /** Read, begin, remove, add: a visit that replaces a registered checksum, with one constraint listed
      and one stored. */
  lemma VisitMoves(
    down: nat -> bool, ag: Agent, w: World, path: string, later: seq<string>, listed: Constraint, stored: Constraint)
    returns (read: World, begun: World, cleared: World, added: World)
    requires AlwaysUp(down) && ag.namespace != ""
    requires w.pc == Pc([path] + later, Idle) && w.snapshot == [listed] && w.db.rows == [stored]
    requires Needs(PassOf(ag, w), path) && path in Registered(w.basis)
    requires Prefix(ag, path) <= listed.name && stored.namespace == ag.namespace
    requires stored.name != Desired(PassOf(ag, w), path).name
    ensures read == Next(down, ag, w, AgentMove) && !Finished(read.pc)
    ensures begun == Next(down, ag, read, AgentMove) && !Finished(begun.pc)
    ensures cleared == Next(down, ag, begun, AgentMove) && !Finished(cleared.pc)
    ensures added == Next(down, ag, cleared, AgentMove)
    ensures added == w.(
              db := Db((if stored.name == listed.name then [] else [stored]) + [Desired(PassOf(ag, w), path)],
                       added.db.calls),
              pc := Pc(later, Idle), visited := w.visited + {path}, done := w.done + {path})
  {
    var sum := Checksum(ag, w.files, path);
    var target := Auto(ag, path, sum);
    assert ([path] + later)[1..] == later && [listed][1..] == [];
    read := Next(down, ag, w, AgentMove);
    assert read == w.(pc := Pc(later, Chosen(path, sum)), visited := w.visited + {path});
    begun := Next(down, ag, read, AgentMove);
    assert begun == read.(pc := Pc(later, Registering(path, sum, [listed])));
    RemoveAlone(down, stored, listed.name, w.db.calls);
    var (after, reply) := Remove(down, w.db, ag.namespace, listed.name);
    RemoveMoveShape(down, ag, begun);
    cleared := Next(down, ag, begun, AgentMove);
    assert cleared == read.(db := after, pc := Pc(later, Registering(path, sum, [])));
    assert !Exists(after.rows, target.namespace, target.name);
    added := Next(down, ag, cleared, AgentMove);
    assert cleared.visited + {} == cleared.visited;
  }

  function Moving(rest: seq<Step>): seq<Step> {
    [AgentMove] + ([AgentMove] + ([AgentMove] + ([AgentMove] + rest)))
  }

  lemma RunVisit(
    down: nat -> bool, ag: Agent, paths: set<string>, w: World, path: string, later: seq<string>,
    listed: Constraint, stored: Constraint, rest: seq<Step>) returns (added: World)
    requires AlwaysUp(down) && ag.namespace != ""
    requires w.pc == Pc([path] + later, Idle) && w.snapshot == [listed] && w.db.rows == [stored]
    requires Needs(PassOf(ag, w), path) && path in Registered(w.basis)
    requires Prefix(ag, path) <= listed.name && stored.namespace == ag.namespace
    requires stored.name != Desired(PassOf(ag, w), path).name
    ensures added == w.(
              db := Db((if stored.name == listed.name then [] else [stored]) + [Desired(PassOf(ag, w), path)],
                       added.db.calls),
              pc := Pc(later, Idle), visited := w.visited + {path}, done := w.done + {path})
    ensures FreshRun(down, ag, paths, added, rest) && PossibleRun(down, ag, paths, added, rest) ==>
              && FreshRun(down, ag, paths, w, Moving(rest)) && PossibleRun(down, ag, paths, w, Moving(rest))
              && Run(down, ag, paths, w, Moving(rest)) == Run(down, ag, paths, added, rest)
  {
    var read, begun, cleared;
    read, begun, cleared, added := VisitMoves(down, ag, w, path, later, listed, stored);
    if FreshRun(down, ag, paths, added, rest) && PossibleRun(down, ag, paths, added, rest) {
      RunFirst(down, ag, paths, cleared, AgentMove, rest);
      RunFirst(down, ag, paths, begun, AgentMove, [AgentMove] + rest);
      RunFirst(down, ag, paths, read, AgentMove, [AgentMove] + ([AgentMove] + rest));
      RunFirst(down, ag, paths, w, AgentMove, [AgentMove] + ([AgentMove] + ([AgentMove] + rest)));
    }
  }

  /** One file, below two roots, whose content changes between its two visits: with a working database
      and a fresh snapshot, its first new checksum stays beside the second. */
  lemma RewrittenFileLeavesTwo(
    down: nat -> bool, ag: Agent, files: Files, path: string, content: string, registered: Digest)
    requires AlwaysUp(down) && ag.namespace != "" && path != ""
    requires var (first, second) := (Checksum(ag, files, path), ag.sha256(content));
             registered[..10] != first[..10] && first[..10] != second[..10] && second != registered
    ensures var stored := Auto(ag, path, registered);
            var w := World(Db([stored], 0), [stored], files, Pc([], Idle), [], [], {}, {});
            var steps := [BeginPass([path, path])] + Moving([WriteFile(path, content)] + Moving([]));
            && Ready(ag, {path}, w)
            && FreshRun(down, ag, {path}, w, steps) && PossibleRun(down, ag, {path}, w, steps)
            && Finished(Run(down, ag, {path}, w, steps).pc)
            && Run(down, ag, {path}, w, steps).db.rows
               == [Auto(ag, path, Checksum(ag, files, path)), Auto(ag, path, ag.sha256(content))]
  {
    var stored := Auto(ag, path, registered);
    var w := World(Db([stored], 0), [stored], files, Pc([], Idle), [], [], {}, {});
    var begun := Next(down, ag, w, BeginPass([path, path]));
    RegisteredTogether(ag, path, registered, registered);
    VisitedTwice(down, ag, begun, path, content, registered);
    BeginsFresh(down, ag, w, path, registered, Moving([WriteFile(path, content)] + Moving([])));
  }

  lemma BeginsFresh(down: nat -> bool, ag: Agent, w: World, path: string, registered: Digest, moves: seq<Step>)
    requires ag.namespace != "" && path != "" && Finished(w.pc)
    requires w.snapshot == w.db.rows == [Auto(ag, path, registered)]
    requires FreshRun(down, ag, {path}, Next(down, ag, w, BeginPass([path, path])), moves)
    requires PossibleRun(down, ag, {path}, Next(down, ag, w, BeginPass([path, path])), moves)
    ensures Ready(ag, {path}, w)
    ensures var steps := [BeginPass([path, path])] + moves;
            && FreshRun(down, ag, {path}, w, steps) && PossibleRun(down, ag, {path}, w, steps)
            && Run(down, ag, {path}, w, steps)
               == Run(down, ag, {path}, Next(down, ag, w, BeginPass([path, path])), moves)
  {
    StoredAlone(ag, path, registered);
    RunFirst(down, ag, {path}, w, BeginPass([path, path]), moves);
  }

  lemma VisitedTwice(down: nat -> bool, ag: Agent, begun: World, path: string, content: string, registered: Digest)
    requires AlwaysUp(down) && ag.namespace != ""
    requires var (first, second) := (Checksum(ag, begun.files, path), ag.sha256(content));
             registered[..10] != first[..10] && first[..10] != second[..10] && second != registered
    requires var stored := Auto(ag, path, registered);
             && begun.pc == Pc([path, path], Idle) && begun.snapshot == begun.db.rows == [stored]
             && Registered(begun.basis) == map[path := registered]
    ensures var steps := Moving([WriteFile(path, content)] + Moving([]));
            && FreshRun(down, ag, {path}, begun, steps) && PossibleRun(down, ag, {path}, begun, steps)
            && Finished(Run(down, ag, {path}, begun, steps).pc)
            && Run(down, ag, {path}, begun, steps).db.rows
               == [Auto(ag, path, Checksum(ag, begun.files, path)), Auto(ag, path, ag.sha256(content))]
  {
    var stored, former := Auto(ag, path, registered), Auto(ag, path, Checksum(ag, begun.files, path));
    var write := WriteFile(path, content);
    NamesDiffer(ag, path, registered, Checksum(ag, begun.files, path));
    NamesDiffer(ag, path, Checksum(ag, begun.files, path), ag.sha256(content));
    assert [path, path] == [path] + [path] && [path] == [path] + [];
    var once := RunVisit(down, ag, {path}, begun, path, [path], stored, stored, [write] + Moving([]));
    assert once.db.rows == [former];
    var written := Next(down, ag, once, write);
    assert Checksum(ag, written.files, path) == ag.sha256(content);
    var twice := RunVisit(down, ag, {path}, written, path, [], stored, former, []);
    RunFirst(down, ag, {path}, once, write, Moving([]));
  }

  lemma StoredAlone(ag: Agent, path: string, sum: Digest)
    requires ag.namespace != "" && path != ""
    ensures var stored := Auto(ag, path, sum);
            && Keyed([stored]) && WellNamed(ag, {path}, [stored]) && AllMatch(ag, [stored])
            && Own(ag, path, [stored]) == [stored]
  {
    TargetIsOwn(ag, path, sum);
    TargetWellNamed(ag, {path}, path, sum);
    FilterAll(OwnTest(ag, path), [Auto(ag, path, sum)]);
  }
}
