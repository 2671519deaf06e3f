/** Main results about file registration: it converges. */
module RegistrationResults {
  import opened Model
  import opened Seqs
  import opened ConfigServer
  import opened FileRegistration
  import opened RegistrationProofs

  // ---- Every listed file is dealt with ----

  /** The agent has chosen to register the file. */
  predicate IsAt(w: World, p: string) {
    !w.pc.phase.Idle? && w.pc.phase.path == p
  }

  predicate Pending(w: World, p: string) {
    p in w.pc.todo || IsAt(w, p) || p in w.done
  }

  lemma {:induction false} PassTracksFiles(
    down: nat -> bool, ag: Agent, paths: set<string>, w: World, steps: seq<Step>, p: string)
    requires OrderlyRun(down, ag, paths, p, w, steps)
    ensures PossibleRun(down, ag, paths, w, steps)
    ensures var end := Run(down, ag, paths, w, steps);
            && (Pending(w, p) ==> Pending(end, p))
            && Checksum(ag, end.files, p) == Checksum(ag, w.files, p)
            && end.basis == w.basis && end.atStart == w.atStart
    decreases |steps|
  {
    if steps != [] {
      var next := Next(down, ag, w, steps[0]);
      assert Pending(w, p) ==> Pending(next, p);
      PassTracksFiles(down, ag, paths, next, steps[1..], p);
    }
  }

  /** A file that a finished pass had to register is accepted once the agent has synced again; the
      synced snapshot lists of it exactly what the pass aimed at. */
  lemma DoneIsAccepted(down: nat -> bool, ag: Agent, paths: set<string>, w: World, p: string)
    requires AlwaysUp(down) && Inv(ag, paths, p, w) && Finished(w.pc) && p in w.done && p in paths
    ensures var synced := Next(down, ag, w, Sync).snapshot;
            && Own(ag, p, synced) == Goal(ag, w, p)
            && (Needs(PassOf(ag, w), p) ==> Accepted(ag, w.files, synced, p))
  {
    if Needs(PassOf(ag, w), p) {
      FilterMembers(OwnTest(ag, p), w.db.rows);
      assert Desired(PassOf(ag, w), p) in Own(ag, p, w.db.rows);
      StoredIsAccepted(down, ag, paths, w, p);
    }
    SyncKeepsOwn(ag, paths, w.db.rows, p);
  }

  /** With its own constraint for the present checksum stored, a file is accepted after a sync. */
  lemma StoredIsAccepted(down: nat -> bool, ag: Agent, paths: set<string>, w: World, p: string)
    requires AlwaysUp(down) && WellNamed(ag, paths, w.db.rows) && p in paths
    requires Auto(ag, p, Checksum(ag, w.files, p)) in Own(ag, p, w.db.rows)
    ensures Accepted(ag, w.files, Next(down, ag, w, Sync).snapshot, p)
  {
    var synced, target := Next(down, ag, w, Sync).snapshot, Auto(ag, p, Checksum(ag, w.files, p));
    SyncKeepsOwn(ag, paths, w.db.rows, p);
    FilterMembers(OwnTest(ag, p), synced);
    RuleMembers(synced);
    assert target in synced && FileRule(p, Checksum(ag, w.files, p)) in target.allowedFiles;
  }

  // ---- The rules that made registration unnecessary ----

  predicate RemovedBy(step: Step, c: Constraint) {
    step.Other? && step.request.RemoveRequest? && Named(c, step.request.namespace, step.request.name)
  }

  predicate AddedBy(step: Step, rule: FileRule) {
    && step.Other? && step.request.AddRequest? && step.request.constraint.Some?
    && rule in step.request.constraint.value.allowedFiles
  }

  /** Some other client asked for the removal of the constraint. */
  predicate Removes(steps: seq<Step>, c: Constraint) {
    exists s :: s in steps && RemovedBy(s, c)
  }

  /** Some other client asked for the addition of a constraint with the rule. */
  predicate Adds(steps: seq<Step>, rule: FileRule) {
    exists s :: s in steps && AddedBy(s, rule)
  }

  lemma RemovedExactly(down: nat -> bool, db: Db, namespace: string, name: string, c: Constraint)
    requires AlwaysUp(down) && Keyed(db.rows)
    ensures c in Remove(down, db, namespace, name).0.rows <==> c in db.rows && !Named(c, namespace, name)
  {
    RemoveFirstIsExact(db.rows, namespace, name);
    if c in db.rows && Named(c, namespace, name) {
      var k :| 0 <= k < |db.rows| && db.rows[k] == c;
      assert Exists(db.rows, namespace, name);
    }
  }

  /** The agent's moves about other files neither remove nor add a constraint with a rule for the file. */
  lemma CarrierMove(down: nat -> bool, ag: Agent, paths: set<string>, w: World, rule: FileRule, c: Constraint)
    requires AlwaysUp(down) && NamesHold(ag, paths, w) && !Finished(w.pc) && !IsAt(w, rule.name)
    requires rule in c.allowedFiles
    ensures c in Next(down, ag, w, AgentMove).db.rows <==> c in w.db.rows
  {
    if w.pc.phase.Registering? {
      var path, rest := w.pc.phase.path, w.pc.phase.rest;
      assert c != Auto(ag, path, w.pc.phase.sum);
      if rest != [] && Prefix(ag, path) <= rest[0].name {
        RemovedExactly(down, w.db, ag.namespace, rest[0].name, c);
        assert c in w.db.rows && OwnTest(ag, path)(c) ==> c.allowedFiles == [FileRule(path, c.allowedFiles[0].sha256Sum)];
        assert Named(c, ag.namespace, rest[0].name) ==> OwnTest(ag, path)(c);
      }
    }
  }

  /** A constraint with the rule that makes registering a file unnecessary is out of the agent's reach:
      a step removes it only by another client's call that names it, and only such clients add one. */
  lemma CarrierStep(
    down: nat -> bool, ag: Agent, paths: set<string>, w: World, step: Step, rule: FileRule, c: Constraint)
    requires AlwaysUp(down) && NamesHold(ag, paths, w) && Possible(paths, w, step) && !IsAt(w, rule.name)
    requires rule in c.allowedFiles
    ensures c in w.db.rows && !RemovedBy(step, c) ==> c in Next(down, ag, w, step).db.rows
    ensures c in Next(down, ag, w, step).db.rows && !AddedBy(step, rule) ==> c in w.db.rows && !RemovedBy(step, c)
  {
    if step.Other? && step.request.RemoveRequest? {
      RemovedExactly(down, w.db, step.request.namespace, step.request.name, c);
    } else if step.AgentMove? {
      CarrierMove(down, ag, paths, w, rule, c);
    }
  }

  /** A file that need not be registered is not chosen. */
  lemma UnneededIsNotChosen(
    down: nat -> bool, ag: Agent, paths: set<string>, p: string, w: World, step: Step)
    requires Orderly(ag, paths, p, w, step) && !IsAt(w, p) && !Needs(PassOf(ag, w), p)
    ensures var next := Next(down, ag, w, step);
            !IsAt(next, p) && !Needs(PassOf(ag, next), p) && Checksum(ag, next.files, p) == Checksum(ag, w.files, p)
  {
  }

  lemma {:induction false} CarriersFollowed(
    down: nat -> bool, ag: Agent, paths: set<string>, w: World, steps: seq<Step>, p: string, c: Constraint)
    requires AlwaysUp(down) && Distinguished(ag, paths) && NamesHold(ag, paths, w)
    requires OrderlyRun(down, ag, paths, p, w, steps) && PossibleRun(down, ag, paths, w, steps)
    requires !IsAt(w, p) && !Needs(PassOf(ag, w), p) && FileRule(p, Checksum(ag, w.files, p)) in c.allowedFiles
    ensures c in w.db.rows && !Removes(steps, c) ==> c in Run(down, ag, paths, w, steps).db.rows
    ensures c in Run(down, ag, paths, w, steps).db.rows && !Adds(steps, FileRule(p, Checksum(ag, w.files, p))) ==>
              c in w.db.rows && !Removes(steps, c)
    decreases |steps|
  {
    if steps != [] {
      var first, rest := steps[0], steps[1..];
      assert steps == [first] + rest && first in steps;
      CarrierStep(down, ag, paths, w, first, FileRule(p, Checksum(ag, w.files, p)), c);
      NamesKeptByStep(down, ag, paths, w, first);
      UnneededIsNotChosen(down, ag, paths, p, w, first);
      CarriersFollowed(down, ag, paths, Next(down, ag, w, first), rest, p, c);
    }
  }

  /** Some matching constraint has the rule, and no other client had it removed. */
  ghost predicate Kept(ag: Agent, rows: seq<Constraint>, rule: FileRule, steps: seq<Step>) {
    exists c :: c in Matching(rows, ag.namespace, ag.podLabels) && rule in c.allowedFiles && !Removes(steps, c)
  }

  /** What a file that need not be registered depends on: a rule for its checksum that was kept, and
      nothing else unless others added one. */
  lemma UnneededAcceptedExactly(
    down: nat -> bool, ag: Agent, paths: set<string>, w: World, steps: seq<Step>, p: string)
    requires AlwaysUp(down) && Distinguished(ag, paths) && NamesHold(ag, paths, w)
    requires OrderlyRun(down, ag, paths, p, w, steps) && PossibleRun(down, ag, paths, w, steps)
    requires !IsAt(w, p) && !Needs(PassOf(ag, w), p)
    ensures var synced := Next(down, ag, Run(down, ag, paths, w, steps), Sync);
            var rule := FileRule(p, Checksum(ag, w.files, p));
            && (Kept(ag, w.db.rows, rule, steps) ==> Accepted(ag, synced.files, synced.snapshot, p))
            && (!Adds(steps, rule) ==>
                  (Accepted(ag, synced.files, synced.snapshot, p) <==> Kept(ag, w.db.rows, rule, steps)))
  {
    PassTracksFiles(down, ag, paths, w, steps, p);
    var end := Run(down, ag, paths, w, steps);
    var synced, rule := Next(down, ag, end, Sync), FileRule(p, Checksum(ag, w.files, p));
    RuleMembers(synced.snapshot);
    FilterMembers(Matches(ag.namespace, ag.podLabels), end.db.rows);
    FilterMembers(Matches(ag.namespace, ag.podLabels), w.db.rows);
    forall c: Constraint | rule in c.allowedFiles
      ensures c in w.db.rows && !Removes(steps, c) ==> c in end.db.rows
      ensures c in end.db.rows && !Adds(steps, rule) ==> c in w.db.rows && !Removes(steps, c)
    {
      CarriersFollowed(down, ag, paths, w, steps, p, c);
    }
  }

  // ---- Convergence of a pass from a synced snapshot ----

  /** After a pass during which a listed file kept its checksum, the file is accepted if it had to be
      registered or a rule for its checksum was kept; and only then, if others added no such rule. */
  lemma AcceptedExactly(
    down: nat -> bool, ag: Agent, paths: set<string>, begun: World, during: seq<Step>, p: string)
    requires AlwaysUp(down) && ag.namespace != "" && Distinguished(ag, paths) && p in paths
    requires Inv(ag, paths, p, begun) && begun.done == {} && begun.pc.phase.Idle? && p in begun.pc.todo
    requires OrderlyRun(down, ag, paths, p, begun, during) && PossibleRun(down, ag, paths, begun, during)
    requires Finished(Run(down, ag, paths, begun, during).pc)
    ensures var synced := Next(down, ag, Run(down, ag, paths, begun, during), Sync);
            var needed := Needs(PassOf(ag, begun), p);
            var rule := FileRule(p, Checksum(ag, begun.files, p));
            && (needed || Kept(ag, begun.db.rows, rule, during) ==> Accepted(ag, synced.files, synced.snapshot, p))
            && (!Adds(during, rule) ==>
                  (Accepted(ag, synced.files, synced.snapshot, p)
                   <==> needed || Kept(ag, begun.db.rows, rule, during)))
  {
    if Needs(PassOf(ag, begun), p) {
      PassTracksFiles(down, ag, paths, begun, during, p);
      RunKeepsInv(down, ag, paths, p, begun, during);
      DoneIsAccepted(down, ag, paths, Run(down, ag, paths, begun, during), p);
    } else {
      UnneededAcceptedExactly(down, ag, paths, begun, during, p);
    }
  }

  /** A sync makes the snapshot fresh. */
  lemma SyncedIsFresh(down: nat -> bool, ag: Agent, paths: set<string>, w: World)
    requires AlwaysUp(down) && NamesHold(ag, paths, w)
    ensures var synced := Next(down, ag, w, Sync);
            NamesHold(ag, paths, synced) && Fresh(ag, paths, synced) && AllMatch(ag, synced.snapshot)
  {
    forall p | p in paths
      ensures Own(ag, p, Matching(w.db.rows, ag.namespace, ag.podLabels)) == Own(ag, p, w.db.rows)
    {
      SyncKeepsOwn(ag, paths, w.db.rows, p);
    }
    FilterMembers(Matches(ag.namespace, ag.podLabels), w.db.rows);
  }

  /** Registration converges, whatever came before: passes from stale snapshots, failed database
      calls, other clients' work. Then the agent syncs and begins a pass over any list of files -
      with repetitions, as overlapping roots produce them. Its moves interleave in any way with its
      own syncs, with writes to other files, and with calls of other clients, who leave what is named
      after this file alone. When it has finished and the agent has synced, a listed file that kept its
      checksum is accepted if it had to be registered, or if some constraint with a rule for it was
      not removed; and only then, unless another client added such a rule. */
  lemma RegistrationConverges(
    downBefore: nat -> bool, down: nat -> bool, ag: Agent, paths: set<string>, start: World, history: seq<Step>,
    todo: seq<string>, during: seq<Step>, p: string)
    requires AlwaysUp(down) && ag.namespace != "" && Distinguished(ag, paths)
    requires NamesHold(ag, paths, start) && PossibleRun(downBefore, ag, paths, start, history)
    requires var w := Run(downBefore, ag, paths, start, history);
             && Finished(w.pc) && p in todo && (forall q :: q in todo ==> q in paths)
             && var begun := Next(down, ag, Next(down, ag, w, Sync), BeginPass(todo));
             && OrderlyRun(down, ag, paths, p, begun, during)
             && PossibleRun(down, ag, paths, begun, during)
             && Finished(Run(down, ag, paths, begun, during).pc)
    ensures var w := Run(downBefore, ag, paths, start, history);
            var begun := Next(down, ag, Next(down, ag, w, Sync), BeginPass(todo));
            var synced := Next(down, ag, Run(down, ag, paths, begun, during), Sync);
            var needed := Needs(PassOf(ag, begun), p);
            var rule := FileRule(p, Checksum(ag, begun.files, p));
            && (needed || Kept(ag, begun.db.rows, rule, during) ==>
                  && Accepted(ag, synced.files, synced.snapshot, p)
                  && p !in Violations(ag, synced.files, synced.snapshot))
            && (!Adds(during, rule) ==>
                  (Accepted(ag, synced.files, synced.snapshot, p)
                   <==> needed || Kept(ag, begun.db.rows, rule, during)))
  {
    NamesKeptByRun(downBefore, ag, paths, start, history);
    var w := Run(downBefore, ag, paths, start, history);
    SyncedIsFresh(down, ag, paths, w);
    var synced := Next(down, ag, w, Sync);
    BeginHolds(down, ag, paths, synced, todo);
    AcceptedExactly(down, ag, paths, Next(down, ag, synced, BeginPass(todo)), during, p);
  }

  // ---- Convergence from the last reading on, from any snapshot ----

  /** No constraint of the file bears the name of its present checksum for another one: the ten digits
      tell. */
  ghost predicate NameTells(ag: Agent, p: string, rows: seq<Constraint>, sum: Digest) {
    forall c :: c in Own(ag, p, rows) && c.name == Auto(ag, p, sum).name ==> c == Auto(ag, p, sum)
  }

  /** The new constraint is stored, or the agent is still going to store it. */
  ghost predicate Underway(ag: Agent, paths: set<string>, p: string, sum: Digest, w: World) {
    && NamesHold(ag, paths, w) && NameTells(ag, p, w.db.rows, sum)
    && Needs(PassOf(ag, w), p) && Checksum(ag, w.files, p) == sum
    && (IsAt(w, p) ==> w.pc.phase.sum == sum)
    && (p in w.pc.todo || IsAt(w, p) || Auto(ag, p, sum) in Own(ag, p, w.db.rows))
  }

  /** Adding the constraint of a checksum stores it, unless another one has its name. */
  lemma AddStores(down: nat -> bool, ag: Agent, db: Db, p: string, sum: Digest)
    requires AlwaysUp(down) && ag.namespace != "" && NameTells(ag, p, db.rows, sum)
    ensures var after := Add(down, db, Some(Auto(ag, p, sum))).0.rows;
            Auto(ag, p, sum) in Own(ag, p, after) && NameTells(ag, p, after, sum)
  {
    var target, after := Auto(ag, p, sum), Add(down, db, Some(Auto(ag, p, sum))).0.rows;
    TargetIsOwn(ag, p, sum);
    FilterMembers(OwnTest(ag, p), db.rows);
    FilterMembers(OwnTest(ag, p), after);
    if Exists(db.rows, target.namespace, target.name) {
      var i :| 0 <= i < |db.rows| && Named(db.rows[i], target.namespace, target.name);
      assert OwnTest(ag, p)(db.rows[i]) && db.rows[i] in Own(ag, p, db.rows);
    }
  }

  lemma RemoveTells(ag: Agent, p: string, rows: seq<Constraint>, sum: Digest, namespace: string, name: string)
    requires NameTells(ag, p, rows, sum)
    ensures NameTells(ag, p, RemoveFirst(rows, namespace, name), sum)
  {
    RemoveFirstKeepsOthers(rows, namespace, name);
    FilterMembers(OwnTest(ag, p), rows);
    FilterMembers(OwnTest(ag, p), RemoveFirst(rows, namespace, name));
  }

  lemma MoveKeepsUnderway(down: nat -> bool, ag: Agent, paths: set<string>, p: string, sum: Digest, w: World)
    requires AlwaysUp(down) && ag.namespace != "" && Distinguished(ag, paths) && p in paths
    requires Underway(ag, paths, p, sum, w) && !Finished(w.pc)
    ensures Underway(ag, paths, p, sum, Next(down, ag, w, AgentMove))
  {
    NamesKeptByStep(down, ag, paths, w, AgentMove);
    if !IsAt(w, p) {
      OtherFileMove(down, ag, paths, w, p);
    } else if w.pc.phase.Registering? {
      if w.pc.phase.rest == [] {
        AddStores(down, ag, w.db, p, sum);
      } else if Prefix(ag, p) <= w.pc.phase.rest[0].name {
        RemoveMoveShape(down, ag, w);
        RemoveTells(ag, p, w.db.rows, sum, ag.namespace, w.pc.phase.rest[0].name);
      }
    }
  }

  lemma {:induction false} RunKeepsUnderway(
    down: nat -> bool, ag: Agent, paths: set<string>, p: string, sum: Digest, w: World, steps: seq<Step>)
    requires AlwaysUp(down) && ag.namespace != "" && Distinguished(ag, paths) && p in paths
    requires Underway(ag, paths, p, sum, w) && OrderlyRun(down, ag, paths, p, w, steps)
    ensures PossibleRun(down, ag, paths, w, steps)
    ensures Underway(ag, paths, p, sum, Run(down, ag, paths, w, steps))
    decreases |steps|
  {
    if steps != [] {
      var step := steps[0];
      if step.AgentMove? {
        MoveKeepsUnderway(down, ag, paths, p, sum, w);
      } else {
        NamesKeptByStep(down, ag, paths, w, step);
        if step.Other? {
          OtherOwn(down, ag, paths, w, step, p);
        }
      }
      RunKeepsUnderway(down, ag, paths, p, sum, Next(down, ag, w, step), steps[1..]);
    }
  }

  /** What decides is the store and the file at its last reading, whatever the snapshot, and whatever
      happened before: writes to this file, failed calls, removals. A file that the agent is about to
      read in its pass, and that keeps its checksum from then on, is accepted after the pass and a
      sync: if it has to be registered, always; otherwise exactly if a matching rule for its checksum
      that is stored then is not removed, unless another client adds such a rule. */
  lemma LastReadingDecides(
    downBefore: nat -> bool, down: nat -> bool, ag: Agent, paths: set<string>, start: World, history: seq<Step>,
    p: string, rest: seq<Step>)
    requires AlwaysUp(down) && ag.namespace != "" && Distinguished(ag, paths)
    requires NamesHold(ag, paths, start) && PossibleRun(downBefore, ag, paths, start, history)
    requires var w := Run(downBefore, ag, paths, start, history);
             && p in w.pc.todo && !IsAt(w, p)
             && OrderlyRun(down, ag, paths, p, w, rest) && PossibleRun(down, ag, paths, w, rest)
             && Finished(Run(down, ag, paths, w, rest).pc)
    ensures var w := Run(downBefore, ag, paths, start, history);
            var synced := Next(down, ag, Run(down, ag, paths, w, rest), Sync);
            var rule := FileRule(p, Checksum(ag, w.files, p));
            if Needs(PassOf(ag, w), p) then
              NameTells(ag, p, w.db.rows, Checksum(ag, w.files, p)) ==>
                Accepted(ag, synced.files, synced.snapshot, p)
            else
              && (Kept(ag, w.db.rows, rule, rest) ==> Accepted(ag, synced.files, synced.snapshot, p))
              && (!Adds(rest, rule) ==>
                    (Accepted(ag, synced.files, synced.snapshot, p) <==> Kept(ag, w.db.rows, rule, rest)))
  {
    NamesKeptByRun(downBefore, ag, paths, start, history);
    var w := Run(downBefore, ag, paths, start, history);
    var sum := Checksum(ag, w.files, p);
    assert p in paths;
    if !Needs(PassOf(ag, w), p) {
      UnneededAcceptedExactly(down, ag, paths, w, rest, p);
    } else if NameTells(ag, p, w.db.rows, sum) {
      RunKeepsUnderway(down, ag, paths, p, sum, w, rest);
      StoredIsAccepted(down, ag, paths, Run(down, ag, paths, w, rest), p);
    }
  }

  // ---- An undisturbed pass is a run ----

  ghost function Moves(n: nat): seq<Step> {
    seq(n, _ => AgentMove)
  }

  /** Running the agent alone to the end of its pass is one of the runs of the state machine. */
  lemma {:induction false} FinishIsRun(down: nat -> bool, ag: Agent, paths: set<string>, w: World) returns (n: nat)
    requires PathsKnown(paths, w.pc)
    ensures PossibleRun(down, ag, paths, w, Moves(n))
    ensures var end := Run(down, ag, paths, w, Moves(n));
            && Finished(end.pc)
            && end.db == Finish(down, PassOf(ag, w), w.snapshot, w.pc, w.db)
            && end.files == w.files && end.basis == w.basis && end.snapshot == w.snapshot
            && (forall p :: Pending(w, p) ==> p in end.done)
    decreases |w.pc.todo|, Remaining(w.pc.phase, w.snapshot)
  {
    if Finished(w.pc) {
      n := 0;
    } else {
      var next := Next(down, ag, w, AgentMove);
      forall p | Pending(w, p) ensures Pending(next, p) {}
      var m := FinishIsRun(down, ag, paths, next);
      n := m + 1;
      assert Moves(n)[0] == AgentMove && Moves(n)[1..] == Moves(m);
    }
  }

  lemma {:induction false} MovesAreOrderly(
    down: nat -> bool, ag: Agent, paths: set<string>, p: string, w: World, n: nat)
    requires PossibleRun(down, ag, paths, w, Moves(n))
    ensures OrderlyRun(down, ag, paths, p, w, Moves(n))
    decreases n
  {
    if n > 0 {
      assert Moves(n)[0] == AgentMove && Moves(n)[1..] == Moves(n - 1);
      MovesAreOrderly(down, ag, paths, p, Next(down, ag, w, AgentMove), n - 1);
    }
  }

  /** What an undisturbed pass from a fresh snapshot does to the constraints of every file, whatever
      the order and repetition of the files. */
  lemma PassMeaning(
    down: nat -> bool, ag: Agent, paths: set<string>, files: Files, snapshot: seq<Constraint>, rows: seq<Constraint>,
    calls: nat, todo: seq<string>, p: string)
    requires AlwaysUp(down) && ag.namespace != "" && Distinguished(ag, paths)
    requires Keyed(rows) && WellNamed(ag, paths, rows) && AllMatch(ag, snapshot)
    requires forall q :: q in paths ==> Own(ag, q, snapshot) == Own(ag, q, rows)
    requires (forall q :: q in todo ==> q in paths) && p in paths
    ensures var ps := Pass(ag, files, Registered(snapshot));
            Own(ag, p, Finish(down, ps, snapshot, Pc(todo, Idle), Db(rows, calls)).rows)
            == if p in todo && Needs(ps, p) then [Desired(ps, p)] else Own(ag, p, rows)
  {
    var w := World(Db(rows, calls), snapshot, files, Pc([], Idle), [], [], {}, {});
    var begun := Next(down, ag, w, BeginPass(todo));
    BeginHolds(down, ag, paths, w, todo);
    var n := FinishIsRun(down, ag, paths, begun);
    MovesAreOrderly(down, ag, paths, p, begun, n);
    RunKeepsInv(down, ag, paths, p, begun, Moves(n));
    MovesKeepHistory(down, ag, paths, begun, n, todo);
    var end := Run(down, ag, paths, begun, Moves(n));
    assert p in todo ==> Pending(begun, p);
    assert p in end.done ==> Pending(end, p);
  }

  lemma {:induction false} MovesKeepHistory(
    down: nat -> bool, ag: Agent, paths: set<string>, w: World, n: nat, todo: seq<string>)
    requires PossibleRun(down, ag, paths, w, Moves(n))
    requires forall p :: Pending(w, p) ==> p in todo
    ensures var end := Run(down, ag, paths, w, Moves(n));
            end.atStart == w.atStart && (forall p :: Pending(end, p) ==> p in todo)
    decreases n
  {
    if n > 0 {
      assert Moves(n)[0] == AgentMove && Moves(n)[1..] == Moves(n - 1);
      var next := Next(down, ag, w, AgentMove);
      forall p | Pending(next, p) ensures Pending(w, p) {}
      MovesKeepHistory(down, ag, paths, next, n - 1, todo);
    }
  }
}
