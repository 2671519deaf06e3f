/** Several agents at one server: when their constraints keep out of each other's way, and that each
    agent's registration converges while the others run. */
module SeveralAgents {
  import opened Model
  import Strings
  import opened ConfigServer
  import opened FileRegistration
  import opened RegistrationProofs
  import opened RegistrationResults
  import NodeAgent

  // ---- Whose name is it? ----

  /** A text ending in a dash begins a name exactly if it begins the part up to the name's last dash. */
  lemma EndsAtDash(prefix: string, base: string, tail: string)
    requires prefix != "" && prefix[|prefix| - 1] == '-' && '-' !in tail
    ensures prefix <= base + "-" + tail <==> prefix <= base + "-"
  {
    var name := base + "-" + tail;
    if prefix <= name {
      assert name[|prefix| - 1] == '-';
    }
  }

  /** When a prefix of one agent begins one of another: the pods have one name and the files' digits
      agree, or the second pod's name is the first's with the digits, or goes on from there. */
  lemma PrefixBegins(ag1: Agent, p: string, ag2: Agent, q: string)
    ensures Prefix(ag1, p) <= Prefix(ag2, q) <==>
              || (ag1.podName == ag2.podName && ag1.sha256(p)[..10] == ag2.sha256(q)[..10])
              || Prefix(ag1, p) <= ag2.podName + "-"
  {
    var one, digits := Prefix(ag1, p), ag2.sha256(q)[..10];
    var bare := ag2.podName + "-" + digits;
    assert Prefix(ag2, q) == bare + "-";
    forall c | c in digits ensures c != '-' {
      assert c in ag2.sha256(q);
    }
    EndsAtDash(one, ag2.podName, digits);
    if one <= bare + "-" && !(one <= bare) {
      assert |one| == |bare + "-"| && one == bare + "-";
      SamePrefix(ag1, p, ag2, q);
    }
    if one <= bare {
      assert one == bare[..|one|] == (bare + "-")[..|one|];
    }
  }

  lemma SamePrefix(ag1: Agent, p: string, ag2: Agent, q: string)
    requires Prefix(ag1, p) == Prefix(ag2, q)
    ensures ag1.podName == ag2.podName && ag1.sha256(p)[..10] == ag2.sha256(q)[..10]
  {
    var n := |ag1.podName|;
    assert |ag2.podName| == n;
    assert ag1.podName == Prefix(ag1, p)[..n] == Prefix(ag2, q)[..n] == ag2.podName;
    assert ag1.sha256(p)[..10] == Prefix(ag1, p)[n + 1..n + 11] == Prefix(ag2, q)[n + 1..n + 11] == ag2.sha256(q)[..10];
  }

  /** Exactly when the constraint another agent registers for a file bears a name reserved for one of
      this agent's files. */
  lemma AutoReservedExactly(ag1: Agent, paths: set<string>, ag2: Agent, q: string, sum: Digest)
    ensures Reserved(ag1, paths, ag2.namespace, Auto(ag2, q, sum).name) <==>
              && ag2.namespace == ag1.namespace
              && exists p :: p in paths && (
                   || (ag1.podName == ag2.podName && ag1.sha256(p)[..10] == ag2.sha256(q)[..10])
                   || Prefix(ag1, p) <= ag2.podName + "-")
  {
    var base, tail := ag2.podName + "-" + ag2.sha256(q)[..10], sum[..10];
    assert Prefix(ag2, q) == base + "-" && Auto(ag2, q, sum).name == base + "-" + tail;
    forall c | c in tail ensures c != '-' {
      assert c in sum;
    }
    forall p | p in paths
      ensures Prefix(ag1, p) <= Auto(ag2, q, sum).name <==>
                || (ag1.podName == ag2.podName && ag1.sha256(p)[..10] == ag2.sha256(q)[..10])
                || Prefix(ag1, p) <= ag2.podName + "-"
    {
      EndsAtDash(Prefix(ag1, p), base, tail);
      PrefixBegins(ag1, p, ag2, q);
    }
  }

  lemma {:induction false} DecimalHasNoDash(n: nat)
    ensures '-' !in Strings.Decimal(n)
  {
    forall k | 0 <= k < 10 ensures "0123456789"[k] != '-' {}
    if n >= 10 {
      DecimalHasNoDash(n / 10);
    }
  }

  /** Exactly when the constraint the node agent registers for a process in some pod does: if the pod is
      named like this agent's, with a dash and the ten digits of a file, or goes on from there. */
  lemma RegistrationReservedExactly(ag: Agent, paths: set<string>, namespace: string, podName: string, now: nat)
    ensures Reserved(ag, paths, namespace, NodeAgent.RegistrationName(podName, now)) <==>
              namespace == ag.namespace && exists p :: p in paths && Prefix(ag, p) <= podName + "-"
  {
    DecimalHasNoDash(now / NodeAgent.NAME_SLOT);
    forall p | p in paths
      ensures Prefix(ag, p) <= NodeAgent.RegistrationName(podName, now) <==> Prefix(ag, p) <= podName + "-"
    {
      EndsAtDash(Prefix(ag, p), podName, Strings.Decimal(now / NodeAgent.NAME_SLOT));
    }
  }

  /** The node agent's registrations are calls of others as the results on registration admit them,
      exactly if the pod is not named like that - in particular for the agent's own pod. */
  lemma OwnPodIsNotReserved(ag: Agent, paths: set<string>, now: nat)
    ensures !Reserved(ag, paths, ag.namespace, NodeAgent.RegistrationName(ag.podName, now))
  {
    RegistrationReservedExactly(ag, paths, ag.namespace, ag.podName, now);
  }

  // ---- Another agent's moves ----

  predicate Begins(prefix: string, name: string) {
    prefix <= name
  }

  /** No name is under a file's prefix of both agents. */
  ghost predicate Apart(ag1: Agent, p: string, ag2: Agent, q: string) {
    ag1.namespace != ag2.namespace || forall name :: !(Begins(Prefix(ag1, p), name) && Begins(Prefix(ag2, q), name))
  }

  lemma ApartExactly(ag1: Agent, p: string, ag2: Agent, q: string)
    ensures Apart(ag1, p, ag2, q) <==>
              || ag1.namespace != ag2.namespace
              || (&& !(ag1.podName == ag2.podName && ag1.sha256(p)[..10] == ag2.sha256(q)[..10])
                  && !(Prefix(ag1, p) <= ag2.podName + "-") && !(Prefix(ag2, q) <= ag1.podName + "-"))
  {
    var one, two := Prefix(ag1, p), Prefix(ag2, q);
    PrefixBegins(ag1, p, ag2, q);
    PrefixBegins(ag2, q, ag1, p);
    assert one <= two ==> Begins(one, two) && Begins(two, two);
    assert two <= one ==> Begins(one, one) && Begins(two, one);
    forall name | Begins(one, name) && Begins(two, name) ensures one <= two || two <= one {
      assert one == name[..|one|] && two == name[..|two|];
      if |one| <= |two| {
        assert one == two[..|one|];
      } else {
        assert two == one[..|two|];
      }
    }
  }

  /** The call an agent makes by its next move, if it makes one. */
  function RequestOf(ag: Agent, pc: Pc): Option<Request> {
    if !pc.phase.Registering? then None
    else if pc.phase.rest == [] then Some(AddRequest(Some(Auto(ag, pc.phase.path, pc.phase.sum))))
    else if Prefix(ag, pc.phase.path) <= pc.phase.rest[0].name then
      Some(RemoveRequest(ag.namespace, pc.phase.rest[0].name))
    else None
  }

  lemma MoveIsRequest(down: nat -> bool, ag: Agent, w: World)
    requires !Finished(w.pc)
    ensures Next(down, ag, w, AgentMove).db ==
              if RequestOf(ag, w.pc).Some? then Serve(down, w.db, RequestOf(ag, w.pc).value).0 else w.db
  {
  }

  /** Every call another agent makes is one that the results about a file of this agent admit, if their
      names are apart. */
  lemma OtherAgentIsOrderly(ag1: Agent, paths: set<string>, p: string, w: World, ag2: Agent, pc: Pc)
    requires RequestOf(ag2, pc).Some? && p in paths
    requires forall p' :: p' in paths ==> Apart(ag1, p', ag2, pc.phase.path)
    ensures Orderly(ag1, paths, p, w, Other(RequestOf(ag2, pc).value))
  {
    var q, request := pc.phase.path, RequestOf(ag2, pc).value;
    var name := if request.AddRequest? then request.constraint.value.name else request.name;
    TargetIsOwn(ag2, q, pc.phase.sum);
    assert Begins(Prefix(ag2, q), name);
    forall p' | p' in paths && ag1.namespace == ag2.namespace ensures !(Prefix(ag1, p') <= name) {
      assert Apart(ag1, p', ag2, q);
      assert Begins(Prefix(ag1, p'), name) ==> Prefix(ag1, p') <= name;
    }
  }

  // ---- Agents running at once ----

  /** The agent in question and the others, at one database: the one in `one`. */
  datatype Joint = Joint(one: World, others: seq<World>)

  datatype JointStep = One(step: Step) | Another(i: nat, step: Step)

  function View(j: Joint, i: nat): World
    requires i < |j.others|
  {
    j.others[i].(db := j.one.db)
  }

  /** An agent's step as the others see it: through the database. Other clients are among the steps of
      the agent in question. */
  ghost predicate Enabled(ag: Agent, agents: seq<Agent>, paths: set<string>, p: string, j: Joint, step: JointStep) {
    && |agents| == |j.others|
    && match step
       case One(s) => Orderly(ag, paths, p, j.one, s)
       case Another(i, s) =>
         && i < |agents| && !s.Other? && (s.AgentMove? ==> !Finished(j.others[i].pc))
         && (s.AgentMove? && !j.others[i].pc.phase.Idle? ==>
               forall p' :: p' in paths ==> Apart(ag, p', agents[i], j.others[i].pc.phase.path))
  }

  ghost function NextJoint(down: nat -> bool, ag: Agent, agents: seq<Agent>, paths: set<string>, p: string, j: Joint,
                           step: JointStep): Joint
    requires Enabled(ag, agents, paths, p, j, step)
  {
    match step
    case One(s) => j.(one := Next(down, ag, j.one, s))
    case Another(i, s) =>
      var w := Next(down, agents[i], View(j, i), s);
      Joint(j.one.(db := w.db), j.others[i := w])
  }

  ghost predicate JointRun(
    down: nat -> bool, ag: Agent, agents: seq<Agent>, paths: set<string>, p: string, j: Joint, steps: seq<JointStep>)
    decreases |steps|
  {
    steps == [] ||
    (Enabled(ag, agents, paths, p, j, steps[0])
     && JointRun(down, ag, agents, paths, p, NextJoint(down, ag, agents, paths, p, j, steps[0]), steps[1..]))
  }

  ghost function After(
    down: nat -> bool, ag: Agent, agents: seq<Agent>, paths: set<string>, p: string, j: Joint, steps: seq<JointStep>): Joint
    requires JointRun(down, ag, agents, paths, p, j, steps)
    decreases |steps|
  {
    if steps == [] then j
    else After(down, ag, agents, paths, p, NextJoint(down, ag, agents, paths, p, j, steps[0]), steps[1..])
  }

  /** What a step of another agent is for the one in question: a call, or nothing. */
  function Seen(agents: seq<Agent>, j: Joint, step: JointStep): seq<Step>
    requires |agents| == |j.others| && (step.Another? ==> step.i < |agents|)
  {
    match step
    case One(s) => [s]
    case Another(i, s) =>
      if s.Sync? then [Other(GetRequest(agents[i].namespace, agents[i].podLabels))]
      else if s.AgentMove? && RequestOf(agents[i], j.others[i].pc).Some?
      then [Other(RequestOf(agents[i], j.others[i].pc).value)]
      else []
  }

  lemma SeenIsStep(
    down: nat -> bool, ag: Agent, agents: seq<Agent>, paths: set<string>, p: string, j: Joint, step: JointStep)
    requires p in paths && Enabled(ag, agents, paths, p, j, step)
    ensures var seen := Seen(agents, j, step);
            var next := NextJoint(down, ag, agents, paths, p, j, step).one;
            if seen == [] then next == j.one
            else |seen| == 1 && Orderly(ag, paths, p, j.one, seen[0]) && next == Next(down, ag, j.one, seen[0])
  {
    if step.Another? && step.step.AgentMove? {
      var i := step.i;
      MoveIsRequest(down, agents[i], View(j, i));
      if RequestOf(agents[i], j.others[i].pc).Some? {
        OtherAgentIsOrderly(ag, paths, p, j.one, agents[i], j.others[i].pc);
      }
    }
  }

  /** A joint run is, for the agent in question, a run of its own in which the other agents' calls are
      calls of other clients. */
  lemma {:induction false} JointIsOrderly(
    down: nat -> bool, ag: Agent, agents: seq<Agent>, paths: set<string>, p: string, j: Joint, steps: seq<JointStep>)
    returns (seen: seq<Step>)
    requires p in paths && JointRun(down, ag, agents, paths, p, j, steps)
    ensures OrderlyRun(down, ag, paths, p, j.one, seen) && PossibleRun(down, ag, paths, j.one, seen)
    ensures Run(down, ag, paths, j.one, seen) == After(down, ag, agents, paths, p, j, steps).one
    decreases |steps|
  {
    if steps == [] {
      seen := [];
    } else {
      var next := NextJoint(down, ag, agents, paths, p, j, steps[0]);
      SeenIsStep(down, ag, agents, paths, p, j, steps[0]);
      var later := JointIsOrderly(down, ag, agents, paths, p, next, steps[1..]);
      var first := Seen(agents, j, steps[0]);
      seen := first + later;
      if first == [] {
        assert seen == later;
      } else {
        assert seen[0] == first[0] && seen[1..] == later;
      }
    }
  }

  /** Registration converges with any number of agents running at once, in whatever phases of passes,
      with whatever snapshots: a file that the agent is about to read, that must be registered and keeps
      its checksum, is accepted after the pass and a sync. */
  lemma AgentsConverge(
    down: nat -> bool, ag: Agent, agents: seq<Agent>, paths: set<string>, p: string, j: Joint, steps: seq<JointStep>)
    requires AlwaysUp(down) && ag.namespace != "" && Distinguished(ag, paths)
    requires NamesHold(ag, paths, j.one) && p in j.one.pc.todo && !IsAt(j.one, p)
    requires Needs(PassOf(ag, j.one), p)
    requires NameTells(ag, p, j.one.db.rows, Checksum(ag, j.one.files, p))
    requires JointRun(down, ag, agents, paths, p, j, steps)
    requires Finished(After(down, ag, agents, paths, p, j, steps).one.pc)
    ensures var synced := Next(down, ag, After(down, ag, agents, paths, p, j, steps).one, Sync);
            Accepted(ag, synced.files, synced.snapshot, p) && p !in Violations(ag, synced.files, synced.snapshot)
  {
    assert p in paths;
    var seen := JointIsOrderly(down, ag, agents, paths, p, j, steps);
    LastReadingDecides(down, down, ag, paths, j.one, [], p, seen);
  }
}
