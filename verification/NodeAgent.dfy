/** The node agent: it validates executed processes against constraints and registers new ones. */
module NodeAgent {
  import opened Model
  import opened Seqs
  import opened Strings
  import opened ConfigServer

  const THREAT_SCAN_ANNOTATION := "pod-agent.k8s.tarian.dev/threat-scan"
  const REGISTER_ANNOTATION := "pod-agent.k8s.tarian.dev/register"
  const POD_TEMPLATE_HASH := "pod-template-hash"

  /** An executed command with the pod it ran in. */
  datatype ExecEvent = ExecEvent(
    command: string,
    podName: string,
    namespace: string,
    podLabels: map<string, string>,
    podAnnotations: map<string, string>)

  /** Matching a regular expression: nothing if it does not compile. */
  type Regexp = (string, string) -> Option<bool>

  function PodTexts(labels: map<string, string>): set<string> {
    set k | k in labels :: k + "=" + labels[k]
  }

  predicate ConstraintMatchesPod(c: Constraint, evt: ExecEvent) {
    && c.namespace == evt.namespace
    && (c.matchLabels == [] || LabelTexts(c.matchLabels) <= PodTexts(evt.podLabels))
  }

  predicate RuleAllows(matches: Regexp, rule: string, command: string) {
    rule != "" && matches(rule, command) == Some(true)
  }

  predicate ConstraintAllows(matches: Regexp, c: Constraint, evt: ExecEvent) {
    ConstraintMatchesPod(c, evt) && exists r :: r in c.allowedProcesses && RuleAllows(matches, r, evt.command)
  }

  predicate Allowed(matches: Regexp, constraints: seq<Constraint>, evt: ExecEvent) {
    exists c :: c in constraints && ConstraintAllows(matches, c, evt)
  }

  /** Processes outside pods are never violations; inside, those that nothing allows. */
  predicate Violates(matches: Regexp, constraints: seq<Constraint>, evt: ExecEvent) {
    evt.namespace != "" && evt.podName != "" && !Allowed(matches, constraints, evt)
  }

  lemma SelectorWithin(selector: seq<Label>, labels: map<string, string>)
    ensures LabelTexts(selector) <= PodTexts(labels) <==>
              forall l :: l in selector ==> exists k :: k in labels && k + "=" + labels[k] == l.key + "=" + l.value
  {
    if LabelTexts(selector) <= PodTexts(labels) {
      forall l | l in selector ensures exists k :: k in labels && k + "=" + labels[k] == l.key + "=" + l.value {
        assert LabelText(l) in LabelTexts(selector);
      }
    }
  }

  /** A violation, in terms of rules: the event comes from a pod, and no rule, other than empty ones, matches
      the command, of the constraints in the pod's namespace whose selector has only labels with the text of
      one of the pod's. */
  lemma ViolationMeaning(matches: Regexp, constraints: seq<Constraint>, evt: ExecEvent)
    ensures Violates(matches, constraints, evt) <==>
              && evt.namespace != "" && evt.podName != ""
              && forall c, rule ::
                   && c in constraints && rule in c.allowedProcesses && rule != "" && c.namespace == evt.namespace
                   && (forall l :: l in c.matchLabels ==>
                         exists k :: k in evt.podLabels && k + "=" + evt.podLabels[k] == l.key + "=" + l.value)
                   ==> matches(rule, evt.command) != Some(true)
  {
    forall c: Constraint
      ensures ConstraintMatchesPod(c, evt) <==>
                && c.namespace == evt.namespace
                && forall l :: l in c.matchLabels ==>
                     exists k :: k in evt.podLabels && k + "=" + evt.podLabels[k] == l.key + "=" + l.value
    {
      SelectorWithin(c.matchLabels, evt.podLabels);
    }
    if Allowed(matches, constraints, evt) {
      var c :| c in constraints && ConstraintAllows(matches, c, evt);
      var rule :| rule in c.allowedProcesses && RuleAllows(matches, rule, evt.command);
    } else {
      forall c, rule | c in constraints && rule in c.allowedProcesses && ConstraintMatchesPod(c, evt)
        ensures !RuleAllows(matches, rule, evt.command)
      {
        assert !ConstraintAllows(matches, c, evt);
      }
    }
  }

  datatype Outcome = Ignored | Fine | Registering | Reporting

  predicate AsksForProcesses(annotation: string) {
    exists rule :: rule in Split(annotation, ",") && (TrimSpace(rule) == "processes" || TrimSpace(rule) == "all")
  }

  /** What the agent does about an exec event. */
  function Decide(
    matches: Regexp, initialized: bool, enableAddConstraint: bool, constraints: seq<Constraint>, evt: ExecEvent): Outcome
  {
    var registers := REGISTER_ANNOTATION in evt.podAnnotations;
    if !initialized || (!registers && THREAT_SCAN_ANNOTATION !in evt.podAnnotations)
       || (registers && !enableAddConstraint) then Ignored
    else if !Violates(matches, constraints, evt) then Fine
    else if registers && AsksForProcesses(evt.podAnnotations[REGISTER_ANNOTATION]) then Registering
    else Reporting
  }

  /** Registrations are named after the pod and the time, in units of 3.6 milliseconds: nanoseconds
      divided by the milliseconds of an hour. */
  const NAME_SLOT := 3_600_000

  function RegistrationName(podName: string, now: nat): string {
    podName + "-" + Decimal(now / NAME_SLOT)
  }

  /** The constraint registered for an event: its command as the rule, and as selector the pod's
      labels without the template hash, in some order. */
  ghost predicate IsRegistration(c: Constraint, evt: ExecEvent, now: nat) {
    && c.namespace == evt.namespace && c.name == evt.podName + "-" + Decimal(now / 3_600_000)
    && c.allowedProcesses == [evt.command] && c.allowedFiles == []
    && (forall l :: l in c.matchLabels <==>
          l.key in evt.podLabels && l.key != "pod-template-hash" && l.value == evt.podLabels[l.key])
  }

  /** The label map of a pod object, which an event shares with the pod watcher's store. */
  class LabelMap {
    var labels: map<string, string>

    constructor (labels: map<string, string>)
      ensures this.labels == labels
    {
      this.labels := labels;
    }
  }

  class NodeAgent {
    const matches: Regexp
    var constraints: seq<Constraint>
    var constraintsInitialized: bool
    var enableAddConstraint: bool

    constructor (matches: Regexp)
      ensures this.matches == matches && constraints == [] && !constraintsInitialized && !enableAddConstraint
    {
      this.matches := matches;
      constraints, constraintsInitialized, enableAddConstraint := [], false, false;
    }

    /** The node agent asks for all constraints of all namespaces. */
    method SyncConstraints(server: Server)
      modifies this`constraints, this`constraintsInitialized, server.store
      ensures (server.store.State(), constraints) == Get(server.store.down, old(server.store.State()), "", [])
      ensures constraintsInitialized
    {
      var received := server.GetConstraints("", []);
      constraints := received;
      constraintsInitialized := true;
    }

    method ValidateProcess(evt: ExecEvent) returns (violated: bool)
      ensures violated == Violates(matches, constraints, evt)
      ensures violated <==>
                && evt.namespace != "" && evt.podName != ""
                && forall c, rule ::
                     && c in constraints && rule in c.allowedProcesses && rule != "" && c.namespace == evt.namespace
                     && (forall l :: l in c.matchLabels ==>
                           exists k :: k in evt.podLabels && k + "=" + evt.podLabels[k] == l.key + "=" + l.value)
                     ==> matches(rule, evt.command) != Some(true)
    {
      ViolationMeaning(matches, constraints, evt);
      if evt.namespace == "" || evt.podName == "" {
        return false;
      }
      violated := true;
      label out: for i := 0 to |constraints|
        invariant violated && forall k :: 0 <= k < i ==> !ConstraintAllows(matches, constraints[k], evt)
      {
        var c := constraints[i];
        if !ConstraintMatchesPod(c, evt) {
          continue;
        }
        for j := 0 to |c.allowedProcesses|
          invariant violated && forall k :: 0 <= k < j ==> !RuleAllows(matches, c.allowedProcesses[k], evt.command)
        {
          if c.allowedProcesses[j] == "" {
            continue;
          }
          var matched := matches(c.allowedProcesses[j], evt.command);
          if matched == Some(true) {
            assert RuleAllows(matches, c.allowedProcesses[j], evt.command);
            assert ConstraintAllows(matches, c, evt) && c in constraints;
            violated := false;
            break out;
          }
        }
      }
    }

    method HandleExecEvent(evt: ExecEvent) returns (outcome: Outcome)
      ensures outcome == Decide(matches, constraintsInitialized, enableAddConstraint, constraints, evt)
    {
      if !constraintsInitialized {
        return Ignored;
      }
      var scans := THREAT_SCAN_ANNOTATION in evt.podAnnotations;
      var registers := REGISTER_ANNOTATION in evt.podAnnotations;
      if !scans && !registers {
        return Ignored;
      }
      if registers && !enableAddConstraint {
        return Ignored;
      }
      var violation := ValidateProcess(evt);
      if !violation {
        return Fine;
      }
      var registerProcess := false;
      // A missing annotation reads as empty.
      var rules := Split(if registers then evt.podAnnotations[REGISTER_ANNOTATION] else "", ",");
      for i := 0 to |rules|
        invariant registerProcess <==>
          exists k :: 0 <= k < i && (TrimSpace(rules[k]) == "processes" || TrimSpace(rules[k]) == "all")
      {
        if TrimSpace(rules[i]) == "processes" || TrimSpace(rules[i]) == "all" {
          registerProcess := true;
        }
      }
      if !registers {
        EmptyAsksForNothing();
      }
      outcome := if registerProcess then Registering else Reporting;
    }

    /** Go visits a map in any order. */
    method MatchLabelsFromPodLabels(labels: map<string, string>) returns (matchLabels: seq<Label>)
      ensures forall l :: l in matchLabels <==> l.key in labels && l.value == labels[l.key]
      ensures |matchLabels| == |labels|
    {
      matchLabels := [];
      var todo := labels.Keys;
      while todo != {}
        invariant todo <= labels.Keys
        invariant forall l :: l in matchLabels <==> l.key in labels && l.key !in todo && l.value == labels[l.key]
        invariant |matchLabels| + |todo| == |labels.Keys|
      {
        var k :| k in todo;
        matchLabels := matchLabels + [Label(k, labels[k])];
        todo := todo - {k};
      }
    }

    /** The template hash is deleted from the shared label map itself. `now` is the time in
        nanoseconds. */
    method RegisterViolationsAsNewConstraint(server: Server, evt: ExecEvent, podLabels: LabelMap, now: nat)
      returns (reply: Reply, ghost c: Constraint)
      requires podLabels.labels == evt.podLabels
      modifies podLabels, server.store
      ensures podLabels.labels == old(podLabels.labels) - {"pod-template-hash"}
      ensures IsRegistration(c, evt, now)
      ensures (server.store.State(), reply) == Add(server.store.down, old(server.store.State()), Some(c))
    {
      podLabels.labels := podLabels.labels - {POD_TEMPLATE_HASH};
      var matchLabels := MatchLabelsFromPodLabels(podLabels.labels);
      var constraint := Constraint(evt.namespace, RegistrationName(evt.podName, now), matchLabels, [evt.command], []);
      reply := server.AddConstraint(Some(constraint));
      c := constraint;
    }
  }

  lemma EmptyAsksForNothing()
    ensures Split("", ",") == [""] && TrimSpace("") == ""
  {
    NoIndex("", ',');
  }

  // ---- Properties ----

  /** More constraints never turn an allowed process into a violation. */
  lemma ValidationIsMonotone(matches: Regexp, fewer: seq<Constraint>, more: seq<Constraint>, evt: ExecEvent)
    requires forall c :: c in fewer ==> c in more
    requires Violates(matches, more, evt)
    ensures Violates(matches, fewer, evt)
  {
  }

  /** Registration removes the template hash from the label map that the pod object shares with the
      event; the selector fits the pod with the hash and without it. */
  lemma RegistrationSelects(c: Constraint, evt: ExecEvent, now: nat)
    requires IsRegistration(c, evt, now)
    ensures ConstraintMatchesPod(c, evt)
    ensures ConstraintMatchesPod(c, evt.(podLabels := evt.podLabels - {POD_TEMPLATE_HASH}))
    ensures forall l :: l in c.matchLabels ==> l.key != POD_TEMPLATE_HASH
  {
    var bare := evt.podLabels - {POD_TEMPLATE_HASH};
    forall t | t in LabelTexts(c.matchLabels) ensures t in PodTexts(evt.podLabels) && t in PodTexts(bare) {
      var l :| l in c.matchLabels && LabelText(l) == t;
      assert l.key in bare && t == l.key + "=" + bare[l.key];
      assert t == l.key + "=" + evt.podLabels[l.key];
    }
  }

  /** Something other than `c` allows the event. */
  predicate AllowedOtherwise(matches: Regexp, constraints: seq<Constraint>, c: Constraint, evt: ExecEvent) {
    exists d :: d in constraints && d != c && ConstraintAllows(matches, d, evt)
  }

  /** The event as it comes again: its pod may have lost the template hash by the registration. */
  function Again(evt: ExecEvent, dropHash: bool): ExecEvent {
    if dropHash then evt.(podLabels := evt.podLabels - {POD_TEMPLATE_HASH}) else evt
  }

  /** The constraint for an event was accepted, others called the server, and no call removed it. */
  ghost predicate Registered(
    down: nat -> bool, db: Db, evt: ExecEvent, now: nat, c: Constraint, requests: seq<Request>, later: Db)
  {
    && IsRegistration(c, evt, now) && Add(down, db, Some(c)).1 == Answer(true)
    && later == ServeAll(down, Add(down, db, Some(c)).0, requests)
    && (forall r :: r in requests && r.RemoveRequest? ==> !Named(c, r.namespace, r.name))
  }

  /** Process registration converges: once the constraint for a violating event has been accepted, and
      the agent has synced - with any calls of others in between that do not remove it -, the same
      event is no violation any more, exactly if its command, taken as a regular expression, matches
      itself or something else has come to allow it. */
  lemma ProcessRegistrationConverges(
    down: nat -> bool, matches: Regexp, db: Db, evt: ExecEvent, now: nat, c: Constraint, requests: seq<Request>,
    later: Db, dropHash: bool)
    requires Registered(down, db, evt, now, c, requests, later) && !down(later.calls)
    requires evt.namespace != "" && evt.podName != ""
    ensures var again := Again(evt, dropHash);
            !Violates(matches, Get(down, later, "", []).1, again) <==>
              || (evt.command != "" && matches(evt.command, evt.command) == Some(true))
              || AllowedOtherwise(matches, later.rows, c, again)
  {
    var again := Again(evt, dropHash);
    UnremovedStays(down, Add(down, db, Some(c)).0, requests, c);
    FilterAll(Matches("", []), later.rows);
    RegistrationSelects(c, evt, now);
    assert c in later.rows && evt.command in c.allowedProcesses;
    if Allowed(matches, later.rows, again) {
      var d :| d in later.rows && ConstraintAllows(matches, d, again);
    }
  }

  /** Registered once, never again: the decision about the event turns from registering to fine exactly
      if its command matches itself or something else allows it; otherwise it stays. */
  lemma RegisteringSettlesExactly(
    down: nat -> bool, matches: Regexp, before: seq<Constraint>, db: Db, evt: ExecEvent, now: nat, c: Constraint,
    requests: seq<Request>, later: Db, dropHash: bool)
    requires Decide(matches, true, true, before, evt) == Registering
    requires Registered(down, db, evt, now, c, requests, later) && !down(later.calls)
    ensures Decide(matches, true, true, Get(down, later, "", []).1, Again(evt, dropHash)) ==
              if (evt.command != "" && matches(evt.command, evt.command) == Some(true))
                 || AllowedOtherwise(matches, later.rows, c, Again(evt, dropHash))
              then Fine else Registering
  {
    ProcessRegistrationConverges(down, matches, db, evt, now, c, requests, later, dropHash);
  }

  /** The decision in full. The agent ignores an event exactly if it has not synced, no annotation asks for
      it, or it is asked to register and may not; of the others it finds those fine that are no violation, and
      registers a violation exactly if a rule of the annotation, trimmed, is `processes` or `all`. */
  lemma DecisionMeaning(
    matches: Regexp, initialized: bool, enableAddConstraint: bool, constraints: seq<Constraint>, evt: ExecEvent)
    ensures var decision := Decide(matches, initialized, enableAddConstraint, constraints, evt);
            var registers := "pod-agent.k8s.tarian.dev/register" in evt.podAnnotations;
            && (decision == Ignored <==>
                  || !initialized || (!registers && "pod-agent.k8s.tarian.dev/threat-scan" !in evt.podAnnotations)
                  || (registers && !enableAddConstraint))
            && (decision == Fine <==> decision != Ignored && !Violates(matches, constraints, evt))
            && (decision == Registering <==>
                  && decision != Ignored && Violates(matches, constraints, evt) && registers
                  && exists rule :: rule in Split(evt.podAnnotations["pod-agent.k8s.tarian.dev/register"], ",")
                                    && (TrimSpace(rule) == "processes" || TrimSpace(rule) == "all"))
  {
  }

  /** More constraints never make the agent raise anything. */
  lemma DecisionIsMonotone(
    matches: Regexp, enableAddConstraint: bool, fewer: seq<Constraint>, more: seq<Constraint>, evt: ExecEvent)
    requires forall c :: c in fewer ==> c in more
    ensures var (before, after) := (Decide(matches, true, enableAddConstraint, fewer, evt),
                                    Decide(matches, true, enableAddConstraint, more, evt));
            after == before || (after == Fine && before != Ignored)
  {
    if Violates(matches, more, evt) {
      ValidationIsMonotone(matches, fewer, more, evt);
    }
  }

  /** Of two violations of one pod, the second is refused exactly if it falls into the same 3.6
      milliseconds as the first: then both constraints bear the same name. */
  lemma SecondRegistration(
    down: nat -> bool, db: Db, first: ExecEvent, second: ExecEvent, t1: nat, t2: nat, c1: Constraint, c2: Constraint)
    requires first.podName == second.podName && first.namespace == second.namespace
    requires IsRegistration(c1, first, t1) && IsRegistration(c2, second, t2)
    requires var (after, reply) := Add(down, db, Some(c1));
             reply == Answer(true) && !down(after.calls) && !down(after.calls + 1)
    requires !Exists(db.rows, c2.namespace, c2.name)
    ensures var after := Add(down, db, Some(c1)).0;
            var (final, reply) := Add(down, after, Some(c2));
            && (t1 / 3_600_000 == t2 / 3_600_000 ==> reply == Error(InvalidArgument) && final.rows == after.rows)
            && (t1 / 3_600_000 != t2 / 3_600_000 ==> reply == Answer(true) && final.rows == db.rows + [c1, c2])
  {
    var after := Add(down, db, Some(c1)).0;
    var n := |first.podName| + 1;
    DecimalDetermines(t1 / NAME_SLOT, t2 / NAME_SLOT);
    assert c1.name[n..] == Decimal(t1 / NAME_SLOT) && c2.name[n..] == Decimal(t2 / NAME_SLOT);
    assert after.rows[|db.rows|] == c1;
    assert Exists(after.rows, c2.namespace, c2.name) <==> c1.name == c2.name by {
      if c1.name == c2.name {
        assert Named(after.rows[|db.rows|], c2.namespace, c2.name);
      } else if i :| 0 <= i < |after.rows| && Named(after.rows[i], c2.namespace, c2.name) {
        assert i < |db.rows| && Named(db.rows[i], c2.namespace, c2.name);
      }
    }
    assert db.rows + [c1] + [c2] == db.rows + [c1, c2];
  }

  function MatchesPod(evt: ExecEvent): Constraint -> bool {
    (c: Constraint) => ConstraintMatchesPod(c, evt)
  }

  /** What the server selects for a labelled pod and what the node agent selects from the unfiltered
      list are the same constraints in the same order, exactly if every constraint of the namespace
      has a selector: the server leaves out those without one, the agent applies them. */
  lemma FiltersAgreeExactly(rows: seq<Constraint>, evt: ExecEvent, labels: seq<Label>)
    requires evt.namespace != "" && labels != [] && LabelTexts(labels) == PodTexts(evt.podLabels)
    ensures Matching(rows, evt.namespace, labels) == Filter(MatchesPod(evt), Matching(rows, "", [])) <==>
              forall c :: c in rows && c.namespace == evt.namespace ==> c.matchLabels != []
  {
    var remote := Matches(evt.namespace, labels);
    var local := MatchesPod(evt);
    FilterAll(Matches("", []), rows);
    FilterMembers(remote, rows);
    FilterMembers(local, rows);
    if forall c :: c in rows && c.namespace == evt.namespace ==> c.matchLabels != [] {
      FilterAgree(remote, local, rows);
    } else {
      var c :| c in rows && c.namespace == evt.namespace && c.matchLabels == [];
      assert local(c) && c in Filter(local, rows);
      assert !Selected(labels, c);
      assert !remote(c) && c !in Filter(remote, rows);
    }
  }

  /** An input: a constraint without a selector is left out by the server and applied by the agent. */
  lemma UnselectiveConstraintDiffers(evt: ExecEvent, labels: seq<Label>)
    requires evt.namespace != "" && labels != []
    ensures var rows := [Constraint(evt.namespace, "any-pod", [], ["nginx"], [])];
            Matching(rows, evt.namespace, labels) == [] && Filter(MatchesPod(evt), Matching(rows, "", [])) == rows
  {
    var rows := [Constraint(evt.namespace, "any-pod", [], ["nginx"], [])];
    FilterAll(Matches("", []), rows);
    FilterAll(MatchesPod(evt), rows);
    FilterNone(Matches(evt.namespace, labels), rows);
  }

  // ---- Labels as texts ----

  /** Two keys of which one goes on with `=` where the other ends. */
  predicate Clash(one: string, other: string) {
    one + "=" <= other || other + "=" <= one
  }

  /** Labels with different keys can have the same text exactly if the keys clash. */
  lemma KeysShareTexts(one: string, other: string)
    requires one != other
    ensures (exists v, w :: LabelText(Label(one, v)) == LabelText(Label(other, w))) <==> Clash(one, other)
  {
    if v, w :| LabelText(Label(one, v)) == LabelText(Label(other, w)) {
      SameTextClashes(Label(one, v), Label(other, w));
    } else if one + "=" <= other {
      SharedText(one, other);
    } else if other + "=" <= one {
      SharedText(other, one);
    }
  }

  lemma SharedText(short: string, long: string)
    requires short + "=" <= long
    ensures LabelText(Label(short, long[|short| + 1..] + "=")) == LabelText(Label(long, ""))
  {
    assert long == short + "=" + long[|short| + 1..];
  }

  lemma SameTextClashes(a: Label, b: Label)
    requires LabelText(a) == LabelText(b)
    ensures a == b || Clash(a.key, b.key)
  {
    var text := LabelText(a);
    if |a.key| == |b.key| {
      assert a.key == text[..|a.key|] == b.key;
      assert a.value == text[|a.key| + 1..] == b.value;
    } else if |a.key| < |b.key| {
      assert a.key + "=" == text[..|a.key| + 1] && b.key == text[..|b.key|];
    } else {
      assert b.key + "=" == text[..|b.key| + 1] && a.key == text[..|a.key|];
    }
  }

  /** Without `=` in keys, a label's text determines the label. */
  lemma TextDeterminesLabel(a: Label, b: Label)
    requires '=' !in a.key && '=' !in b.key && LabelText(a) == LabelText(b)
    ensures a == b
  {
    SameTextClashes(a, b);
    if Clash(a.key, b.key) {
      ClashNeedsSeparator(a.key, b.key);
    }
  }

  lemma ClashNeedsSeparator(one: string, other: string)
    requires Clash(one, other)
    ensures '=' in one || '=' in other
  {
    if one + "=" <= other {
      assert other[|one|] == (one + "=")[|one|];
    } else {
      assert one[|other|] == (other + "=")[|other|];
    }
  }

  /** Comparing the texts of a selector with those of a pod's labels is comparing the labels. */
  predicate TextsDecide(selector: seq<Label>, labels: seq<Label>) {
    LabelTexts(selector) <= LabelTexts(labels) <==> forall l :: l in selector ==> l in labels
  }

  predicate KeysAmong(labels: seq<Label>, keys: set<string>) {
    forall l :: l in labels ==> l.key in keys
  }

  lemma TextsCompareLabels(selector: seq<Label>, labels: seq<Label>)
    requires forall l, m :: l in selector && m in labels ==> !Clash(l.key, m.key)
    ensures TextsDecide(selector, labels)
  {
    if LabelTexts(selector) <= LabelTexts(labels) {
      forall l | l in selector ensures l in labels {
        assert LabelText(l) in LabelTexts(selector);
        var m :| m in labels && LabelText(m) == LabelText(l);
        SameTextClashes(l, m);
      }
    }
  }

  /** Whatever their values, selectors with some keys are told by texts from labels with some keys,
      exactly if no two of these keys clash. */
  lemma TextsCompareLabelsExactly(selectorKeys: set<string>, podKeys: set<string>)
    ensures (forall selector, labels :: KeysAmong(selector, selectorKeys) && KeysAmong(labels, podKeys) ==>
                                          TextsDecide(selector, labels))
            <==> forall k, l :: k in selectorKeys && l in podKeys ==> !Clash(k, l)
  {
    if forall k, l :: k in selectorKeys && l in podKeys ==> !Clash(k, l) {
      forall selector, labels | KeysAmong(selector, selectorKeys) && KeysAmong(labels, podKeys)
        ensures TextsDecide(selector, labels)
      {
        TextsCompareLabels(selector, labels);
      }
    } else {
      var k, l :| k in selectorKeys && l in podKeys && Clash(k, l);
      assert k != l;
      KeysShareTexts(k, l);
      var v, w :| LabelText(Label(k, v)) == LabelText(Label(l, w));
      Confused(Label(k, v), Label(l, w));
      assert KeysAmong([Label(k, v)], selectorKeys) && KeysAmong([Label(l, w)], podKeys);
    }
  }

  lemma Confused(a: Label, b: Label)
    requires a != b && LabelText(a) == LabelText(b)
    ensures !TextsDecide([a], [b])
  {
    assert a in [a];
    assert LabelTexts([a]) == {LabelText(a)};
    assert b in [b];
    assert LabelTexts([b]) == {LabelText(b)};
  }

  /** Given the labels of a pod, texts decide about every selector exactly if the labels contain whatever
      label shares a text with one of them. */
  lemma TextsDecideExactly(labels: seq<Label>)
    ensures (forall selector :: TextsDecide(selector, labels)) <==>
              forall l, m :: m in labels && LabelText(l) == LabelText(m) ==> l in labels
  {
    if forall selector :: TextsDecide(selector, labels) {
      forall l, m | m in labels && LabelText(l) == LabelText(m) ensures l in labels {
        assert TextsDecide([l], labels);
        assert LabelTexts([l]) <= LabelTexts(labels);
        assert l in [l];
      }
    } else {
      var selector :| !TextsDecide(selector, labels);
      assert LabelTexts(selector) <= LabelTexts(labels);
      var l :| l in selector && l !in labels;
      assert LabelText(l) in LabelTexts(selector);
    }
  }

  /** The labels of a Kubernetes pod have no `=`, neither in keys nor in values: texts decide about every
      selector, also about one with `=` in its keys. */
  lemma KubernetesLabelsAreTold(selector: seq<Label>, labels: seq<Label>)
    requires forall m :: m in labels ==> '=' !in m.key && '=' !in m.value
    ensures TextsDecide(selector, labels)
  {
    forall l, m | m in labels && LabelText(l) == LabelText(m) ensures l in labels {
      SameTextClashes(l, m);
      if l != m {
        LongKeyShows(l, m);
      }
    }
    TextsDecideExactly(labels);
  }

  lemma LongKeyShows(l: Label, m: Label)
    requires l != m && LabelText(l) == LabelText(m) && Clash(l.key, m.key)
    ensures '=' in m.key || '=' in m.value
  {
    if l.key + "=" <= m.key {
      assert m.key[|l.key|] == (l.key + "=")[|l.key|];
    } else {
      assert LabelText(m)[|l.key|] == '=' == m.value[|l.key| - |m.key| - 1];
    }
  }

  /** With `=` in a key two different labels share a text. */
  lemma EqualsSignConfuses()
    ensures Clash("a", "a=b")
    ensures LabelText(Label("a=b", "c")) == LabelText(Label("a", "b=c"))
    ensures !TextsDecide([Label("a=b", "c")], [Label("a", "b=c")])
  {
    Confused(Label("a=b", "c"), Label("a", "b=c"));
  }
}
