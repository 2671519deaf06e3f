/** `tarianctl add constraint --from-violated-pod`: dropping rules that constraints already have, by
    writing into the slice that is being read. */
module RuleDedup {
  import opened Model
  import opened Seqs

  predicate Known<T(==)>(lists: seq<seq<T>>, rule: T) {
    exists i :: 0 <= i < |lists| && rule in lists[i]
  }

  /** What the loop leaves: at most the last rule, for every turn starts the result afresh. */
  function Survivors<T(==)>(rules: seq<T>, lists: seq<seq<T>>): seq<T> {
    if rules == [] || Known(lists, rules[|rules| - 1]) then [] else [rules[|rules| - 1]]
  }

  function Unknown<T(==)>(lists: seq<seq<T>>): T -> bool {
    rule => !Known(lists, rule)
  }

  method Find<T(==)>(lists: seq<seq<T>>, rule: T) returns (found: bool)
    ensures found == Known(lists, rule)
  {
    found := false;
    for i := 0 to |lists|
      invariant !found && forall k :: 0 <= k < i ==> rule !in lists[k]
    {
      for j := 0 to |lists[i]|
        invariant !found && forall k :: 0 <= k < j ==> lists[i][k] != rule
      {
        if rule == lists[i][j] {
          found := true;
          break;
        }
      }
      if found {
        break;
      }
    }
  }

  /** Ranges over the array while appending to an empty slice of the same array. The write goes to
      index 0, which the loop has read by then, so every turn sees the rule it was given. */
  method DeduplicateInPlace<T(==)>(rules: array<T>, lists: seq<seq<T>>) returns (length: nat)
    modifies rules
    ensures length <= rules.Length && rules[..length] == Survivors(old(rules[..]), lists)
    ensures forall i :: 1 <= i < rules.Length ==> rules[i] == old(rules[i])
  {
    length := rules.Length;
    for i := 0 to rules.Length
      invariant forall k :: 1 <= k < rules.Length ==> rules[k] == old(rules[k])
      invariant i == 0 ==> rules[..] == old(rules[..]) && length == rules.Length
      invariant i > 0 ==> length <= 1 && rules[..length] == Survivors(old(rules[..i]), lists)
    {
      var rule := rules[i];
      assert rule == old(rules[i]);
      assert old(rules[..i + 1])[i] == rule;
      var found := Find(lists, rule);
      length := 0;
      if !found {
        rules[length] := rule;
        length := length + 1;
      }
    }
    assert old(rules[..rules.Length]) == old(rules[..]);
  }

  method DeduplicateRules(allowedProcesses: array<string>, allowedFiles: array<FileRule>, constraints: seq<Constraint>)
    returns (processes: nat, files: nat)
    modifies allowedProcesses, allowedFiles
    ensures processes <= allowedProcesses.Length && files <= allowedFiles.Length
    ensures allowedProcesses[..processes] == Survivors(old(allowedProcesses[..]), ProcessLists(constraints))
    ensures allowedFiles[..files] == Survivors(old(allowedFiles[..]), FileLists(constraints))
  {
    processes := DeduplicateInPlace(allowedProcesses, ProcessLists(constraints));
    files := DeduplicateInPlace(allowedFiles, FileLists(constraints));
  }

  function ProcessLists(constraints: seq<Constraint>): seq<seq<string>> {
    Map((c: Constraint) => c.allowedProcesses, constraints)
  }

  function FileLists(constraints: seq<Constraint>): seq<seq<FileRule>> {
    Map((c: Constraint) => c.allowedFiles, constraints)
  }

  /** What is left of the rules is the last one, exactly if no constraint has it. */
  lemma SurvivorsMeaning(constraints: seq<Constraint>, processes: seq<string>, files: seq<FileRule>)
    ensures Survivors(processes, ProcessLists(constraints)) ==
              if processes != [] && forall c :: c in constraints ==> processes[|processes| - 1] !in c.allowedProcesses
              then [processes[|processes| - 1]] else []
    ensures Survivors(files, FileLists(constraints)) ==
              if files != [] && forall c :: c in constraints ==> files[|files| - 1] !in c.allowedFiles
              then [files[|files| - 1]] else []
  {
    if processes != [] {
      KnownExactly(constraints, processes[|processes| - 1], FileRule("", ""));
    }
    if files != [] {
      KnownExactly(constraints, "", files[|files| - 1]);
    }
  }

  lemma KnownExactly(constraints: seq<Constraint>, process: string, file: FileRule)
    ensures Known(ProcessLists(constraints), process) <==> exists c :: c in constraints && process in c.allowedProcesses
    ensures Known(FileLists(constraints), file) <==> exists c :: c in constraints && file in c.allowedFiles
  {
    forall c | c in constraints
      ensures exists i :: 0 <= i < |constraints| && ProcessLists(constraints)[i] == c.allowedProcesses
                          && FileLists(constraints)[i] == c.allowedFiles
    {
      var i :| 0 <= i < |constraints| && constraints[i] == c;
      assert ProcessLists(constraints)[i] == c.allowedProcesses;
    }
  }

  /** All new rules are kept exactly if none but the last is new: a new rule that another one follows
      is lost. */
  lemma {:induction false} CompleteExactly<T>(rules: seq<T>, lists: seq<seq<T>>)
    ensures Survivors(rules, lists) == Filter(Unknown(lists), rules) <==>
              forall i :: 0 <= i < |rules| - 1 ==> Known(lists, rules[i])
  {
    if rules != [] {
      var n := |rules| - 1;
      assert rules == rules[..n] + [rules[n]];
      FilterAppend(Unknown(lists), rules[..n], [rules[n]]);
      FilterMembers(Unknown(lists), rules[..n]);
      if forall i :: 0 <= i < n ==> Known(lists, rules[i]) {
        FilterNone(Unknown(lists), rules[..n]);
      } else {
        var i :| 0 <= i < n && !Known(lists, rules[i]);
        assert rules[..n][i] in Filter(Unknown(lists), rules[..n]);
      }
    }
  }

  /** Of two different new rules the first is lost, beside a constraint that has neither. */
  lemma NewRuleIsLost(c: Constraint)
    requires c.allowedProcesses == ["other"]
    ensures var lists := ProcessLists([c]);
            && Survivors(["nginx", "sh"], lists) == ["sh"]
            && Filter(Unknown(lists), ["nginx", "sh"]) == ["nginx", "sh"]
  {
    var lists := ProcessLists([c]);
    assert lists == [["other"]];
    forall rule | rule in ["nginx", "sh"] ensures !Known(lists, rule) {
      assert "other"[0] == 'o' && rule[0] != 'o';
    }
    FilterAll(Unknown(lists), ["nginx", "sh"]);
  }
}
