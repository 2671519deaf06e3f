/** What registration leaves of a file's constraints from any snapshot, however stale, and with any
    failures: the checksum that was replaced goes only if its removal is reached and succeeds. */
module StalePasses {
  import opened Model
  import opened Seqs
  import opened ConfigServer
  import opened FileRegistration
  import opened RegistrationProofs
  import PodAgent

  // ---- The deletion loop ----

  /** The names under a prefix that a snapshot lists, in order. */
  function Listed(prefix: string, snapshot: seq<Constraint>): seq<string> {
    if snapshot == [] then []
    else (if prefix <= snapshot[0].name then [snapshot[0].name] else []) + Listed(prefix, snapshot[1..])
  }

  lemma {:induction false} ListedHavePrefix(prefix: string, snapshot: seq<Constraint>)
    ensures forall name :: name in Listed(prefix, snapshot) ==> prefix <= name
  {
    if snapshot != [] {
      ListedHavePrefix(prefix, snapshot[1..]);
    }
  }

  /** The removal of the i-th listed name succeeds, when the removals before it did: the name is
      stored, was not removed before, and both database calls work. */
  predicate Works(down: nat -> bool, db: Db, namespace: string, names: seq<string>, i: nat)
    requires i < |names|
  {
    && namespace != "" && names[i] != ""
    && Exists(db.rows, namespace, names[i]) && names[i] !in names[..i]
    && !down(db.calls + 2 * i) && !down(db.calls + 2 * i + 1)
  }

  /** How many removals come before the first that errors. */
  function Reached(down: nat -> bool, db: Db, namespace: string, names: seq<string>, i: nat): (k: nat)
    requires i <= |names|
    ensures i <= k <= |names|
    ensures forall j :: i <= j < k ==> Works(down, db, namespace, names, j)
    ensures k < |names| ==> !Works(down, db, namespace, names, k)
    decreases |names| - i
  {
    if i == |names| || !Works(down, db, namespace, names, i) then i
    else Reached(down, db, namespace, names, i + 1)
  }

  /** The number of the first database call after the deletion loop. */
  function CallAfter(down: nat -> bool, db: Db, namespace: string, names: seq<string>): nat {
    var k := Reached(down, db, namespace, names, 0);
    db.calls + 2 * k +
    (if k == |names| || namespace == "" || names[k] == "" then 0
     else if down(db.calls + 2 * k) || !Exists(db.rows, namespace, names[k]) || names[k] in names[..k] then 1
     else 2)
  }

  function RemoveNames(down: nat -> bool, namespace: string, names: seq<string>, db: Db): Db
    decreases |names|
  {
    if names == [] then db
    else
      var (after, reply) := Remove(down, db, namespace, names[0]);
      if reply.Error? then after else RemoveNames(down, namespace, names[1..], after)
  }

  lemma {:induction false} DeleteRunByNames(
    down: nat -> bool, namespace: string, rest: seq<Constraint>, prefix: string, db: Db)
    ensures PodAgent.DeleteRun(down, namespace, rest, prefix, db).0
            == RemoveNames(down, namespace, Listed(prefix, rest), db)
    decreases |rest|
  {
    if rest != [] {
      if prefix <= rest[0].name {
        var (after, reply) := Remove(down, db, namespace, rest[0].name);
        assert Listed(prefix, rest)[1..] == Listed(prefix, rest[1..]);
        if !reply.Error? {
          DeleteRunByNames(down, namespace, rest[1..], prefix, after);
        }
      } else {
        assert Listed(prefix, rest) == Listed(prefix, rest[1..]);
        DeleteRunByNames(down, namespace, rest[1..], prefix, db);
      }
    }
  }

  function NotNamed(namespace: string, names: seq<string>): Constraint -> bool {
    (c: Constraint) => !(c.namespace == namespace && c.name in names)
  }

  lemma KeyedTail(rows: seq<Constraint>)
    requires Keyed(rows) && rows != []
    ensures Keyed(rows[1..]) && forall c :: c in rows[1..] ==> !Named(rows[0], c.namespace, c.name)
  {
    var rest := rows[1..];
    assert forall i :: 0 <= i < |rest| ==> rest[i] == rows[i + 1];
  }

  lemma {:induction false} FilterKeepsKeyed(keep: Constraint -> bool, rows: seq<Constraint>)
    requires Keyed(rows)
    ensures Keyed(Filter(keep, rows))
  {
    if rows != [] {
      KeyedTail(rows);
      FilterKeepsKeyed(keep, rows[1..]);
      FilterMembers(keep, rows[1..]);
      var kept := Filter(keep, rows[1..]);
      forall j | 0 <= j < |kept| ensures !Named(rows[0], kept[j].namespace, kept[j].name) {
        assert kept[j] in rows[1..];
      }
    }
  }

  lemma {:induction false} RemoveFirstIsFilter(rows: seq<Constraint>, namespace: string, name: string)
    requires Keyed(rows)
    ensures RemoveFirst(rows, namespace, name) == Filter(NotNamed(namespace, [name]), rows)
  {
    if rows != [] {
      KeyedTail(rows);
      if Named(rows[0], namespace, name) {
        FilterAll(NotNamed(namespace, [name]), rows[1..]);
      } else {
        RemoveFirstIsFilter(rows[1..], namespace, name);
      }
    }
  }

  lemma NotNamedTwice(rows: seq<Constraint>, namespace: string, name: string, names: seq<string>)
    ensures Filter(NotNamed(namespace, names), Filter(NotNamed(namespace, [name]), rows))
            == Filter(NotNamed(namespace, [name] + names), rows)
  {
    var first, both := NotNamed(namespace, [name]), NotNamed(namespace, [name] + names);
    FilterWithin(both, first, rows);
    FilterMembers(first, rows);
    FilterAgree(NotNamed(namespace, names), both, Filter(first, rows));
  }

  /** After one successful removal the rest of the loop works as it would have. */
  lemma {:induction false} ReachedShifts(
    down: nat -> bool, db: Db, after: Db, namespace: string, names: seq<string>, i: nat)
    requires i < |names| && after.calls == db.calls + 2
    requires forall name :: Exists(after.rows, namespace, name) <==> Exists(db.rows, namespace, name) && name != names[0]
    ensures Reached(down, db, namespace, names, i + 1) == Reached(down, after, namespace, names[1..], i) + 1
    decreases |names| - i
  {
    if i + 1 < |names| {
      assert names[..i + 1] == [names[0]] + names[1..][..i];
      assert Works(down, db, namespace, names, i + 1) <==> Works(down, after, namespace, names[1..], i);
      ReachedShifts(down, db, after, namespace, names, i + 1);
    }
  }

  /** The loop takes out exactly the names listed before the first whose removal errors. */
  lemma {:induction false} RemoveNamesMeaning(down: nat -> bool, namespace: string, names: seq<string>, db: Db)
    requires Keyed(db.rows)
    ensures var after := RemoveNames(down, namespace, names, db);
            && after.rows == Filter(NotNamed(namespace, names[..Reached(down, db, namespace, names, 0)]), db.rows)
            && after.calls == CallAfter(down, db, namespace, names)
    decreases |names|
  {
    if names == [] || !Works(down, db, namespace, names, 0) {
      FailingRemoval(down, namespace, names, db);
    } else {
      var after := WorkingRemoval(down, db, namespace, names);
      var k := Reached(down, after, namespace, names[1..], 0);
      RemoveNamesMeaning(down, namespace, names[1..], after);
      assert RemoveNames(down, namespace, names, db).rows == Filter(NotNamed(namespace, names[1..][..k]), after.rows);
      assert after.rows == Filter(NotNamed(namespace, [names[0]]), db.rows);
      OneMoreFiltered(db.rows, namespace, names, k);
      assert names[..Reached(down, db, namespace, names, 0)] == names[..k + 1];
    }
  }

  lemma OneMoreFiltered(rows: seq<Constraint>, namespace: string, names: seq<string>, k: nat)
    requires k < |names|
    ensures Filter(NotNamed(namespace, names[1..][..k]), Filter(NotNamed(namespace, [names[0]]), rows))
            == Filter(NotNamed(namespace, names[..k + 1]), rows)
  {
    assert names[..k + 1] == [names[0]] + names[1..][..k];
    NotNamedTwice(rows, namespace, names[0], names[1..][..k]);
  }

  /** Nothing listed, or a first removal that errors: the store stays. */
  lemma FailingRemoval(down: nat -> bool, namespace: string, names: seq<string>, db: Db)
    requires names == [] || !Works(down, db, namespace, names, 0)
    ensures var after := RemoveNames(down, namespace, names, db);
            && after.rows == Filter(NotNamed(namespace, names[..Reached(down, db, namespace, names, 0)]), db.rows)
            && after.calls == CallAfter(down, db, namespace, names)
  {
    assert RemoveNames(down, namespace, names, db).rows == db.rows;
    assert Reached(down, db, namespace, names, 0) == 0 && names[..0] == [];
    FilterAll(NotNamed(namespace, names[..0]), db.rows);
  }

  /** A removal that works leaves the other names, and the loop goes on with them. */
  lemma WorkingRemoval(down: nat -> bool, db: Db, namespace: string, names: seq<string>) returns (after: Db)
    requires Keyed(db.rows) && names != [] && Works(down, db, namespace, names, 0)
    ensures (after, Answer(true)) == Remove(down, db, namespace, names[0])
    ensures && Keyed(after.rows)
            && after.rows == Filter(NotNamed(namespace, [names[0]]), db.rows)
            && Reached(down, db, namespace, names, 0) == Reached(down, after, namespace, names[1..], 0) + 1
            && CallAfter(down, db, namespace, names) == CallAfter(down, after, namespace, names[1..])
            && RemoveNames(down, namespace, names, db) == RemoveNames(down, namespace, names[1..], after)
  {
    RemoveFirstIsExact(db.rows, namespace, names[0]);
    RemoveFirstIsFilter(db.rows, namespace, names[0]);
    RemainingNames(db.rows, namespace, names[0]);
    after := Remove(down, db, namespace, names[0]).0;
    assert Reached(down, db, namespace, names, 0) == Reached(down, after, namespace, names[1..], 0) + 1 by {
      ReachedShifts(down, db, after, namespace, names, 0);
    }
    assert CallAfter(down, db, namespace, names) == CallAfter(down, after, namespace, names[1..]) by {
      CallAfterShifts(down, db, after, namespace, names);
    }
  }

  lemma RemainingNames(rows: seq<Constraint>, namespace: string, name: string)
    requires Keyed(rows)
    ensures forall n :: Exists(RemoveFirst(rows, namespace, name), namespace, n) <==> Exists(rows, namespace, n) && n != name
  {
    var after := RemoveFirst(rows, namespace, name);
    RemoveFirstIsExact(rows, namespace, name);
    forall n ensures Exists(after, namespace, n) <==> Exists(rows, namespace, n) && n != name {
      ExistsMember(after, namespace, n);
      ExistsMember(rows, namespace, n);
    }
  }

  lemma ExistsMember(rows: seq<Constraint>, namespace: string, name: string)
    ensures Exists(rows, namespace, name) <==> exists c :: c in rows && Named(c, namespace, name)
  {
    if c :| c in rows && Named(c, namespace, name) {
      var i :| 0 <= i < |rows| && rows[i] == c;
      assert Named(rows[i], namespace, name);
    }
  }

  lemma CallAfterShifts(down: nat -> bool, db: Db, after: Db, namespace: string, names: seq<string>)
    requires names != [] && Works(down, db, namespace, names, 0) && after.calls == db.calls + 2
    requires forall name :: Exists(after.rows, namespace, name) <==> Exists(db.rows, namespace, name) && name != names[0]
    ensures CallAfter(down, db, namespace, names) == CallAfter(down, after, namespace, names[1..])
  {
    ReachedShifts(down, db, after, namespace, names, 0);
    var k := Reached(down, after, namespace, names[1..], 0);
    assert names[..k + 1] == [names[0]] + names[1..][..k];
  }

  // ---- One visit ----

  /** The names that a visit sets out to remove. */
  function ToRemove(ps: Pass, snapshot: seq<Constraint>, path: string): seq<string> {
    if path in ps.registered then Listed(Prefix(ps.agent, path), snapshot) else []
  }

  function Removed(down: nat -> bool, ps: Pass, snapshot: seq<Constraint>, path: string, db: Db): seq<string> {
    var names := ToRemove(ps, snapshot, path);
    names[..Reached(down, db, ps.agent.namespace, names, 0)]
  }

  /** The database works when the visit comes to add the new constraint. */
  predicate AddWorks(down: nat -> bool, ps: Pass, snapshot: seq<Constraint>, path: string, db: Db) {
    var call := CallAfter(down, db, ps.agent.namespace, ToRemove(ps, snapshot, path));
    ps.agent.namespace != "" && !down(call) && !down(call + 1)
  }

  /** The constraints named after a file that the deletion leaves. */
  function Left(down: nat -> bool, ps: Pass, snapshot: seq<Constraint>, path: string, db: Db): seq<Constraint> {
    Filter(NotNamed(ps.agent.namespace, Removed(down, ps, snapshot, path, db)), Own(ps.agent, path, db.rows))
  }

  /** What replacing makes of the constraints named after a file. */
  function OwnAfterReplace(
    down: nat -> bool, ps: Pass, snapshot: seq<Constraint>, path: string, sum: Digest, db: Db): seq<Constraint>
  {
    Joined(Left(down, ps, snapshot, path, db), Auto(ps.agent, path, sum), AddWorks(down, ps, snapshot, path, db))
  }

  /** The constraints of a file with a new one, unless it does not work or the name is taken. */
  function Joined(left: seq<Constraint>, target: Constraint, works: bool): seq<Constraint> {
    if works && !Exists(left, target.namespace, target.name) then left + [target] else left
  }

  /** What a visit makes of the constraints named after its file. */
  function OwnAfterVisit(down: nat -> bool, ps: Pass, snapshot: seq<Constraint>, path: string, db: Db): seq<Constraint> {
    if Needs(ps, path)
    then OwnAfterReplace(down, ps, snapshot, path, Checksum(ps.agent, ps.files, path), db)
    else Own(ps.agent, path, db.rows)
  }

  lemma {:induction false} FilterCommutes<T>(one: T -> bool, other: T -> bool, s: seq<T>)
    ensures Filter(one, Filter(other, s)) == Filter(other, Filter(one, s))
  {
    if s != [] {
      FilterCommutes(one, other, s[1..]);
      FilterAppend(one, if other(s[0]) then [s[0]] else [], Filter(other, s[1..]));
      FilterAppend(other, if one(s[0]) then [s[0]] else [], Filter(one, s[1..]));
    }
  }

  function Cleared(down: nat -> bool, ps: Pass, snapshot: seq<Constraint>, path: string, db: Db): Db {
    RemoveNames(down, ps.agent.namespace, ToRemove(ps, snapshot, path), db)
  }

  lemma ReplaceAdds(down: nat -> bool, ps: Pass, snapshot: seq<Constraint>, path: string, sum: Digest, db: Db)
    ensures PodAgent.Replace(down, ps, snapshot, path, sum, db)
            == Add(down, Cleared(down, ps, snapshot, path, db), Some(Auto(ps.agent, path, sum))).0
  {
    if path in ps.registered {
      DeleteRunByNames(down, ps.agent.namespace, snapshot, Prefix(ps.agent, path), db);
    }
  }

  lemma ClearedRows(down: nat -> bool, ps: Pass, snapshot: seq<Constraint>, path: string, db: Db)
    requires Keyed(db.rows)
    ensures Cleared(down, ps, snapshot, path, db).rows
            == Filter(NotNamed(ps.agent.namespace, Removed(down, ps, snapshot, path, db)), db.rows)
    ensures Cleared(down, ps, snapshot, path, db).calls
            == CallAfter(down, db, ps.agent.namespace, ToRemove(ps, snapshot, path))
  {
    RemoveNamesMeaning(down, ps.agent.namespace, ToRemove(ps, snapshot, path), db);
  }

  lemma ClearedOwn(down: nat -> bool, ps: Pass, snapshot: seq<Constraint>, path: string, db: Db)
    requires Keyed(db.rows)
    ensures var rows := Cleared(down, ps, snapshot, path, db).rows;
            Keyed(rows) && Own(ps.agent, path, rows) == Left(down, ps, snapshot, path, db)
  {
    ClearedRows(down, ps, snapshot, path, db);
    LeftIsOwn(ps.agent, path, db.rows, Removed(down, ps, snapshot, path, db));
  }

  lemma AddWorksAfter(down: nat -> bool, ps: Pass, snapshot: seq<Constraint>, path: string, db: Db)
    requires Keyed(db.rows)
    ensures AddWorks(down, ps, snapshot, path, db) <==>
              var call := Cleared(down, ps, snapshot, path, db).calls;
              ps.agent.namespace != "" && !down(call) && !down(call + 1)
  {
    ClearedRows(down, ps, snapshot, path, db);
  }

  lemma LeftIsOwn(ag: Agent, path: string, rows: seq<Constraint>, removed: seq<string>)
    requires Keyed(rows)
    ensures var stay := NotNamed(ag.namespace, removed);
            Keyed(Filter(stay, rows)) && Own(ag, path, Filter(stay, rows)) == Filter(stay, Own(ag, path, rows))
  {
    var stay := NotNamed(ag.namespace, removed);
    FilterKeepsKeyed(stay, rows);
    FilterCommutes(OwnTest(ag, path), stay, rows);
  }

  /** Replacing from any snapshot, with any failures: of the constraints named after the file those
      listed before the first failing removal go, and the new one joins unless its name is taken or
      the database fails. */
  lemma ReplaceMeaning(down: nat -> bool, ps: Pass, snapshot: seq<Constraint>, path: string, sum: Digest, db: Db)
    requires Keyed(db.rows)
    ensures var after := PodAgent.Replace(down, ps, snapshot, path, sum, db);
            && Keyed(after.rows)
            && Own(ps.agent, path, after.rows) == OwnAfterReplace(down, ps, snapshot, path, sum, db)
  {
    ReplaceAdds(down, ps, snapshot, path, sum, db);
    ClearedOwn(down, ps, snapshot, path, db);
    AddWorksAfter(down, ps, snapshot, path, db);
    AddedOwn(down, ps.agent, Cleared(down, ps, snapshot, path, db), path, sum);
  }

  /** The same for one visit, which replaces what it needs to. */
  lemma VisitMeaning(down: nat -> bool, ps: Pass, snapshot: seq<Constraint>, path: string, db: Db)
    requires Keyed(db.rows)
    ensures var after := PodAgent.Visit(down, ps, snapshot, path, db);
            Keyed(after.rows) && Own(ps.agent, path, after.rows) == OwnAfterVisit(down, ps, snapshot, path, db)
  {
    if Needs(ps, path) {
      ReplaceMeaning(down, ps, snapshot, path, Checksum(ps.agent, ps.files, path), db);
    }
  }

  lemma AddedOwn(down: nat -> bool, ag: Agent, db: Db, path: string, sum: Digest)
    requires Keyed(db.rows)
    ensures var (target, own) := (Auto(ag, path, sum), Own(ag, path, db.rows));
            var after := Add(down, db, Some(target)).0;
            && Keyed(after.rows)
            && Own(ag, path, after.rows)
               == Joined(own, target, ag.namespace != "" && !down(db.calls) && !down(db.calls + 1))
  {
    var target, keep := Auto(ag, path, sum), OwnTest(ag, path);
    ServeKeepsKeyed(down, db, AddRequest(Some(target)));
    TargetIsOwn(ag, path, sum);
    FilterAppend(keep, db.rows, [target]);
    FilterMembers(keep, db.rows);
    ExistsMember(db.rows, target.namespace, target.name);
    ExistsMember(Own(ag, path, db.rows), target.namespace, target.name);
    if c :| c in db.rows && Named(c, target.namespace, target.name) {
      assert keep(c) && c in Own(ag, path, db.rows);
    }
  }

  /** The exact condition for a single constraint after a visit. If the addition works: every stored
      constraint of the file bears the new name or comes, among the listed ones, before the first
      whose removal errors. If it fails: a single constraint is beyond the removals reached. */
  ghost predicate LeavesOne(down: nat -> bool, ps: Pass, snapshot: seq<Constraint>, path: string, db: Db) {
    var own := Own(ps.agent, path, db.rows);
    var removed := Removed(down, ps, snapshot, path, db);
    if !Needs(ps, path) then |own| == 1
    else if AddWorks(down, ps, snapshot, path, db) then
      forall c :: c in own ==> c.name == Desired(ps, path).name || c.name in removed
    else
      exists c :: c in own && c.name !in removed && forall d :: d in own && d != c ==> d.name in removed
  }

  /** In a keyed list, two constraints of one namespace have two names. */
  lemma KeyedNames(rows: seq<Constraint>, namespace: string)
    requires Keyed(rows) && forall c :: c in rows ==> c.namespace == namespace
    ensures |rows| <= 1 <==> forall c, d :: c in rows && d in rows ==> c.name == d.name
    ensures forall i, j :: 0 <= i < j < |rows| ==> rows[i] != rows[j]
  {
    if |rows| > 1 {
      assert !Named(rows[0], rows[1].namespace, rows[1].name);
      assert rows[0] in rows && rows[1] in rows;
    }
  }

  /** Exactly one checksum of a file remains after a visit if and only if the condition holds: for every
      keyed store, every snapshot, and whatever calls fail. */
  lemma VisitLeavesOneExactly(down: nat -> bool, ps: Pass, snapshot: seq<Constraint>, path: string, db: Db)
    requires Keyed(db.rows)
    ensures |Own(ps.agent, path, PodAgent.Visit(down, ps, snapshot, path, db).rows)| == 1
            <==> LeavesOne(down, ps, snapshot, path, db)
  {
    VisitMeaning(down, ps, snapshot, path, db);
    if Needs(ps, path) {
      var own := Own(ps.agent, path, db.rows);
      var removed := Removed(down, ps, snapshot, path, db);
      LeftAre(ps.agent, path, db.rows, removed);
      var left := Filter(NotNamed(ps.agent.namespace, removed), own);
      if AddWorks(down, ps, snapshot, path, db) {
        OneWithTarget(left, Desired(ps, path));
      } else {
        OneLeft(left);
      }
    }
  }

  lemma LeftAre(ag: Agent, path: string, rows: seq<Constraint>, removed: seq<string>)
    requires Keyed(rows)
    ensures var (own, left) := (Own(ag, path, rows), Filter(NotNamed(ag.namespace, removed), Own(ag, path, rows)));
            && Keyed(left)
            && (forall c :: c in left <==> c in own && c.name !in removed)
            && (forall c :: c in left ==> c.namespace == ag.namespace)
  {
    FilterMembers(OwnTest(ag, path), rows);
    FilterMembers(NotNamed(ag.namespace, removed), Own(ag, path, rows));
    FilterKeepsKeyed(OwnTest(ag, path), rows);
    FilterKeepsKeyed(NotNamed(ag.namespace, removed), Own(ag, path, rows));
  }

  lemma OneWithTarget(left: seq<Constraint>, target: Constraint)
    requires Keyed(left) && forall c :: c in left ==> c.namespace == target.namespace
    ensures var after := if Exists(left, target.namespace, target.name) then left else left + [target];
            |after| == 1 <==> forall c :: c in left ==> c.name == target.name
  {
    ExistsMember(left, target.namespace, target.name);
    KeyedNames(left, target.namespace);
    if left != [] {
      assert left[0] in left;
    }
  }

  lemma OneLeft(left: seq<Constraint>)
    ensures |left| == 1 ==> exists c :: c in left && forall d :: d in left ==> d == c
    ensures Keyed(left) && (exists c :: c in left && forall d :: d in left ==> d == c) ==> |left| == 1
  {
    if |left| == 1 {
      assert left[0] in left;
    }
    if |left| > 1 && Keyed(left) {
      assert !Named(left[0], left[1].namespace, left[1].name);
      assert left[0] in left && left[1] in left;
    }
  }

  // ---- A whole pass ----

  ghost predicate Walkable(paths: set<string>, todo: seq<string>) {
    forall q :: q in todo ==> q in paths
  }

  /** A pass over two lists of files is a pass over the first and one over the second. */
  lemma {:induction false} FinishSplits(
    down: nat -> bool, ps: Pass, snapshot: seq<Constraint>, first: seq<string>, second: seq<string>, db: Db)
    ensures Finish(down, ps, snapshot, Pc(first + second, Idle), db)
            == Finish(down, ps, snapshot, Pc(second, Idle), Finish(down, ps, snapshot, Pc(first, Idle), db))
  {
    if first == [] {
      assert first + second == second;
    } else {
      var after := PodAgent.Visit(down, ps, snapshot, first[0], db);
      assert first == [first[0]] + first[1..];
      assert first + second == [first[0]] + (first[1..] + second);
      PodAgent.VisitIsFinish(down, ps, snapshot, first[0], first[1..], db);
      PodAgent.VisitIsFinish(down, ps, snapshot, first[0], first[1..] + second, db);
      FinishSplits(down, ps, snapshot, first[1..], second, after);
    }
  }

  lemma FinishOne(down: nat -> bool, ps: Pass, snapshot: seq<Constraint>, path: string, db: Db)
    ensures Finish(down, ps, snapshot, Pc([path], Idle), db) == PodAgent.Visit(down, ps, snapshot, path, db)
  {
    PodAgent.VisitIsFinish(down, ps, snapshot, path, [], db);
    assert [path] + [] == [path];
  }

  /** Visiting one file leaves the constraints of the others. */
  lemma VisitKeepsOthers(
    down: nat -> bool, ps: Pass, paths: set<string>, snapshot: seq<Constraint>, path: string, db: Db, p: string)
    requires Distinguished(ps.agent, paths) && path in paths && p in paths && p != path
    requires Keyed(db.rows)
    ensures Own(ps.agent, p, PodAgent.Visit(down, ps, snapshot, path, db).rows) == Own(ps.agent, p, db.rows)
  {
    if Needs(ps, path) {
      var sum := Checksum(ps.agent, ps.files, path);
      ReplaceAdds(down, ps, snapshot, path, sum, db);
      ClearedKeepsOthers(down, ps, paths, snapshot, path, db, p);
      AddOthers(down, ps.agent, paths, Cleared(down, ps, snapshot, path, db), path, sum, p);
    }
  }

  lemma ClearedKeepsOthers(
    down: nat -> bool, ps: Pass, paths: set<string>, snapshot: seq<Constraint>, path: string, db: Db, p: string)
    requires Distinguished(ps.agent, paths) && path in paths && p in paths && p != path
    requires Keyed(db.rows)
    ensures Own(ps.agent, p, Cleared(down, ps, snapshot, path, db).rows) == Own(ps.agent, p, db.rows)
  {
    ClearedRows(down, ps, snapshot, path, db);
    OthersNotRemoved(down, ps, paths, snapshot, path, db, p);
  }

  lemma OthersNotRemoved(
    down: nat -> bool, ps: Pass, paths: set<string>, snapshot: seq<Constraint>, path: string, db: Db, p: string)
    requires Distinguished(ps.agent, paths) && path in paths && p in paths && p != path
    ensures Own(ps.agent, p, Filter(NotNamed(ps.agent.namespace, Removed(down, ps, snapshot, path, db)), db.rows))
            == Own(ps.agent, p, db.rows)
  {
    var ag, removed := ps.agent, Removed(down, ps, snapshot, path, db);
    var keep, stay := OwnTest(ag, p), NotNamed(ag.namespace, removed);
    FilterCommutes(keep, stay, db.rows);
    FilterMembers(keep, db.rows);
    ListedHavePrefix(Prefix(ag, path), snapshot);
    forall c | c in Own(ag, p, db.rows) ensures stay(c) {
      if c.name in removed {
        assert c.name in ToRemove(ps, snapshot, path);
        OwnersAreUnique(ag, paths, c, p, path);
      }
    }
    FilterAll(stay, Own(ag, p, db.rows));
  }

  lemma {:induction false} PassKeepsOthers(
    down: nat -> bool, ps: Pass, paths: set<string>, snapshot: seq<Constraint>, todo: seq<string>, db: Db, p: string)
    requires Distinguished(ps.agent, paths) && Walkable(paths, todo) && p in paths && p !in todo
    requires Keyed(db.rows)
    ensures Own(ps.agent, p, Finish(down, ps, snapshot, Pc(todo, Idle), db).rows) == Own(ps.agent, p, db.rows)
  {
    if todo != [] {
      assert todo == [todo[0]] + todo[1..];
      PodAgent.VisitIsFinish(down, ps, snapshot, todo[0], todo[1..], db);
      VisitMeaning(down, ps, snapshot, todo[0], db);
      VisitKeepsOthers(down, ps, paths, snapshot, todo[0], db, p);
      PassKeepsOthers(down, ps, paths, snapshot, todo[1..], PodAgent.Visit(down, ps, snapshot, todo[0], db), p);
    }
  }

  lemma {:induction false} PassKeepsKeyed(
    down: nat -> bool, ps: Pass, snapshot: seq<Constraint>, todo: seq<string>, db: Db)
    requires Keyed(db.rows)
    ensures Keyed(Finish(down, ps, snapshot, Pc(todo, Idle), db).rows)
  {
    if todo != [] {
      assert todo == [todo[0]] + todo[1..];
      PodAgent.VisitIsFinish(down, ps, snapshot, todo[0], todo[1..], db);
      VisitMeaning(down, ps, snapshot, todo[0], db);
      PassKeepsKeyed(down, ps, snapshot, todo[1..], PodAgent.Visit(down, ps, snapshot, todo[0], db));
    }
  }

  /** A whole pass over any list of files, from any snapshot and with any failures: what decides about a
      file is the store at its last visit. */
  lemma PassLeavesOneExactly(
    down: nat -> bool, ps: Pass, paths: set<string>, snapshot: seq<Constraint>, earlier: seq<string>, p: string,
    later: seq<string>, db: Db)
    requires Distinguished(ps.agent, paths) && Walkable(paths, earlier + [p] + later) && p !in later
    requires Keyed(db.rows)
    ensures |Own(ps.agent, p, Finish(down, ps, snapshot, Pc(earlier + [p] + later, Idle), db).rows)| == 1
            <==> LeavesOne(down, ps, snapshot, p, Finish(down, ps, snapshot, Pc(earlier, Idle), db))
  {
    var before := Finish(down, ps, snapshot, Pc(earlier, Idle), db);
    FinishSplits(down, ps, snapshot, earlier + [p], later, db);
    FinishSplits(down, ps, snapshot, earlier, [p], db);
    FinishOne(down, ps, snapshot, p, before);
    PassKeepsKeyed(down, ps, snapshot, earlier, db);
    VisitMeaning(down, ps, snapshot, p, before);
    VisitLeavesOneExactly(down, ps, snapshot, p, before);
    assert p in earlier + [p] + later;
    forall q | q in later ensures q in paths {
      assert q in earlier + [p] + later;
    }
    PassKeepsOthers(down, ps, paths, snapshot, later, PodAgent.Visit(down, ps, snapshot, p, before), p);
  }

  // ---- A whole pass with a working database ----

  ghost function Names(own: seq<Constraint>): set<string> {
    set c | c in own :: c.name
  }

  /** How many listed names a loop removes from a working store that has the given names: up to the
      first that is not there, or not there any more. */
  function Present(names: seq<string>, stored: set<string>, i: nat): (k: nat)
    requires i <= |names|
    ensures i <= k <= |names|
    ensures forall j :: i <= j < k ==> names[j] in stored && names[j] !in names[..j]
    ensures k < |names| ==> !(names[k] in stored && names[k] !in names[..k])
    decreases |names| - i
  {
    if i == |names| || !(names[i] in stored && names[i] !in names[..i]) then i else Present(names, stored, i + 1)
  }

  /** The names stored for a file after a number of visits that register `target`. */
  function AfterVisits(names: seq<string>, target: string, stored: set<string>, visits: nat): set<string> {
    if visits == 0 then stored
    else
      var before := AfterVisits(names, target, stored, visits - 1);
      (set n | n in before && n !in names[..Present(names, before, 0)]) + {target}
  }

  lemma {:induction false} ReachedIsPresent(
    down: nat -> bool, ag: Agent, path: string, db: Db, names: seq<string>, i: nat)
    requires AlwaysUp(down) && ag.namespace != "" && i <= |names|
    requires forall name :: name in names ==> Prefix(ag, path) <= name
    ensures Reached(down, db, ag.namespace, names, i) == Present(names, Names(Own(ag, path, db.rows)), i)
    decreases |names| - i
  {
    if i < |names| {
      ExistsMember(db.rows, ag.namespace, names[i]);
      FilterMembers(OwnTest(ag, path), db.rows);
      assert names[i] in names;
      if c :| c in db.rows && Named(c, ag.namespace, names[i]) {
        assert c in Own(ag, path, db.rows);
      }
      ReachedIsPresent(down, ag, path, db, names, i + 1);
    }
  }

  lemma VisitNames(down: nat -> bool, ps: Pass, snapshot: seq<Constraint>, path: string, db: Db)
    requires AlwaysUp(down) && ps.agent.namespace != "" && Keyed(db.rows) && Needs(ps, path)
    ensures var stored := Names(Own(ps.agent, path, db.rows));
            Names(Own(ps.agent, path, PodAgent.Visit(down, ps, snapshot, path, db).rows))
            == AfterVisits(ToRemove(ps, snapshot, path), Desired(ps, path).name, stored, 1)
  {
    var ag, names, target := ps.agent, ToRemove(ps, snapshot, path), Desired(ps, path);
    var own, removed := Own(ag, path, db.rows), Removed(down, ps, snapshot, path, db);
    VisitMeaning(down, ps, snapshot, path, db);
    ListedHavePrefix(Prefix(ag, path), snapshot);
    ReachedIsPresent(down, ag, path, db, names, 0);
    LeftAre(ag, path, db.rows, removed);
    NamesWith(own, Filter(NotNamed(ag.namespace, removed), own), removed, target);
    assert AfterVisits(names, target.name, Names(own), 0) == Names(own);
  }

  /** The names left with the new one, whether it was among them or not. */
  lemma NamesWith(own: seq<Constraint>, left: seq<Constraint>, removed: seq<string>, target: Constraint)
    requires forall c :: c in left <==> c in own && c.name !in removed
    requires forall c :: c in left ==> c.namespace == target.namespace
    ensures Names(if Exists(left, target.namespace, target.name) then left else left + [target])
            == (set n | n in Names(own) && n !in removed) + {target.name}
  {
    ExistsMember(left, target.namespace, target.name);
    assert Names(left) == set n | n in Names(own) && n !in removed;
    assert Names(left + [target]) == Names(left) + {target.name};
  }

  function Count(todo: seq<string>, p: string): nat {
    if todo == [] then 0 else (if todo[0] == p then 1 else 0) + Count(todo[1..], p)
  }

  lemma {:induction false} AfterMoreVisits(names: seq<string>, target: string, stored: set<string>, visits: nat)
    ensures AfterVisits(names, target, AfterVisits(names, target, stored, 1), visits)
            == AfterVisits(names, target, stored, visits + 1)
  {
    if visits > 0 {
      AfterMoreVisits(names, target, stored, visits - 1);
    }
  }

  lemma {:induction false} PassNames(
    down: nat -> bool, ps: Pass, paths: set<string>, snapshot: seq<Constraint>, todo: seq<string>, db: Db, p: string)
    requires AlwaysUp(down) && ps.agent.namespace != "" && Distinguished(ps.agent, paths)
    requires Walkable(paths, todo) && p in paths && Keyed(db.rows) && Needs(ps, p)
    ensures Names(Own(ps.agent, p, Finish(down, ps, snapshot, Pc(todo, Idle), db).rows))
            == AfterVisits(ToRemove(ps, snapshot, p), Desired(ps, p).name, Names(Own(ps.agent, p, db.rows)), Count(todo, p))
  {
    if todo != [] {
      var after := PodAgent.Visit(down, ps, snapshot, todo[0], db);
      assert todo == [todo[0]] + todo[1..];
      PodAgent.VisitIsFinish(down, ps, snapshot, todo[0], todo[1..], db);
      FirstVisitNames(down, ps, paths, snapshot, todo[0], db, p);
      assert Count(todo, p) == (if todo[0] == p then 1 else 0) + Count(todo[1..], p);
      PassNames(down, ps, paths, snapshot, todo[1..], after, p);
      if todo[0] == p {
        AfterMoreVisits(ToRemove(ps, snapshot, p), Desired(ps, p).name, Names(Own(ps.agent, p, db.rows)),
                        Count(todo[1..], p));
      }
    }
  }

  lemma FirstVisitNames(
    down: nat -> bool, ps: Pass, paths: set<string>, snapshot: seq<Constraint>, path: string, db: Db, p: string)
    requires AlwaysUp(down) && ps.agent.namespace != "" && Distinguished(ps.agent, paths)
    requires path in paths && p in paths && Keyed(db.rows) && Needs(ps, p)
    ensures var after := PodAgent.Visit(down, ps, snapshot, path, db);
            var stored := Names(Own(ps.agent, p, db.rows));
            && Keyed(after.rows)
            && Names(Own(ps.agent, p, after.rows))
               == AfterVisits(ToRemove(ps, snapshot, p), Desired(ps, p).name, stored, if path == p then 1 else 0)
  {
    VisitMeaning(down, ps, snapshot, path, db);
    if path == p {
      VisitNames(down, ps, snapshot, p, db);
    } else {
      VisitKeepsOthers(down, ps, paths, snapshot, path, db, p);
    }
  }

  /** The loop of a second visit reaches at most the new name: whatever else it could reach is gone. */
  lemma SecondLoopStops(names: seq<string>, target: string, stored: set<string>, once: set<string>)
    requires names == [] || names[0] != target || target in stored
    requires forall n :: n in once <==> n == target || (n in stored && n !in names[..Present(names, stored, 0)])
    ensures forall n :: n in names[..Present(names, once, 0)] ==> n == target
  {
    var k, again := Present(names, stored, 0), Present(names, once, 0);
    if again > 0 {
      assert names[0] in once && names[0] !in names[..0];
      assert names[0] == target && k > 0;
      assert again == 1;
      assert names[..1] == [names[0]];
    }
  }

  /** A second visit changes nothing, unless it finds the new name listed first and newly stored. */
  lemma SecondVisitSettles(names: seq<string>, target: string, stored: set<string>)
    requires names == [] || names[0] != target || target in stored
    ensures AfterVisits(names, target, stored, 2) == AfterVisits(names, target, stored, 1)
  {
    var once := AfterVisits(names, target, stored, 1);
    assert AfterVisits(names, target, stored, 0) == stored;
    SecondLoopStops(names, target, stored, once);
  }

  lemma {:induction false} VisitsSettle(names: seq<string>, target: string, stored: set<string>, visits: nat)
    requires visits >= 2
    ensures AfterVisits(names, target, stored, visits) == AfterVisits(names, target, stored, 2)
  {
    if visits > 2 {
      VisitsSettle(names, target, stored, visits - 1);
      SecondVisitSettles(names, target, AfterVisits(names, target, stored, 1));
      AfterMoreVisits(names, target, stored, 1);
      AfterMoreVisits(names, target, stored, 2);
    }
  }

  /** What the deletion finds stored. If the snapshot lists the new name first, the first visit stops
      there unless it is stored already; a second visit finds it stored and gets beyond it. */
  ghost function Found(names: seq<string>, target: string, stored: set<string>, visits: nat): set<string> {
    if visits > 1 && names != [] && names[0] == target then stored + {target} else stored
  }

  /** Only the new name is left, exactly if every stored name is new or comes before the first listed
      name that is not found. */
  lemma OnlyTargetLeft(names: seq<string>, target: string, stored: set<string>, visits: nat)
    requires visits > 0
    ensures target in AfterVisits(names, target, stored, visits)
    ensures AfterVisits(names, target, stored, visits) == {target} <==>
              forall n :: n in stored ==>
                n == target || n in names[..Present(names, Found(names, target, stored, visits), 0)]
  {
    if visits > 1 {
      VisitsSettle(names, target, stored, visits);
      if names == [] || names[0] != target || target in stored {
        SecondVisitSettles(names, target, stored);
        assert stored == Found(names, target, stored, visits);
        OnceTargetLeft(names, target, stored);
      } else {
        AfterMoreVisits(names, target, stored, 1);
        assert AfterVisits(names, target, stored, 0) == stored;
        assert names[..0] == [];
        assert AfterVisits(names, target, stored, 1) == stored + {target};
        OnceTargetLeft(names, target, stored + {target});
      }
    } else {
      OnceTargetLeft(names, target, stored);
    }
  }

  lemma OnceTargetLeft(names: seq<string>, target: string, stored: set<string>)
    ensures AfterVisits(names, target, stored, 1) == {target} <==>
              forall n :: n in stored ==> n == target || n in names[..Present(names, stored, 0)]
  {
    assert AfterVisits(names, target, stored, 0) == stored;
    var once := AfterVisits(names, target, stored, 1);
    assert forall n :: n in stored && n !in names[..Present(names, stored, 0)] ==> n in once;
  }

  lemma {:induction false} CountZero(todo: seq<string>, p: string)
    ensures Count(todo, p) == 0 <==> p !in todo
  {
    if todo != [] {
      CountZero(todo[1..], p);
      assert todo == [todo[0]] + todo[1..];
    }
  }

  /** One checksum per file after a whole pass with a working database: over any list of files, from any
      keyed store and any snapshot, stated about the store before the pass. */
  lemma OneChecksumExactlyIfListed(
    down: nat -> bool, ps: Pass, paths: set<string>, snapshot: seq<Constraint>, todo: seq<string>, db: Db, p: string)
    requires AlwaysUp(down) && ps.agent.namespace != "" && Distinguished(ps.agent, paths)
    requires Walkable(paths, todo) && p in paths && Keyed(db.rows)
    ensures var own := Own(ps.agent, p, db.rows);
            |Own(ps.agent, p, Finish(down, ps, snapshot, Pc(todo, Idle), db).rows)| == 1 <==>
              if p !in todo || !Needs(ps, p) then |own| == 1
              else
                var (names, target) := (ToRemove(ps, snapshot, p), Desired(ps, p).name);
                var reached := names[..Present(names, Found(names, target, Names(own), Count(todo, p)), 0)];
                forall c :: c in own ==> c.name == target || c.name in reached
  {
    CountZero(todo, p);
    if p !in todo {
      PassKeepsOthers(down, ps, paths, snapshot, todo, db, p);
    } else if !Needs(ps, p) {
      UnneededStays(down, ps, paths, snapshot, todo, db, p);
    } else {
      var names, target, own := ToRemove(ps, snapshot, p), Desired(ps, p).name, Own(ps.agent, p, db.rows);
      var after := Own(ps.agent, p, Finish(down, ps, snapshot, Pc(todo, Idle), db).rows);
      PassNames(down, ps, paths, snapshot, todo, db, p);
      OnlyTargetLeft(names, target, Names(own), Count(todo, p));
      PassKeepsKeyed(down, ps, snapshot, todo, db);
      OneName(ps.agent, p, Finish(down, ps, snapshot, Pc(todo, Idle), db).rows, target);
    }
  }

  lemma OneName(ag: Agent, p: string, rows: seq<Constraint>, name: string)
    requires Keyed(rows) && name in Names(Own(ag, p, rows))
    ensures |Own(ag, p, rows)| == 1 <==> Names(Own(ag, p, rows)) == {name}
  {
    var own := Own(ag, p, rows);
    FilterMembers(OwnTest(ag, p), rows);
    FilterKeepsKeyed(OwnTest(ag, p), rows);
    KeyedNames(own, ag.namespace);
    forall c | c in own ensures c.name in Names(own) {}
  }

  lemma {:induction false} UnneededStays(
    down: nat -> bool, ps: Pass, paths: set<string>, snapshot: seq<Constraint>, todo: seq<string>, db: Db, p: string)
    requires Distinguished(ps.agent, paths) && Walkable(paths, todo) && p in paths && !Needs(ps, p) && Keyed(db.rows)
    ensures Own(ps.agent, p, Finish(down, ps, snapshot, Pc(todo, Idle), db).rows) == Own(ps.agent, p, db.rows)
  {
    if todo != [] {
      assert todo == [todo[0]] + todo[1..];
      PodAgent.VisitIsFinish(down, ps, snapshot, todo[0], todo[1..], db);
      VisitMeaning(down, ps, snapshot, todo[0], db);
      if todo[0] != p {
        VisitKeepsOthers(down, ps, paths, snapshot, todo[0], db, p);
      }
      UnneededStays(down, ps, paths, snapshot, todo[1..], PodAgent.Visit(down, ps, snapshot, todo[0], db), p);
    }
  }

  /** From a snapshot that lists nothing under a file's name, nothing of the file is removed by any pass,
      whatever fails: at most the new checksum joins what is stored. */
  lemma {:induction false} UnlistedStays(
    down: nat -> bool, ps: Pass, paths: set<string>, snapshot: seq<Constraint>, todo: seq<string>, db: Db, p: string)
    requires Distinguished(ps.agent, paths) && Walkable(paths, todo) && p in paths && Keyed(db.rows)
    requires forall c :: c in snapshot ==> !(Prefix(ps.agent, p) <= c.name)
    ensures var (before, after) := (Own(ps.agent, p, db.rows),
                                    Own(ps.agent, p, Finish(down, ps, snapshot, Pc(todo, Idle), db).rows));
            after == before || after == before + [Desired(ps, p)]
  {
    if todo != [] {
      var next := PodAgent.Visit(down, ps, snapshot, todo[0], db);
      assert todo == [todo[0]] + todo[1..];
      PodAgent.VisitIsFinish(down, ps, snapshot, todo[0], todo[1..], db);
      VisitMeaning(down, ps, snapshot, todo[0], db);
      UnlistedStays(down, ps, paths, snapshot, todo[1..], next, p);
      if todo[0] != p {
        VisitKeepsOthers(down, ps, paths, snapshot, todo[0], db, p);
      } else {
        NothingListed(Prefix(ps.agent, p), snapshot);
        FilterAll(NotNamed(ps.agent.namespace, []), Own(ps.agent, p, db.rows));
        assert ToRemove(ps, snapshot, p) == [];
        if Own(ps.agent, p, next.rows) != Own(ps.agent, p, db.rows) {
          PassKeepsAdded(down, ps, paths, snapshot, todo[1..], next, p);
        }
      }
    }
  }

  lemma {:induction false} NothingListed(prefix: string, snapshot: seq<Constraint>)
    requires forall c :: c in snapshot ==> !(prefix <= c.name)
    ensures Listed(prefix, snapshot) == []
  {
    if snapshot != [] {
      assert snapshot[0] in snapshot;
      NothingListed(prefix, snapshot[1..]);
    }
  }

  /** The new checksum joins once only: the server refuses its name the next time. */
  lemma {:induction false} PassKeepsAdded(
    down: nat -> bool, ps: Pass, paths: set<string>, snapshot: seq<Constraint>, todo: seq<string>, db: Db, p: string)
    requires Distinguished(ps.agent, paths) && Walkable(paths, todo) && p in paths && Keyed(db.rows)
    requires ToRemove(ps, snapshot, p) == [] && Desired(ps, p) in Own(ps.agent, p, db.rows)
    ensures Own(ps.agent, p, Finish(down, ps, snapshot, Pc(todo, Idle), db).rows) == Own(ps.agent, p, db.rows)
  {
    if todo != [] {
      var next := PodAgent.Visit(down, ps, snapshot, todo[0], db);
      assert todo == [todo[0]] + todo[1..];
      PodAgent.VisitIsFinish(down, ps, snapshot, todo[0], todo[1..], db);
      VisitMeaning(down, ps, snapshot, todo[0], db);
      if todo[0] != p {
        VisitKeepsOthers(down, ps, paths, snapshot, todo[0], db, p);
      } else {
        FilterAll(NotNamed(ps.agent.namespace, []), Own(ps.agent, p, db.rows));
        ExistsMember(Own(ps.agent, p, db.rows), Desired(ps, p).namespace, Desired(ps, p).name);
      }
      PassKeepsAdded(down, ps, paths, snapshot, todo[1..], next, p);
    }
  }

  // ---- Inputs that leave two ----

  lemma RegisteredTogether(ag: Agent, path: string, first: Digest, second: Digest)
    requires path != ""
    ensures Registered([Auto(ag, path, first)]) == map[path := first]
    ensures Registered([Auto(ag, path, first), Auto(ag, path, second)]) == map[path := second]
  {
    var one, other := Auto(ag, path, first), Auto(ag, path, second);
    var rules := [FileRule(path, first), FileRule(path, second)];
    assert [one][..0] == [] && [one, other][..1] == [one];
    assert AllRules([one]) == [rules[0]] && AllRules([one, other]) == rules;
    assert [rules[0]][..0] == [] && rules[..1] == [rules[0]];
    assert LastSums([]) == map[];
    assert LastSums([rules[0]]) == map[path := first];
  }

  lemma NamesDiffer(ag: Agent, path: string, one: Digest, other: Digest)
    requires one[..10] != other[..10]
    ensures Auto(ag, path, one).name != Auto(ag, path, other).name
  {
    var n := |Prefix(ag, path)|;
    assert Auto(ag, path, one).name[n..] == one[..10] && Auto(ag, path, other).name[n..] == other[..10];
  }

  /** Removing the one stored constraint, and removing one that is not stored. */
  lemma RemoveAlone(down: nat -> bool, c: Constraint, name: string, calls: nat)
    requires AlwaysUp(down) && c.namespace != "" && name != ""
    ensures Remove(down, Db([c], calls), c.namespace, name)
            == if c.name == name then (Db([], calls + 2), Answer(true)) else (Db([c], calls + 1), Error(NotFound))
  {
    assert Exists([c], c.namespace, name) <==> Named([c][0], c.namespace, name);
    assert [c][1..] == [];
  }

  /** Two passes without a sync between: the second finds listed what the first has removed, the
      removal answers that there is no such constraint, and two checksums stay. */
  lemma UnsyncedPassLeavesTwo(
    down: nat -> bool, ag: Agent, files: Files, changed: Files, path: string, older: Digest)
    requires AlwaysUp(down) && ag.namespace != "" && path != ""
    requires var (former, sum) := (Checksum(ag, files, path), Checksum(ag, changed, path));
             older[..10] != former[..10] && former[..10] != sum[..10] && sum != older
    ensures var snapshot := [Auto(ag, path, older)];
            var (first, second) := (Pass(ag, files, Registered(snapshot)), Pass(ag, changed, Registered(snapshot)));
            var between := Finish(down, first, snapshot, Pc([path], Idle), Db(snapshot, 0));
            && between.rows == [Desired(first, path)]
            && Finish(down, second, snapshot, Pc([path], Idle), between).rows
               == [Desired(first, path), Desired(second, path)]
  {
    var stored := Auto(ag, path, older);
    var snapshot := [stored];
    var first, second := Pass(ag, files, Registered(snapshot)), Pass(ag, changed, Registered(snapshot));
    var former := Desired(first, path);
    RegisteredTogether(ag, path, older, older);
    FinishOne(down, first, snapshot, path, Db(snapshot, 0));
    RemoveAlone(down, stored, stored.name, 0);
    assert snapshot[1..] == [] && [] + [former] == [former];
    var between := Db([former], 4);
    assert PodAgent.DeleteRun(down, ag.namespace, snapshot, Prefix(ag, path), Db(snapshot, 0)).0 == Db([], 2);
    assert Finish(down, first, snapshot, Pc([path], Idle), Db(snapshot, 0)) == between;
    NamesDiffer(ag, path, older, Checksum(ag, files, path));
    NamesDiffer(ag, path, Checksum(ag, files, path), Checksum(ag, changed, path));
    RemoveAlone(down, former, stored.name, 4);
    FinishOne(down, second, snapshot, path, between);
    assert PodAgent.DeleteRun(down, ag.namespace, snapshot, Prefix(ag, path), between).0 == Db([former], 5);
    assert [former] + [Desired(second, path)] == [former, Desired(second, path)];
  }

  /** A listed constraint that is already gone stops the deletion before one that is stored. */
  lemma GoneConstraintStopsDeletion(
    down: nat -> bool, ag: Agent, files: Files, path: string, gone: Digest, former: Digest)
    requires AlwaysUp(down) && ag.namespace != "" && path != ""
    requires var sum := Checksum(ag, files, path);
             gone[..10] != former[..10] && former[..10] != sum[..10]
    ensures var snapshot := [Auto(ag, path, gone), Auto(ag, path, former)];
            var ps := Pass(ag, files, Registered(snapshot));
            && Auto(ag, path, former) in snapshot
            && Finish(down, ps, snapshot, Pc([path], Idle), Db([Auto(ag, path, former)], 0)).rows
               == [Auto(ag, path, former), Desired(ps, path)]
  {
    var lost, stored := Auto(ag, path, gone), Auto(ag, path, former);
    var snapshot := [lost, stored];
    var ps := Pass(ag, files, Registered(snapshot));
    RegisteredTogether(ag, path, gone, former);
    NamesDiffer(ag, path, gone, former);
    NamesDiffer(ag, path, former, Checksum(ag, files, path));
    RemoveAlone(down, stored, lost.name, 0);
    FinishOne(down, ps, snapshot, path, Db([stored], 0));
    assert PodAgent.DeleteRun(down, ag.namespace, snapshot, Prefix(ag, path), Db([stored], 0)).0 == Db([stored], 1);
    assert [stored] + [Desired(ps, path)] == [stored, Desired(ps, path)];
  }

  /** A removal that fails on the database still lets the new checksum in: both stay. */
  lemma FailedRemovalLeavesTwo(down: nat -> bool, ag: Agent, files: Files, path: string, former: Digest)
    requires down(0) && !down(1) && !down(2) && ag.namespace != "" && path != ""
    requires former[..10] != Checksum(ag, files, path)[..10]
    ensures var stored := Auto(ag, path, former);
            var ps := Pass(ag, files, Registered([stored]));
            Finish(down, ps, [stored], Pc([path], Idle), Db([stored], 0)).rows == [stored, Desired(ps, path)]
  {
    var stored := Auto(ag, path, former);
    var ps := Pass(ag, files, Registered([stored]));
    var target := Desired(ps, path);
    RegisteredTogether(ag, path, former, former);
    assert [path][1..] == [];
    assert target.name[|Prefix(ag, path)|..] != stored.name[|Prefix(ag, path)|..];
    assert !Exists([stored], target.namespace, target.name);
    var db0 := Db([stored], 0);
    var db1 := Db([stored], 1);
    assert Remove(down, db0, ag.namespace, stored.name) == (db1, Error(Internal));
    FinishOne(down, ps, [stored], path, db0);
    assert PodAgent.DeleteRun(down, ag.namespace, [stored], Prefix(ag, path), db0).0 == db1;
    assert [stored] + [target] == [stored, target];
  }
}
