/** The configuration server: the constraint RPCs over an abstract constraint store. */
module ConfigServer {
  import opened Model
  import opened Seqs

  datatype Code = InvalidArgument | Internal | NotFound

  datatype Reply = Answer(success: bool) | Error(code: Code)

  /** The constraints stored, and how many database calls were made so far. Which calls fail is
      decided by a function `down` from call numbers; a failing call changes nothing. */
  datatype Db = Db(rows: seq<Constraint>, calls: nat)

  ghost predicate AlwaysUp(down: nat -> bool) {
    forall n :: !down(n)
  }

  predicate Named(c: Constraint, namespace: string, name: string) {
    c.namespace == namespace && c.name == name
  }

  predicate Exists(rows: seq<Constraint>, namespace: string, name: string) {
    exists i :: 0 <= i < |rows| && Named(rows[i], namespace, name)
  }

  /** The store deletes the first constraint it finds under a name. */
  function RemoveFirst(rows: seq<Constraint>, namespace: string, name: string): seq<Constraint> {
    if rows == [] then []
    else if Named(rows[0], namespace, name) then rows[1..]
    else [rows[0]] + RemoveFirst(rows[1..], namespace, name)
  }

  /** Does a constraint's selector lie within the requested labels? No requested labels means no
      filtering; otherwise a constraint without selector is left out. */
  predicate Selected(labels: seq<Label>, c: Constraint) {
    labels == [] || (c.matchLabels != [] && LabelTexts(c.matchLabels) <= LabelTexts(labels))
  }

  function Selecting(labels: seq<Label>): Constraint -> bool {
    (c: Constraint) => Selected(labels, c)
  }

  predicate Within(namespace: string, c: Constraint) {
    namespace == "" || c.namespace == namespace
  }

  function InNamespace(namespace: string): Constraint -> bool {
    (c: Constraint) => Within(namespace, c)
  }

  function Matches(namespace: string, labels: seq<Label>): Constraint -> bool {
    (c: Constraint) => Within(namespace, c) && Selected(labels, c)
  }

  function Matching(rows: seq<Constraint>, namespace: string, labels: seq<Label>): seq<Constraint> {
    Filter(Matches(namespace, labels), rows)
  }

  function Get(down: nat -> bool, db: Db, namespace: string, labels: seq<Label>): (Db, seq<Constraint>) {
    (db.(calls := db.calls + 1), if down(db.calls) then [] else Matching(db.rows, namespace, labels))
  }

  function Add(down: nat -> bool, db: Db, request: Option<Constraint>): (Db, Reply) {
    if request.None? || request.value.namespace == "" || request.value.name == "" then
      (db, Error(InvalidArgument))
    else if down(db.calls) then
      (db.(calls := db.calls + 1), Error(Internal))
    else if Exists(db.rows, request.value.namespace, request.value.name) then
      (db.(calls := db.calls + 1), Error(InvalidArgument))
    else if down(db.calls + 1) then
      (db.(calls := db.calls + 2), Answer(false))
    else
      (Db(db.rows + [request.value], db.calls + 2), Answer(true))
  }

  function Remove(down: nat -> bool, db: Db, namespace: string, name: string): (Db, Reply) {
    if namespace == "" || name == "" then
      (db, Error(InvalidArgument))
    else if down(db.calls) then
      (db.(calls := db.calls + 1), Error(Internal))
    else if !Exists(db.rows, namespace, name) then
      (db.(calls := db.calls + 1), Error(NotFound))
    else if down(db.calls + 1) then
      (db.(calls := db.calls + 2), Error(Internal))
    else
      (Db(RemoveFirst(db.rows, namespace, name), db.calls + 2), Answer(true))
  }

  /** The store interface; every method is one database call, which `down` may fail. */
  class ConstraintStore {
    const down: nat -> bool
    var rows: seq<Constraint>
    var calls: nat

    constructor (down: nat -> bool)
      ensures this.down == down && rows == [] && calls == 0
    {
      this.down := down;
      rows := [];
      calls := 0;
    }

    function State(): Db
      reads this
    {
      Db(rows, calls)
    }

    method NamespaceAndNameExist(namespace: string, name: string) returns (exist: bool, err: bool)
      modifies this`calls
      ensures calls == old(calls) + 1 && err == down(old(calls))
      ensures exist == (!err && Exists(rows, namespace, name))
    {
      err := down(calls);
      calls := calls + 1;
      exist := !err && Exists(rows, namespace, name);
    }

    method Add(c: Constraint) returns (err: bool)
      modifies this
      ensures calls == old(calls) + 1 && err == down(old(calls))
      ensures rows == if err then old(rows) else old(rows) + [c]
    {
      err := down(calls);
      calls := calls + 1;
      if !err {
        rows := rows + [c];
      }
    }

    method RemoveByNamespaceAndName(namespace: string, name: string) returns (err: bool)
      modifies this
      ensures calls == old(calls) + 1 && err == down(old(calls))
      ensures rows == if err then old(rows) else RemoveFirst(old(rows), namespace, name)
    {
      err := down(calls);
      calls := calls + 1;
      if !err {
        rows := RemoveFirst(rows, namespace, name);
      }
    }

    /** `GetAll` for the empty namespace, `FindByNamespace` otherwise. */
    method Find(namespace: string) returns (found: seq<Constraint>, err: bool)
      modifies this`calls
      ensures calls == old(calls) + 1 && err == down(old(calls))
      ensures found == if err then [] else Filter(InNamespace(namespace), rows)
    {
      err := down(calls);
      calls := calls + 1;
      found := if err then [] else Filter(InNamespace(namespace), rows);
    }
  }

  /** The label set of a request or a selector. */
  method LabelSet(labels: seq<Label>) returns (texts: set<string>)
    ensures texts == LabelTexts(labels)
  {
    texts := {};
    for i := 0 to |labels|
      invariant texts == LabelTexts(labels[..i])
    {
      texts := texts + {LabelText(labels[i])};
      assert labels[..i + 1] == labels[..i] + [labels[i]];
    }
    assert labels[..|labels|] == labels;
  }

  method FilterByLabels(constraints: seq<Constraint>, labels: seq<Label>) returns (matched: seq<Constraint>)
    ensures matched == Filter(Selecting(labels), constraints)
  {
    if labels == [] {
      FilterAll(Selecting(labels), constraints);
      return constraints;
    }
    matched := [];
    var requestLabels := LabelSet(labels);
    for j := 0 to |constraints|
      invariant matched == Filter(Selecting(labels), constraints[..j])
    {
      var c := constraints[j];
      FilterAppend(Selecting(labels), constraints[..j], [c]);
      assert constraints[..j + 1] == constraints[..j] + [c];
      if c.matchLabels == [] {
        continue;
      }
      var selectorLabels := LabelSet(c.matchLabels);
      if selectorLabels <= requestLabels {
        matched := matched + [c];
      }
    }
    assert constraints[..|constraints|] == constraints;
  }

  class Server {
    const store: ConstraintStore

    constructor (store: ConstraintStore)
      ensures this.store == store
    {
      this.store := store;
    }

    method GetConstraints(namespace: string, labels: seq<Label>) returns (matched: seq<Constraint>)
      modifies store
      ensures (store.State(), matched) == Get(store.down, old(store.State()), namespace, labels)
    {
      var constraints, _ := store.Find(namespace);
      matched := FilterByLabels(constraints, labels);
      FilterInTwoPasses(store.rows, namespace, labels);
    }

    method AddConstraint(request: Option<Constraint>) returns (reply: Reply)
      modifies store
      ensures (store.State(), reply) == Add(store.down, old(store.State()), request)
    {
      if request.None? || request.value.namespace == "" || request.value.name == "" {
        return Error(InvalidArgument);
      }
      var exist, err := store.NamespaceAndNameExist(request.value.namespace, request.value.name);
      if err {
        return Error(Internal);
      }
      if exist {
        return Error(InvalidArgument);
      }
      err := store.Add(request.value);
      if err {
        return Answer(false);
      }
      return Answer(true);
    }

    method RemoveConstraint(namespace: string, name: string) returns (reply: Reply)
      modifies store
      ensures (store.State(), reply) == Remove(store.down, old(store.State()), namespace, name)
    {
      if namespace == "" || name == "" {
        return Error(InvalidArgument);
      }
      var exist, err := store.NamespaceAndNameExist(namespace, name);
      if err {
        return Error(Internal);
      }
      if !exist {
        return Error(NotFound);
      }
      err := store.RemoveByNamespaceAndName(namespace, name);
      if err {
        return Error(Internal);
      }
      return Answer(true);
    }
  }

  /** Selecting the namespace in the store and the labels in the server is one filter. */
  lemma {:induction false} FilterInTwoPasses(rows: seq<Constraint>, namespace: string, labels: seq<Label>)
    ensures Filter(Selecting(labels), Filter(InNamespace(namespace), rows))
            == Matching(rows, namespace, labels)
  {
    if rows != [] {
      FilterInTwoPasses(rows[1..], namespace, labels);
      FilterAppend(Selecting(labels),
                   if InNamespace(namespace)(rows[0]) then [rows[0]] else [],
                   Filter(InNamespace(namespace), rows[1..]));
    }
  }

  /** Which constraints a Get answers: in order, those of the namespace - of all, if none is named - whose
      selector is not empty and has only labels with the text of a requested one, or all if no labels are
      requested. */
  lemma GetMeaning(down: nat -> bool, db: Db, namespace: string, labels: seq<Label>)
    ensures Get(down, db, namespace, labels).0.rows == db.rows
    ensures Get(down, db, namespace, labels).1
            == if down(db.calls) then []
               else Filter((c: Constraint) =>
                             && (namespace == "" || c.namespace == namespace)
                             && (labels == []
                                 || (c.matchLabels != []
                                     && forall l :: l in c.matchLabels ==>
                                          exists m :: m in labels && m.key + "=" + m.value == l.key + "=" + l.value)),
                           db.rows)
  {
    var spelled := (c: Constraint) =>
        && (namespace == "" || c.namespace == namespace)
        && (labels == []
            || (c.matchLabels != []
                && forall l :: l in c.matchLabels ==>
                     exists m :: m in labels && m.key + "=" + m.value == l.key + "=" + l.value));
    forall c: Constraint ensures Matches(namespace, labels)(c) == spelled(c) {
      TextsWithin(c.matchLabels, labels);
    }
    FilterAgree(Matches(namespace, labels), spelled, db.rows);
  }

  /** What an addition answers, and does to the store: it succeeds exactly if namespace and name are given
      and not taken and the database works, and else changes nothing. */
  lemma AdditionMeaning(down: nat -> bool, db: Db, request: Option<Constraint>)
    ensures var (after, reply) := Add(down, db, request);
            var complete := request.Some? && request.value.namespace != "" && request.value.name != "";
            var taken := request.Some?
              && exists c :: c in db.rows && c.namespace == request.value.namespace && c.name == request.value.name;
            && (reply == Answer(true) <==> complete && !taken && !down(db.calls) && !down(db.calls + 1))
            && (reply == Error(InvalidArgument) <==> !complete || (!down(db.calls) && taken))
            && (reply == Error(Internal) <==> complete && down(db.calls))
            && (reply == Answer(false) <==> complete && !taken && !down(db.calls) && down(db.calls + 1))
            && after.rows == db.rows + if reply == Answer(true) then [request.value] else []
  {
    if request.Some? {
      ExistsMeaning(db.rows, request.value.namespace, request.value.name);
    }
  }

  lemma ExistsMeaning(rows: seq<Constraint>, namespace: string, name: string)
    ensures Exists(rows, namespace, name) <==> exists c :: c in rows && c.namespace == namespace && c.name == name
  {
    if c :| c in rows && c.namespace == namespace && c.name == name {
      var i :| 0 <= i < |rows| && rows[i] == c;
      assert Named(rows[i], namespace, name);
    }
  }

  // ---- Store invariant over every run ----

  /** Names are complete, and no two constraints share namespace and name. */
  ghost predicate Keyed(rows: seq<Constraint>) {
    && (forall c :: c in rows ==> c.namespace != "" && c.name != "")
    && (forall i, j :: 0 <= i < j < |rows| ==> !Named(rows[i], rows[j].namespace, rows[j].name))
  }

  lemma {:induction false} RemoveFirstSplits(rows: seq<Constraint>, namespace: string, name: string)
    returns (i: nat)
    requires Exists(rows, namespace, name)
    ensures i < |rows| && Named(rows[i], namespace, name)
    ensures RemoveFirst(rows, namespace, name) == rows[..i] + rows[i + 1..]
  {
    if Named(rows[0], namespace, name) {
      i := 0;
    } else {
      assert Exists(rows[1..], namespace, name) by {
        var k :| 0 <= k < |rows| && Named(rows[k], namespace, name);
        assert Named(rows[1..][k - 1], namespace, name);
      }
      var k := RemoveFirstSplits(rows[1..], namespace, name);
      i := k + 1;
    }
  }

  lemma {:induction false} RemoveFirstMissing(rows: seq<Constraint>, namespace: string, name: string)
    requires !Exists(rows, namespace, name)
    ensures RemoveFirst(rows, namespace, name) == rows
  {
    if rows != [] {
      assert !Named(rows[0], namespace, name);
      forall k | 0 <= k < |rows[1..]| ensures !Named(rows[1..][k], namespace, name) {
        assert rows[1..][k] == rows[k + 1];
      }
      RemoveFirstMissing(rows[1..], namespace, name);
    }
  }

  /** Taking an element out of a keyed list leaves a keyed list without its name. */
  lemma WithoutOne(rows: seq<Constraint>, i: nat)
    requires Keyed(rows) && i < |rows|
    ensures var rest := rows[..i] + rows[i + 1..];
            && Keyed(rest)
            && (forall c :: c in rest <==> c in rows && !Named(c, rows[i].namespace, rows[i].name))
  {
    var rest := rows[..i] + rows[i + 1..];
    assert forall k :: 0 <= k < |rest| ==> rest[k] == if k < i then rows[k] else rows[k + 1];
    forall c | c in rows && !Named(c, rows[i].namespace, rows[i].name) ensures c in rest {
      var k :| 0 <= k < |rows| && rows[k] == c;
      assert c == if k < i then rest[k] else rest[k - 1];
    }
  }

  /** In a keyed store, removing a name takes out exactly the constraint of that name. */
  lemma RemoveFirstIsExact(rows: seq<Constraint>, namespace: string, name: string)
    requires Keyed(rows)
    ensures Keyed(RemoveFirst(rows, namespace, name))
    ensures !Exists(RemoveFirst(rows, namespace, name), namespace, name)
    ensures forall c :: c in RemoveFirst(rows, namespace, name) <==> c in rows && !Named(c, namespace, name)
  {
    if Exists(rows, namespace, name) {
      var i := RemoveFirstSplits(rows, namespace, name);
      WithoutOne(rows, i);
    } else {
      RemoveFirstMissing(rows, namespace, name);
    }
  }

  datatype Request =
    | AddRequest(constraint: Option<Constraint>)
    | RemoveRequest(namespace: string, name: string)
    | GetRequest(namespace: string, labels: seq<Label>)

  function Serve(down: nat -> bool, db: Db, request: Request): (Db, Reply) {
    match request
    case AddRequest(c) => Add(down, db, c)
    case RemoveRequest(namespace, name) => Remove(down, db, namespace, name)
    case GetRequest(namespace, labels) => (Get(down, db, namespace, labels).0, Answer(true))
  }

  function ServeAll(down: nat -> bool, db: Db, requests: seq<Request>): Db
    decreases |requests|
  {
    if requests == [] then db else ServeAll(down, Serve(down, db, requests[0]).0, requests[1..])
  }

  lemma ServeKeepsKeyed(down: nat -> bool, db: Db, request: Request)
    requires Keyed(db.rows)
    ensures Keyed(Serve(down, db, request).0.rows)
  {
    if request.RemoveRequest? {
      RemoveFirstIsExact(db.rows, request.namespace, request.name);
    }
  }

  lemma {:induction false} ServeAllKeepsKeyed(down: nat -> bool, db: Db, requests: seq<Request>)
    requires Keyed(db.rows)
    ensures Keyed(ServeAll(down, db, requests).rows)
    decreases |requests|
  {
    if requests != [] {
      ServeKeepsKeyed(down, db, requests[0]);
      ServeAllKeepsKeyed(down, Serve(down, db, requests[0]).0, requests[1..]);
    }
  }

  /** Over every sequence of calls, whatever database calls fail, every stored constraint has a namespace
      and a name and no two share both, if it was so before. */
  lemma EveryRunKeepsKeyed(down: nat -> bool, db: Db, requests: seq<Request>)
    requires forall c :: c in db.rows ==> c.namespace != "" && c.name != ""
    requires forall i, j :: 0 <= i < j < |db.rows| ==>
               db.rows[i].namespace != db.rows[j].namespace || db.rows[i].name != db.rows[j].name
    ensures var rows := ServeAll(down, db, requests).rows;
            && (forall c :: c in rows ==> c.namespace != "" && c.name != "")
            && (forall i, j :: 0 <= i < j < |rows| ==>
                  rows[i].namespace != rows[j].namespace || rows[i].name != rows[j].name)
  {
    ServeAllKeepsKeyed(down, db, requests);
    var rows := ServeAll(down, db, requests).rows;
    assert forall i, j :: 0 <= i < j < |rows| ==> !Named(rows[i], rows[j].namespace, rows[j].name);
  }

  /** What a removal answers and does to the store, after every run from the empty one: it succeeds exactly
      if namespace and name are given and found and the database works, and leaves exactly the constraints
      of other names; else it changes nothing. */
  lemma RemovedIsGone(down: nat -> bool, requests: seq<Request>, namespace: string, name: string)
    ensures var db := ServeAll(down, Db([], 0), requests);
            var (after, reply) := Remove(down, db, namespace, name);
            var found := exists c :: c in db.rows && c.namespace == namespace && c.name == name;
            && (reply == Answer(true) <==>
                  namespace != "" && name != "" && found && !down(db.calls) && !down(db.calls + 1))
            && (reply == Error(InvalidArgument) <==> namespace == "" || name == "")
            && (reply == Error(NotFound) <==> namespace != "" && name != "" && !down(db.calls) && !found)
            && (reply != Answer(true) ==> after.rows == db.rows && reply.Error?)
            && (reply == Answer(true) ==>
                  forall c :: c in after.rows <==> c in db.rows && (c.namespace != namespace || c.name != name))
  {
    ServeAllKeepsKeyed(down, Db([], 0), requests);
    var db := ServeAll(down, Db([], 0), requests);
    RemoveFirstIsExact(db.rows, namespace, name);
    ExistsMeaning(db.rows, namespace, name);
  }

  /** The next working Get whose namespace and labels fit returns an added constraint, behind what it
      returned before. */
  lemma AddedIsFound(down: nat -> bool, db: Db, c: Constraint, namespace: string, labels: seq<Label>)
    requires namespace == "" || c.namespace == namespace
    requires labels == []
             || (c.matchLabels != []
                 && forall l :: l in c.matchLabels ==>
                      exists m :: m in labels && m.key + "=" + m.value == l.key + "=" + l.value)
    requires Add(down, db, Some(c)).1 == Answer(true)
    requires var after := Add(down, db, Some(c)).0; !down(after.calls)
    ensures var after := Add(down, db, Some(c)).0;
            Get(down, after, namespace, labels).1 == Matching(db.rows, namespace, labels) + [c]
  {
    TextsWithin(c.matchLabels, labels);
    FilterAppend(Matches(namespace, labels), db.rows, [c]);
  }

  lemma {:induction false} RemoveFirstKeepsOthers(rows: seq<Constraint>, namespace: string, name: string)
    ensures forall c :: c in RemoveFirst(rows, namespace, name) ==> c in rows
    ensures forall c :: c in rows && !Named(c, namespace, name) ==> c in RemoveFirst(rows, namespace, name)
  {
    if rows != [] {
      RemoveFirstKeepsOthers(rows[1..], namespace, name);
      assert rows == [rows[0]] + rows[1..];
    }
  }

  /** A constraint stays stored as long as no call removes its name. */
  lemma {:induction false} UnremovedStays(down: nat -> bool, db: Db, requests: seq<Request>, c: Constraint)
    requires c in db.rows
    requires forall r :: r in requests && r.RemoveRequest? ==> !Named(c, r.namespace, r.name)
    ensures c in ServeAll(down, db, requests).rows
    decreases |requests|
  {
    if requests != [] {
      var r := requests[0];
      assert r in requests;
      if r.RemoveRequest? {
        RemoveFirstKeepsOthers(db.rows, r.namespace, r.name);
      }
      UnremovedStays(down, Serve(down, db, r).0, requests[1..], c);
    }
  }

  /** Removing what was just added gives back the store as it was. */
  lemma {:induction false} RemoveUndoesAdd(rows: seq<Constraint>, c: Constraint)
    requires !Exists(rows, c.namespace, c.name)
    ensures RemoveFirst(rows + [c], c.namespace, c.name) == rows
  {
    if rows == [] {
      assert rows + [c] == [c];
    } else {
      assert !Named(rows[0], c.namespace, c.name);
      assert (rows + [c])[1..] == rows[1..] + [c];
      forall k | 0 <= k < |rows[1..]| ensures !Named(rows[1..][k], c.namespace, c.name) {
        assert rows[1..][k] == rows[k + 1];
      }
      RemoveUndoesAdd(rows[1..], c);
    }
  }
}
