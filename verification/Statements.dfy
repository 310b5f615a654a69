/** INSERT, UPDATE and DELETE on one table: row by row, with roots that move, and one change event per row. */
module Statements {
  import opened Bytes
  import opened Storage
  import opened Shape
  import opened Contexts
  import opened Values
  import opened Rows
  import opened Tables
  import opened Exprs
  import opened Streams
  import opened Operators
  import opened Listings
  import opened Planner
  import opened RowSecurity

  datatype ChangeAction = Inserted | Updated | Deleted

  /** A row that was written.  The time stamp is not part of the model. */
  datatype ChangeEvent = ChangeEvent(table: string, action: ChangeAction, oldRow: Option<Row>, newRow: Option<Row>)

  datatype StatementError =
    | Exec(exec: ExecError)
    | Plan(plan: PlanError)
    | CannotUpdatePrimaryKey
    | PolicyViolation
    | ColumnCountMismatch(expected: nat, found: nat)
    | TableAlreadyExists(name: string)
    | IndexAlreadyExists(name: string)

  /** The number of rows written, the catalog's records with the new roots, and the events; or what stopped the
      statement, and the events of the rows it had written by then. */
  datatype StatementResult =
    | Modified(count: nat, schema: TableSchema, indexes: seq<IndexSchema>, events: seq<ChangeEvent>)
    | Aborted(error: StatementError, sofar: seq<ChangeEvent>)

  // ----- Events

  function KeyIn(schema: TableSchema, row: Row): Key {
    if SchemaOk(schema) && Keyed(schema, row) then RowKey(schema, row) else []
  }

  /** What a listener makes of one event. */
  function ApplyEvent(schema: TableSchema, rows: map<Key, Row>, e: ChangeEvent): map<Key, Row> {
    var without := if e.oldRow.Some? then rows - {KeyIn(schema, e.oldRow.value)} else rows;
    if e.newRow.Some? then without[KeyIn(schema, e.newRow.value) := e.newRow.value] else without
  }

  function Replay(schema: TableSchema, rows: map<Key, Row>, events: seq<ChangeEvent>): map<Key, Row> {
    if events == [] then rows
    else ApplyEvent(schema, Replay(schema, rows, events[..|events| - 1]), events[|events| - 1])
  }

  ghost predicate OnTable(table: string, events: seq<ChangeEvent>) {
    forall i :: 0 <= i < |events| ==> events[i].table == table
  }

  lemma ReplayNext(schema: TableSchema, rows: map<Key, Row>, events: seq<ChangeEvent>, e: ChangeEvent)
    ensures Replay(schema, rows, events + [e]) == ApplyEvent(schema, Replay(schema, rows, events), e)
  {
    assert (events + [e])[..|events|] == events;
  }

  // ----- The table while a statement runs

  /** The records `schema'` and `indexes'`, whose roots may have moved since, find the trees; nothing else in the store
      was touched. */
  ghost predicate Upright(m: map<PageNo, Page>, m': map<PageNo, Page>, schema: TableSchema, indexes: seq<IndexSchema>,
                          f: seq<Rooted>, schema': TableSchema, indexes': seq<IndexSchema>, f': seq<Rooted>) {
    && Grounded(m', schema', indexes', f')
    && Elsewhere(m, m', f, f') && |f'| == |f| && SameButRoots(schema, schema', indexes, indexes')
  }

  /** And the trees agree: they hold `rows'`. */
  ghost predicate Standing(m: map<PageNo, Page>, m': map<PageNo, Page>, schema: TableSchema, indexes: seq<IndexSchema>,
                           f: seq<Rooted>, schema': TableSchema, indexes': seq<IndexSchema>, f': seq<Rooted>,
                           rows': map<Key, Row>) {
    Upright(m, m', schema, indexes, f, schema', indexes', f') && Agree(schema', indexes', f', rows')
  }

  /** What a statement that was stopped left in the store: trees in order that hold `rows'`, and nothing else was
      touched.  The catalog is not told their roots. */
  ghost predicate Stranded(m: map<PageNo, Page>, m': map<PageNo, Page>, schema: TableSchema, indexes: seq<IndexSchema>,
                           f: seq<Rooted>, g: seq<Rooted>, rows': map<Key, Row>) {
    Planted(m', g) && Elsewhere(m, m', f, g) && |g| == |f| && Alike(schema, indexes, g, rows')
  }

  /** A node did not fit its page, or a row not any page. */
  predicate NoRoom(e: StatementError) {
    e.Exec? && e.exec.Store?
  }

  /** A page was too small. */
  predicate ForRoom(e: StatementError) {
    NoRoom(e) && !e.exec.error.DuplicateKey?
  }

  lemma StrandedStart(m: map<PageNo, Page>, schema: TableSchema, indexes: seq<IndexSchema>, f: seq<Rooted>,
                      rows: map<Key, Row>)
    requires Planted(m, f) && Agree(schema, indexes, f, rows)
    ensures Stranded(m, m, schema, indexes, f, f, rows)
  {
    hide Planted, Agree, Alike, InForest;
    AgreeAlike(schema, indexes, f, rows);
  }

  lemma StrandedThen(m: map<PageNo, Page>, m1: map<PageNo, Page>, m2: map<PageNo, Page>, schema: TableSchema,
                     indexes: seq<IndexSchema>, f: seq<Rooted>, schema1: TableSchema, indexes1: seq<IndexSchema>,
                     f1: seq<Rooted>, g: seq<Rooted>, rows': map<Key, Row>)
    requires Upright(m, m1, schema, indexes, f, schema1, indexes1, f1) && Elsewhere(m1, m2, f1, g)
    requires Planted(m2, g) && |g| == |f1| && Alike(schema1, indexes1, g, rows')
    ensures Stranded(m, m2, schema, indexes, f, g, rows')
  {
    hide Grounded, Elsewhere, Planted, Alike;
    ElsewhereThen(m, m1, m2, f, f1, g);
    AlikeMoved(schema, schema1, indexes, indexes1, g, rows');
  }

  lemma UprightStart(m: map<PageNo, Page>, schema: TableSchema, indexes: seq<IndexSchema>, f: seq<Rooted>,
                     rows: map<Key, Row>)
    requires Planted(m, f) && Agree(schema, indexes, f, rows) && DistinctNames(indexes)
    ensures Upright(m, m, schema, indexes, f, schema, indexes, f) && RowsOk(schema, rows) && SchemaOk(schema)
    ensures IndexesOk(schema, indexes) && |f| == 1 + |indexes| && SameDisciplines(f, f)
  {
    hide Planted, Agree, IndexOk;
    AgreeRooted(schema, indexes, f, rows);
  }

  lemma UprightThen(m: map<PageNo, Page>, m1: map<PageNo, Page>, m2: map<PageNo, Page>, schema: TableSchema,
                    indexes: seq<IndexSchema>, f: seq<Rooted>, schema1: TableSchema, indexes1: seq<IndexSchema>,
                    f1: seq<Rooted>, f2: seq<Rooted>, r: WriteResult)
    requires Upright(m, m1, schema, indexes, f, schema1, indexes1, f1)
    requires Moved(m1, m2, schema1, indexes1, f1, f2, r)
    ensures r.Written?
    ensures Upright(m, m2, schema, indexes, f, schema1.(rootPage := r.tableRoot), Repointed(indexes1, r.indexRoots), f2)
  {
    hide Grounded, Elsewhere, RootFor;
    ElsewhereThen(m, m1, m2, f, f1, f2);
  }

  lemma UprightFacts(m: map<PageNo, Page>, m': map<PageNo, Page>, schema: TableSchema, indexes: seq<IndexSchema>,
                     f: seq<Rooted>, schema': TableSchema, indexes': seq<IndexSchema>, f': seq<Rooted>)
    requires Upright(m, m', schema, indexes, f, schema', indexes', f')
    ensures Grounded(m', schema', indexes', f')
    ensures SchemaOk(schema') && schema'.columns == schema.columns && SameButRoots(schema, schema', indexes, indexes')
    ensures |f'| == 1 + |indexes'| == 1 + |indexes| && IndexesOk(schema', indexes')
    ensures forall row :: KeyIn(schema', row) == KeyIn(schema, row)
  {
    hide Planted, Elsewhere, CheckRow, EncodeKey, IndexOk;
  }

  // ----- Which rows a statement is about

  ghost function SelectedKeys(schema: TableSchema, rows: map<Key, Row>, where: Option<Expr>, who: Caller): set<Key> {
    set k | k in rows && Passes(where, schema.columns, rows[k], who)
  }

  function KeySet(keys: seq<Key>): set<Key> {
    set k | k in keys
  }

  lemma SelectedExactly(schema: TableSchema, table: Rooted, rows: map<Key, Row>, where: Option<Expr>, who: Caller,
      rs: seq<Row>, keys: seq<Key>)
    requires RowsOk(schema, rows) && forall k :: k in TableKeys(table) <==> k in rows
    requires rs == Wanted(schema, table, rows, where, who) && Listed(rs, keys, rows)
    ensures KeySet(keys) == SelectedKeys(schema, rows, where, who)
  {
    hide Rank, Truthy, TableKeys, RowKey, CheckRow, Increasing;
    var all := AllRows(table, rows);
    forall k ensures k in keys <==> k in SelectedKeys(schema, rows, where, who) {
      if k in keys {
        var i :| 0 <= i < |keys| && keys[i] == k;
        assert rs[i] == rows[k] && rs[i] in rs;
      }
      if k in SelectedKeys(schema, rows, where, who) {
        var j :| 0 <= j < |TableKeys(table)| && TableKeys(table)[j] == k;
        assert all[j] == rows[k] && all[j] in all;
        var i :| 0 <= i < |rs| && rs[i] == rows[k];
        assert RowKey(schema, rows[keys[i]]) == keys[i] && RowKey(schema, rows[k]) == k;
        assert keys[i] == k;
      }
    }
  }

  lemma {:induction false} KeyCount(keys: seq<Key>)
    requires Increasing(keys)
    ensures |KeySet(keys)| == |keys|
  {
    hide Rank;
    if keys != [] {
      KeyCount(keys[1..]);
      TailOf(keys, keys[0]);
      assert keys == [keys[0]] + keys[1..];
      assert KeySet(keys) == {keys[0]} + KeySet(keys[1..]);
    }
  }

  /** The selected keys, in order. */
  ghost predicate KeysOfClause(keys: seq<Key>, schema: TableSchema, rows: map<Key, Row>, where: Option<Expr>,
                               who: Caller) {
    Increasing(keys) && KeySet(keys) == SelectedKeys(schema, rows, where, who)
  }

  /** The rows that the plan for a clause finds; none that it reads makes it fail. */
  ghost predicate Finds(keys: seq<Key>, schema: TableSchema, indexes: seq<IndexSchema>, rows: map<Key, Row>,
                        where: Option<Expr>, who: Caller) {
    && RowsOk(schema, rows) && IndexesUsable(schema, indexes) && Increasing(keys)
    && var access, rest := AccessFor(schema, indexes, where), Remaining(schema, indexes, where);
       && ReadsAll(schema, indexes, rows, access, rest, who)
       && KeySet(keys) == KeysFound(schema, indexes, rows, access, rest, who)
  }

  /** The plan for a clause fails, on the first row that it cannot judge. */
  ghost predicate PlanFails(schema: TableSchema, indexes: seq<IndexSchema>, rows: map<Key, Row>, where: Option<Expr>,
                            who: Caller, e: PlanError) {
    && RowsOk(schema, rows) && IndexesUsable(schema, indexes)
    && FailsOn(schema, indexes, rows, AccessFor(schema, indexes, where), Remaining(schema, indexes, where), who, e)
  }

  /** The clause itself fails on a row that is read, and on none before it. */
  ghost predicate ClauseFails(schema: TableSchema, indexes: seq<IndexSchema>, rows: map<Key, Row>, where: Option<Expr>,
                              who: Caller, e: PlanError) {
    && RowsOk(schema, rows) && IndexesUsable(schema, indexes)
    && FailsOn(schema, indexes, rows, AccessFor(schema, indexes, where), where, who, e)
  }

  /** Where seeks find no other rows than they should, the plan finds the rows of the clause and fails as it does. */
  lemma FindsClause(schema: TableSchema, indexes: seq<IndexSchema>, rows: map<Key, Row>, where: Option<Expr>,
                    who: Caller)
    requires SchemaOk(schema) && SeeksTrue(schema, indexes, where)
    ensures forall keys :: Finds(keys, schema, indexes, rows, where, who) ==>
              KeysOfClause(keys, schema, rows, where, who)
    ensures forall e :: PlanFails(schema, indexes, rows, where, who, e) <==>
              ClauseFails(schema, indexes, rows, where, who, e)
  {
    if RowsOk(schema, rows) && IndexesUsable(schema, indexes) {
      FoundExactly(schema, indexes, rows, where, who);
      hide RowsOk, IndexesUsable, SeeksTrue, AccessFor, Remaining, ReadsAll, KeysFound, FailsOn, Increasing, KeySet,
        Truthy;
      assert (set k | k in rows && TruthyAt(schema, rows, where, who, k)) == SelectedKeys(schema, rows, where, who);
    }
  }

  lemma FailsOnce(schema: TableSchema, indexes: seq<IndexSchema>, rows: map<Key, Row>, access: Access,
                  clause: Option<Expr>, who: Caller, e: PlanError)
    requires RowsOk(schema, rows) && IndexesUsable(schema, indexes)
    requires FailsOn(schema, indexes, rows, access, clause, who, e)
    ensures !ReadsAll(schema, indexes, rows, access, clause, who)
    ensures forall e' :: FailsOn(schema, indexes, rows, access, clause, who, e') ==> e' == e
  {
    hide RowsOk, IndexesUsable, Eval, Read, Rank;
    var k :|
      && k in rows && Read(schema, indexes, rows, access, k)
      && clause.Some? && Eval(clause.value, schema.columns, rows[k], who) == Err(e)
      && forall k' :: k' in rows && Read(schema, indexes, rows, access, k') && Rank(k') < Rank(k) ==>
           EvaluatesAt(schema, rows, clause, who, k');
    assert !EvaluatesAt(schema, rows, clause, who, k);
    forall e' | FailsOn(schema, indexes, rows, access, clause, who, e') ensures e' == e {
      var j :|
        && j in rows && Read(schema, indexes, rows, access, j)
        && clause.Some? && Eval(clause.value, schema.columns, rows[j], who) == Err(e')
        && forall k' :: k' in rows && Read(schema, indexes, rows, access, k') && Rank(k') < Rank(j) ==>
             EvaluatesAt(schema, rows, clause, who, k');
      assert !EvaluatesAt(schema, rows, clause, who, j);
      assert Rank(j) == Rank(k);
      RankInjective(j, k);
    }
  }

  /** Rows that the plan finds, perhaps not all of them. */
  ghost predicate OnlyFound(keys: seq<Key>, schema: TableSchema, indexes: seq<IndexSchema>, rows: map<Key, Row>,
                            where: Option<Expr>, who: Caller) {
    && RowsOk(schema, rows) && IndexesUsable(schema, indexes)
    && var access, rest := AccessFor(schema, indexes, where), Remaining(schema, indexes, where);
       forall k :: k in keys ==> k in KeysFound(schema, indexes, rows, access, rest, who)
  }

  /** So every row that is read for a clause satisfies it, also when the plan fails in the end. */
  lemma FoundPass(schema: TableSchema, indexes: seq<IndexSchema>, rows: map<Key, Row>, where: Option<Expr>,
                  who: Caller, rs: seq<Row>, keys: seq<Key>)
    requires Listed(rs, keys, rows) && OnlyFound(keys, schema, indexes, rows, where, who)
    requires SeeksTrue(schema, indexes, where)
    ensures forall i :: 0 <= i < |rs| ==> Passes(where, schema.columns, rs[i], who)
  {
    FoundExactly(schema, indexes, rows, where, who);
    hide RowsOk, IndexesUsable, SeeksTrue, AccessFor, Remaining, KeysFound, Truthy, Increasing;
    forall i | 0 <= i < |rs| ensures Passes(where, schema.columns, rs[i], who) {
      assert keys[i] in keys && rs[i] == rows[keys[i]];
    }
  }

  /** A plan finds its rows, or fails with one error. */
  ghost predicate Answers(schema: TableSchema, indexes: seq<IndexSchema>, rows: map<Key, Row>, where: Option<Expr>,
                          who: Caller, error: Option<PlanError>, keys: seq<Key>) {
    && OnlyFound(keys, schema, indexes, rows, where, who)
    && (error.None? ==>
          && Finds(keys, schema, indexes, rows, where, who)
          && forall e :: !PlanFails(schema, indexes, rows, where, who, e))
    && (error.Some? ==>
          && PlanFails(schema, indexes, rows, where, who, error.value)
          && (forall e :: PlanFails(schema, indexes, rows, where, who, e) ==> e == error.value)
          && forall keys' :: !Finds(keys', schema, indexes, rows, where, who))
  }

  lemma YieldsAnswer(s: Stream, schema: TableSchema, indexes: seq<IndexSchema>, rows: map<Key, Row>,
                     where: Option<Expr>, who: Caller) returns (keys: seq<Key>)
    requires RowsOk(schema, rows) && IndexesUsable(schema, indexes)
    requires Yields(s, schema, indexes, rows, AccessFor(schema, indexes, where), Remaining(schema, indexes, where), who)
    ensures Listed(s.rows, keys, rows) && Answers(schema, indexes, rows, where, who, s.error, keys)
  {
    var access, rest := AccessFor(schema, indexes, where), Remaining(schema, indexes, where);
    hide *;
    keys := YieldsMeans(s, schema, indexes, rows, access, rest, who);
    ListedIncreasing(s.rows, keys, rows);
    if s.error.None? {
      AllFound(schema, indexes, rows, where, who, keys);
    } else {
      FirstFailed(schema, indexes, rows, where, who, keys, s.error.value);
    }
  }

  lemma ListedIncreasing(rs: seq<Row>, keys: seq<Key>, rows: map<Key, Row>)
    requires Listed(rs, keys, rows)
    ensures Increasing(keys)
  {
  }

  lemma AllFound(schema: TableSchema, indexes: seq<IndexSchema>, rows: map<Key, Row>, where: Option<Expr>, who: Caller,
                 keys: seq<Key>)
    requires RowsOk(schema, rows) && IndexesUsable(schema, indexes) && Increasing(keys)
    requires var access, rest := AccessFor(schema, indexes, where), Remaining(schema, indexes, where);
             && ReadsAll(schema, indexes, rows, access, rest, who)
             && forall k :: k in keys <==> k in KeysFound(schema, indexes, rows, access, rest, who)
    ensures Answers(schema, indexes, rows, where, who, None, keys)
  {
    var access, rest := AccessFor(schema, indexes, where), Remaining(schema, indexes, where);
    hide RowsOk, IndexesUsable, AccessFor, Remaining, ReadsAll, KeysFound, FailsOn, Increasing;
    forall e ensures !FailsOn(schema, indexes, rows, access, rest, who, e) {
      if FailsOn(schema, indexes, rows, access, rest, who, e) {
        FailsOnce(schema, indexes, rows, access, rest, who, e);
      }
    }
  }

  lemma FirstFailed(schema: TableSchema, indexes: seq<IndexSchema>, rows: map<Key, Row>, where: Option<Expr>,
                    who: Caller, keys: seq<Key>, e: PlanError)
    requires RowsOk(schema, rows) && IndexesUsable(schema, indexes)
    requires var access, rest := AccessFor(schema, indexes, where), Remaining(schema, indexes, where);
             && FailsOn(schema, indexes, rows, access, rest, who, e)
             && forall k :: k in keys ==> k in KeysFound(schema, indexes, rows, access, rest, who)
    ensures Answers(schema, indexes, rows, where, who, Some(e), keys)
  {
    var access, rest := AccessFor(schema, indexes, where), Remaining(schema, indexes, where);
    hide RowsOk, IndexesUsable, AccessFor, Remaining, ReadsAll, KeysFound, FailsOn, Increasing;
    FailsOnce(schema, indexes, rows, access, rest, who, e);
  }

  /** Plans the clause and reads every row before the first is written. */
  method SelectRows(pager: Pager, schema: TableSchema, indexes: seq<IndexSchema>, where: Option<Expr>, who: Caller,
                    ghost f: seq<Rooted>, ghost rows: map<Key, Row>)
    returns (rs: seq<Row>, error: Option<PlanError>, ghost keys: seq<Key>)
    requires pager.Valid() && Planted(pager.pages, f) && Agree(schema, indexes, f, rows)
    ensures Listed(rs, keys, rows) && |rs| == |keys|
    ensures forall k :: k in TableKeys(f[0]) ==> k in rows
    ensures SchemaOk(schema) && Answers(schema, indexes, rows, where, who, error, keys)
    ensures Plannable(schema, rows, where, who) ==>
              && error.None? && KeySet(keys) == SelectedKeys(schema, rows, where, who)
              && rs == Wanted(schema, f[0], rows, where, who)
  {
    hide Rank, Pager.Valid, Planted, Agree, Operator.Valid, Operator.Object, Operator.Repr, Operator.Rest, Listed,
      Plannable, Wanted, TableKeys, RowsOk, KeySet, SelectedKeys, Readable, Sound, TableIs, ModelOf, IndexesUsable,
      Yields, Answers, AccessFor, Remaining;
    TableAgrees(pager.pages, schema, indexes, f, rows);
    var plan := BuildSelectPlan(schema, indexes, where, who, f, rows, pager.pages);
    ghost var stream := plan.Rest();
    rs, error := Drain(plan, pager);
    keys := YieldsAnswer(stream, schema, indexes, rows, where, who);
    ListedLength(rs, keys, rows);
    if Plannable(schema, rows, where, who) {
      SelectedExactly(schema, f[0], rows, where, who, rs, keys);
    }
  }

  lemma ListedLength(rs: seq<Row>, keys: seq<Key>, rows: map<Key, Row>)
    requires Listed(rs, keys, rows)
    ensures |rs| == |keys|
  {
  }

  // ----- DELETE

  /** One event for each row, in the order of the keys. */
  ghost predicate DeleteEvents(table: string, rows: map<Key, Row>, keys: seq<Key>, events: seq<ChangeEvent>) {
    && |events| == |keys|
    && forall i :: 0 <= i < |keys| ==>
       keys[i] in rows && events[i] == ChangeEvent(table, Deleted, Some(rows[keys[i]]), None)
  }

  ghost predicate Deletes(schema: TableSchema, rows: map<Key, Row>, rows': map<Key, Row>, keys: seq<Key>,
                          events: seq<ChangeEvent>) {
    && rows' == rows - KeySet(keys) && rows' == Replay(schema, rows, events)
    && DeleteEvents(schema.name, rows, keys, events)
  }

  /** The rows that do not satisfy the clause. */
  ghost function AfterDelete(schema: TableSchema, rows: map<Key, Row>, where: Option<Expr>, who: Caller)
    : map<Key, Row>
  {
    map k | k in rows && !Passes(where, schema.columns, rows[k], who) :: rows[k]
  }

  method ExecuteDelete(pager: Pager, schema: TableSchema, indexes: seq<IndexSchema>, where: Option<Expr>, who: Caller,
                       ghost f: seq<Rooted>, ghost rows: map<Key, Row>)
    returns (r: StatementResult, ghost f': seq<Rooted>, ghost rows': map<Key, Row>, ghost keys: seq<Key>)
    requires pager.Valid() && Planted(pager.pages, f) && Agree(schema, indexes, f, rows) && DistinctNames(indexes)
    modifies pager
    ensures pager.Valid() && SchemaOk(schema)
    ensures r.Modified? ==>
              && Standing(old(pager.pages), pager.pages, schema, indexes, f, r.schema, r.indexes, f', rows')
              && rows' == Replay(schema, rows, r.events) && r.count == |r.events| && OnTable(schema.name, r.events)
              && DeleteEvents(schema.name, rows, keys, r.events) && SameDisciplines(f, f')
    ensures r.Modified? ==> Finds(keys, schema, indexes, rows, where, who)
    ensures r.Modified? && Selects(schema, indexes, rows, where, who) ==>
              && KeysOfClause(keys, schema, rows, where, who)
              && rows' == AfterDelete(schema, rows, where, who)
              && r.count == |SelectedKeys(schema, rows, where, who)|
    ensures AllFixed(f) && Plannable(schema, rows, where, who) ==> r.Modified?
    ensures forall e :: PlanFails(schema, indexes, rows, where, who, e) ==>
              r == Aborted(Plan(e), []) && pager.pages == old(pager.pages)
    ensures r.Aborted? && !NoRoom(r.error) ==>
              && r.error.Plan? && r.sofar == [] && !Plannable(schema, rows, where, who)
              && PlanFails(schema, indexes, rows, where, who, r.error.plan)
              && Stranded(old(pager.pages), pager.pages, schema, indexes, f, f', rows')
    ensures r.Aborted? ==> rows' == Replay(schema, rows, r.sofar) && (AllFixed(f) ==> !NoRoom(r.error))
    ensures r.Aborted? && NoRoom(r.error) ==>
              && DeleteStops(schema, rows, keys, r.error, r.sofar) && Finds(keys, schema, indexes, rows, where, who)
              && DeleteRanOut(old(pager.pages), schema, indexes, f, rows, keys, r.sofar)
              && (Selects(schema, indexes, rows, where, who) ==> KeysOfClause(keys, schema, rows, where, who))
  {
    UprightStart(pager.pages, schema, indexes, f, rows);
    StrandedStart(pager.pages, schema, indexes, f, rows);
    NotWrittenYet(schema, rows, [], PolicyViolation);
    hide *;
    f', rows' := f, rows;
    var rs, error, ks := SelectRows(pager, schema, indexes, where, who, f, rows);
    keys := ks;
    if error.Some? {
      NotWrittenYet(schema, rows, [], Plan(error.value));
      FailedToAnswer(schema, indexes, rows, where, who, error.value, keys);
      return Aborted(Plan(error.value), []), f, rows, keys;
    }
    Answered(schema, indexes, rows, where, who, keys);
    r, f', rows' := DeleteListed(pager, schema, indexes, rs, keys, f, rows);
    if r.Modified? {
      DeletesEnd(schema, rows, rows', rs, keys, r.events, where, who);
    } else if Selects(schema, indexes, rows, where, who) {
      ListedKeys(rs, keys, rows, schema, where, who);
    }
  }

  /** The plan, if it finds rows, finds those of the clause. */
  ghost predicate Selects(schema: TableSchema, indexes: seq<IndexSchema>, rows: map<Key, Row>, where: Option<Expr>,
                          who: Caller)
    requires SchemaOk(schema)
  {
    Plannable(schema, rows, where, who) || SeeksTrue(schema, indexes, where)
  }

  lemma Answered(schema: TableSchema, indexes: seq<IndexSchema>, rows: map<Key, Row>, where: Option<Expr>, who: Caller,
                 keys: seq<Key>)
    requires SchemaOk(schema) && Answers(schema, indexes, rows, where, who, None, keys)
    requires Plannable(schema, rows, where, who) ==> KeySet(keys) == SelectedKeys(schema, rows, where, who)
    ensures Finds(keys, schema, indexes, rows, where, who)
    ensures forall e :: !PlanFails(schema, indexes, rows, where, who, e)
    ensures Selects(schema, indexes, rows, where, who) ==> KeySet(keys) == SelectedKeys(schema, rows, where, who)
  {
    hide Finds, PlanFails, OnlyFound, Plannable, KeySet, SelectedKeys, SeeksTrue;
    if SeeksTrue(schema, indexes, where) {
      FindsClause(schema, indexes, rows, where, who);
    }
  }

  lemma FailedToAnswer(schema: TableSchema, indexes: seq<IndexSchema>, rows: map<Key, Row>, where: Option<Expr>,
                       who: Caller, e: PlanError, keys: seq<Key>)
    requires Answers(schema, indexes, rows, where, who, Some(e), keys)
    ensures PlanFails(schema, indexes, rows, where, who, e)
    ensures forall e' :: PlanFails(schema, indexes, rows, where, who, e') ==> e' == e
  {
    hide Finds, PlanFails, OnlyFound;
  }

  /** The rows before were deleted, with an event each, and then there was no room for what a deletion needs. */
  ghost predicate DeleteStops(schema: TableSchema, rows: map<Key, Row>, keys: seq<Key>, e: StatementError,
                              sofar: seq<ChangeEvent>) {
    e == Exec(Store(PageOverflow)) && |sofar| < |keys| && DeleteEvents(schema.name, rows, keys[..|sofar|], sofar)
  }

  /** With the rows before it gone, one of the trees could not give up the next one. */
  ghost predicate DeleteRanOut(m0: map<PageNo, Page>, schema: TableSchema, indexes: seq<IndexSchema>, f: seq<Rooted>,
                               rows: map<Key, Row>, keys: seq<Key>, sofar: seq<ChangeEvent>) {
    && |sofar| < |keys| && keys[|sofar|] in rows
    && exists m, schema', indexes', f' ::
         && Standing(m0, m, schema, indexes, f, schema', indexes', f', Replay(schema, rows, sofar))
         && SomeStuck(schema', indexes', rows[keys[|sofar|]], f')
  }

  /** The loop of a DELETE. */
  method DeleteListed(pager: Pager, schema: TableSchema, indexes: seq<IndexSchema>, rs: seq<Row>, ghost keys: seq<Key>,
                      ghost f: seq<Rooted>, ghost rows: map<Key, Row>)
    returns (r: StatementResult, ghost f': seq<Rooted>, ghost rows': map<Key, Row>)
    requires pager.Valid() && Planted(pager.pages, f) && Agree(schema, indexes, f, rows) && DistinctNames(indexes)
    requires Listed(rs, keys, rows) && |rs| == |keys|
    modifies pager
    ensures pager.Valid()
    ensures r.Modified? ==>
              && Standing(old(pager.pages), pager.pages, schema, indexes, f, r.schema, r.indexes, f', rows')
              && Deletes(schema, rows, rows', keys, r.events) && r.count == |keys| && SameDisciplines(f, f')
    ensures AllFixed(f) ==> r.Modified?
    ensures r.Aborted? ==>
              && NoRoom(r.error) && DeleteStops(schema, rows, keys, r.error, r.sofar)
              && rows' == Replay(schema, rows, r.sofar)
              && DeleteRanOut(old(pager.pages), schema, indexes, f, rows, keys, r.sofar)
  {
    ghost var m0 := pager.pages;
    DeletesStart(m0, schema, indexes, f, rows, keys);
    hide *;
    f', rows' := f, rows;
    var schema', indexes', events := schema, indexes, [];
    var j := 0;
    while j < |rs|
      invariant 0 <= j <= |rs| && pager.Valid()
      invariant Deleting(m0, pager.pages, schema, indexes, f, schema', indexes', f', rows, rows', keys, j, events)
    {
      DeleteNext(m0, pager.pages, schema, indexes, f, schema', indexes', f', rows, rows', rs, keys, j, events);
      ghost var m1 := pager.pages;
      var w, g := DeleteRow(pager, schema', indexes', rs[j], f');
      if w.Rejected? {
        DeleteHalts(m0, m1, schema, indexes, f, schema', indexes', f', rows, rows', rs, keys, j, events);
        return Aborted(Exec(w.error), events), g, rows';
      }
      DeleteDone(m0, m1, pager.pages, schema, indexes, f, schema', indexes', f', rows, rows', rs, keys, j, events, w,
          g);
      schema' := schema'.(rootPage := w.tableRoot);
      indexes' := Repointed(indexes', w.indexRoots);
      events := events + [ChangeEvent(schema.name, Deleted, Some(rs[j]), None)];
      f', rows' := g, rows' - {keys[j]};
      j := j + 1;
    }
    DeletesFinished(m0, pager.pages, schema, indexes, f, schema', indexes', f', rows, rows', keys, j, events);
    r := Modified(j, schema', indexes', events);
  }

  lemma DeleteHalts(m: map<PageNo, Page>, m': map<PageNo, Page>, schema: TableSchema, indexes: seq<IndexSchema>,
                    f: seq<Rooted>, schema': TableSchema, indexes': seq<IndexSchema>, f': seq<Rooted>,
                    rows: map<Key, Row>, rows': map<Key, Row>, rs: seq<Row>, keys: seq<Key>, j: nat,
                    events: seq<ChangeEvent>)
    requires Deleting(m, m', schema, indexes, f, schema', indexes', f', rows, rows', keys, j, events) && j < |keys|
    requires Listed(rs, keys, rows) && |rs| == |keys| && SomeStuck(schema', indexes', rs[j], f')
    ensures DeleteRanOut(m, schema, indexes, f, rows, keys, events)
    ensures NoRoom(Exec(Store(PageOverflow))) && DeleteStops(schema, rows, keys, Exec(Store(PageOverflow)), events)
    ensures rows' == Replay(schema, rows, events)
  {
    hide Standing, RowsOk, SameDisciplines, Replay, KeySet, SomeStuck;
  }

  /** How far a DELETE has come. */
  ghost predicate Deleting(m: map<PageNo, Page>, m': map<PageNo, Page>, schema: TableSchema, indexes: seq<IndexSchema>,
                           f: seq<Rooted>, schema': TableSchema, indexes': seq<IndexSchema>, f': seq<Rooted>,
                           rows: map<Key, Row>, rows': map<Key, Row>, keys: seq<Key>, j: nat,
                           events: seq<ChangeEvent>) {
    && RowsOk(schema, rows) && j <= |keys| && SameDisciplines(f, f')
    && Standing(m, m', schema, indexes, f, schema', indexes', f', rows')
    && Deletes(schema, rows, rows', keys[..j], events)
  }

  lemma DeletesStart(m: map<PageNo, Page>, schema: TableSchema, indexes: seq<IndexSchema>, f: seq<Rooted>,
                     rows: map<Key, Row>, keys: seq<Key>)
    requires Planted(m, f) && Agree(schema, indexes, f, rows) && DistinctNames(indexes)
    ensures Deleting(m, m, schema, indexes, f, schema, indexes, f, rows, rows, keys, 0, [])
  {
    hide Planted, Agree, RowsOk;
    UprightStart(m, schema, indexes, f, rows);
    assert rows - KeySet(keys[..0]) == rows;
  }

  lemma DeletesFinished(m: map<PageNo, Page>, m': map<PageNo, Page>, schema: TableSchema, indexes: seq<IndexSchema>,
                        f: seq<Rooted>, schema': TableSchema, indexes': seq<IndexSchema>, f': seq<Rooted>,
                        rows: map<Key, Row>, rows': map<Key, Row>, keys: seq<Key>, j: nat, events: seq<ChangeEvent>)
    requires Deleting(m, m', schema, indexes, f, schema', indexes', f', rows, rows', keys, j, events) && j == |keys|
    ensures Standing(m, m', schema, indexes, f, schema', indexes', f', rows') && SameDisciplines(f, f')
    ensures Deletes(schema, rows, rows', keys, events)
  {
    hide Standing, Deletes, RowsOk, SameDisciplines;
    assert keys[..j] == keys;
  }

  lemma ListedRow(schema: TableSchema, rows: map<Key, Row>, rs: seq<Row>, keys: seq<Key>, j: nat)
    requires RowsOk(schema, rows) && Listed(rs, keys, rows) && j < |rs|
    ensures SchemaOk(schema) && |keys| == |rs| && keys[j] in rows && rows[keys[j]] == rs[j]
    ensures RowOk(schema, rs[j]) && RowKey(schema, rs[j]) == keys[j]
    ensures keys[j] !in keys[..j] && KeySet(keys[..j + 1]) == KeySet(keys[..j]) + {keys[j]}
  {
    hide Rank, CheckRow, RowKey;
    assert keys[..j + 1] == keys[..j] + [keys[j]];
    forall i | 0 <= i < j ensures keys[i] != keys[j] {
      assert Rank(keys[i]) < Rank(keys[j]);
    }
  }

  lemma DeleteNext(m: map<PageNo, Page>, m': map<PageNo, Page>, schema: TableSchema, indexes: seq<IndexSchema>,
                   f: seq<Rooted>, schema': TableSchema, indexes': seq<IndexSchema>, f': seq<Rooted>,
                   rows: map<Key, Row>, rows': map<Key, Row>, rs: seq<Row>, keys: seq<Key>, j: nat,
                   events: seq<ChangeEvent>)
    requires Listed(rs, keys, rows) && j < |rs| == |keys|
    requires Deleting(m, m', schema, indexes, f, schema', indexes', f', rows, rows', keys, j, events)
    ensures Grounded(m', schema', indexes', f')
    ensures Keyed(schema', rs[j]) && (AllFixed(f) ==> AllFixed(f'))
  {
    hide Rank, Planted, Agree, CheckRow, EncodeKey, RowsOk, Listed, KeySet, Deletes;
    UprightFacts(m, m', schema, indexes, f, schema', indexes', f');
    ListedRow(schema, rows, rs, keys, j);
  }

  lemma DeleteDone(m: map<PageNo, Page>, m1: map<PageNo, Page>, m2: map<PageNo, Page>, schema: TableSchema,
                   indexes: seq<IndexSchema>, f: seq<Rooted>, schema': TableSchema, indexes': seq<IndexSchema>,
                   f': seq<Rooted>, rows: map<Key, Row>, rows': map<Key, Row>, rs: seq<Row>, keys: seq<Key>, j: nat,
                   events: seq<ChangeEvent>, w: WriteResult, g: seq<Rooted>)
    requires Listed(rs, keys, rows) && j < |rs| == |keys|
    requires Deleting(m, m1, schema, indexes, f, schema', indexes', f', rows, rows', keys, j, events)
    requires Moved(m1, m2, schema', indexes', f', g, w) && w.Written? && Fitting(schema', indexes', rs[j], f')
    requires TakenFrom(schema', indexes', rs[j], f', g, |f'|)
    ensures Deleting(m, m2, schema, indexes, f, schema'.(rootPage := w.tableRoot), Repointed(indexes', w.indexRoots), g,
                     rows, rows' - {keys[j]}, keys, j + 1,
                     events + [ChangeEvent(schema.name, Deleted, Some(rs[j]), None)])
  {
    hide Rank, Planted, Agree, CheckRow, EncodeKey, RowsOk, Listed, KeySet, Upright, Moved, TakenFrom, Deletes, Fitting;
    UprightFacts(m, m1, schema, indexes, f, schema', indexes', f');
    ListedRow(schema, rows, rs, keys, j);
    RowMoved(schema, schema', rs[j]);
    DeletesNext(schema, rows, rows', rs, keys, j, events);
    DeleteAgrees(m1, m2, schema', indexes', f', g, w, rs[j], rows');
    UprightThen(m, m1, m2, schema, indexes, f, schema', indexes', f', g, w);
    TakenSame(schema', indexes', rs[j], f', g);
  }

  lemma RowMoved(schema: TableSchema, schema': TableSchema, row: Row)
    requires SchemaOk(schema) && schema'.columns == schema.columns && RowOk(schema, row)
    ensures SchemaOk(schema') && RowOk(schema', row) && RowKey(schema', row) == RowKey(schema, row)
  {
    hide EncodeKey, CheckRow;
  }

  lemma DeletesNext(schema: TableSchema, rows: map<Key, Row>, rows': map<Key, Row>, rs: seq<Row>, keys: seq<Key>,
                    j: nat, events: seq<ChangeEvent>)
    requires RowsOk(schema, rows) && Listed(rs, keys, rows) && j < |rs| == |keys|
    requires Deletes(schema, rows, rows', keys[..j], events)
    ensures keys[j] in rows' && rows'[keys[j]] == rs[j]
    ensures Deletes(schema, rows, rows' - {keys[j]}, keys[..j + 1],
            events + [ChangeEvent(schema.name, Deleted, Some(rs[j]), None)])
  {
    hide Rank, CheckRow, EncodeKey, RowsOk, Listed, KeySet;
    ListedRow(schema, rows, rs, keys, j);
    KeySetMeans(keys[..j], keys[j]);
    assert KeyIn(schema, rs[j]) == keys[j];
    assert keys[..j + 1] == keys[..j] + [keys[j]];
    ReplayNext(schema, rows, events, ChangeEvent(schema.name, Deleted, Some(rs[j]), None));
    assert rows - KeySet(keys[..j + 1]) == rows' - {keys[j]};
  }

  lemma KeySetMeans(keys: seq<Key>, k: Key)
    ensures k in KeySet(keys) <==> k in keys
  {
  }

  lemma DeletesEnd(schema: TableSchema, rows: map<Key, Row>, rows': map<Key, Row>, rs: seq<Row>, keys: seq<Key>,
                   events: seq<ChangeEvent>, where: Option<Expr>, who: Caller)
    requires Listed(rs, keys, rows) && Deletes(schema, rows, rows', keys, events)
    ensures rows' == Replay(schema, rows, events) && |keys| == |events| && OnTable(schema.name, events)
    ensures DeleteEvents(schema.name, rows, keys, events)
    ensures KeySet(keys) == SelectedKeys(schema, rows, where, who) ==>
              && KeysOfClause(keys, schema, rows, where, who)
              && rows' == AfterDelete(schema, rows, where, who)
              && |keys| == |SelectedKeys(schema, rows, where, who)|
  {
    hide Rank, Truthy, Replay;
    KeyCount(keys);
  }

  // ----- UPDATE

  datatype Assigning = NewRow(row: Row) | Erred(error: PlanError)

  /** The assignments from the first to the last, each evaluated on the old row. */
  function Assign(before: Row, targets: seq<(nat, Expr)>, columns: seq<Column>, who: Caller): (r: Assigning)
    requires forall i :: 0 <= i < |targets| ==> targets[i].0 < |before|
    ensures r.NewRow? ==> |r.row| == |before|
    decreases |targets|
  {
    if targets == [] then NewRow(before) else
      var sofar := Assign(before, targets[..|targets| - 1], columns, who);
      var (c, e) := targets[|targets| - 1];
      if sofar.Erred? then sofar else
        var v := Eval(e, columns, before, who);
        if v.Err? then Erred(v.e) else NewRow(sofar.row[c := v.v])
  }

  /** The last assignment to a column. */
  function LastTo(targets: seq<(nat, Expr)>, c: nat): Option<Expr> {
    if targets == [] then None
    else if targets[|targets| - 1].0 == c then Some(targets[|targets| - 1].1)
    else LastTo(targets[..|targets| - 1], c)
  }

  /** Assignments are simultaneous: every column gets the value, on the old row, of the last assignment to it. */
  lemma {:induction false} AssignMeans(before: Row, targets: seq<(nat, Expr)>, columns: seq<Column>, who: Caller)
    requires forall i :: 0 <= i < |targets| ==> targets[i].0 < |before|
    ensures var r := Assign(before, targets, columns, who);
            r.NewRow? ==>
              forall c :: 0 <= c < |before| ==>
                var e := LastTo(targets, c);
                if e.None? then r.row[c] == before[c] else Eval(e.value, columns, before, who) == Val(r.row[c])
    decreases |targets|
  {
    if targets != [] {
      AssignMeans(before, targets[..|targets| - 1], columns, who);
    }
  }

  lemma {:induction false} NotAssigned(targets: seq<(nat, Expr)>, c: nat)
    requires forall i :: 0 <= i < |targets| ==> targets[i].0 != c
    ensures LastTo(targets, c) == None
    decreases |targets|
  {
    if targets != [] {
      NotAssigned(targets[..|targets| - 1], c);
    }
  }

  /** Assignments to existing columns other than the primary key. */
  predicate TargetsOk(schema: TableSchema, targets: seq<(nat, Expr)>)
    requires SchemaOk(schema)
  {
    forall i :: 0 <= i < |targets| ==> targets[i].0 < |schema.columns| && targets[i].0 != PrimaryKeyIndex(schema)
  }

  /** Why a column cannot be assigned to. */
  function NameError(schema: TableSchema, name: string): Option<StatementError> {
    var c := FindColumn(schema.columns, name);
    if c == |schema.columns| then Some(Plan(NoSuchColumn(name)))
    else if schema.columns[c].isPrimaryKey then Some(CannotUpdatePrimaryKey)
    else None
  }

  /** The first assignments, to columns that may be assigned to. */
  predicate AssignedFirst(schema: TableSchema, assignments: seq<(string, Expr)>, targets: seq<(nat, Expr)>) {
    && |targets| <= |assignments|
    && forall i :: 0 <= i < |targets| ==>
         && NameError(schema, assignments[i].0) == None
         && targets[i] == (FindColumn(schema.columns, assignments[i].0), assignments[i].1)
  }

  lemma AssignedOk(schema: TableSchema, assignments: seq<(string, Expr)>, targets: seq<(nat, Expr)>)
    requires SchemaOk(schema) && AssignedFirst(schema, assignments, targets)
    ensures TargetsOk(schema, targets)
    ensures forall i :: 0 <= i < |targets| ==>
            targets[i] == (FindColumn(schema.columns, assignments[i].0), assignments[i].1)
  {
    forall i | 0 <= i < |targets| ensures targets[i].0 < |schema.columns| && targets[i].0 != PrimaryKeyIndex(schema) {
      assert NameError(schema, assignments[i].0) == None;
    }
  }

  method ResolveAssignments(schema: TableSchema, assignments: seq<(string, Expr)>)
    returns (error: Option<StatementError>, targets: seq<(nat, Expr)>)
    requires SchemaOk(schema)
    ensures AssignedFirst(schema, assignments, targets) && TargetsOk(schema, targets)
    ensures error.None? ==> |targets| == |assignments|
    ensures error.Some? ==> |targets| < |assignments| && NameError(schema, assignments[|targets|].0) == error
  {
    hide SchemaOk, TargetsOk;
    targets := [];
    var i := 0;
    while i < |assignments|
      invariant 0 <= i <= |assignments| && |targets| == i && AssignedFirst(schema, assignments, targets)
    {
      var (name, expr) := assignments[i];
      var c := FindColumn(schema.columns, name);
      if c == |schema.columns| {
        AssignedOk(schema, assignments, targets);
        return Some(Plan(NoSuchColumn(name))), targets;
      }
      if schema.columns[c].isPrimaryKey {
        AssignedOk(schema, assignments, targets);
        return Some(CannotUpdatePrimaryKey), targets;
      }
      targets := targets + [(c, expr)];
      i := i + 1;
    }
    AssignedOk(schema, assignments, targets);
    error := None;
  }

  method EvaluateAssignments(before: Row, targets: seq<(nat, Expr)>, columns: seq<Column>, who: Caller)
    returns (r: Assigning)
    requires forall i :: 0 <= i < |targets| ==> targets[i].0 < |before|
    ensures r == Assign(before, targets, columns, who)
  {
    hide Eval;
    var row := before;
    var i := 0;
    while i < |targets|
      invariant 0 <= i <= |targets| && Assign(before, targets[..i], columns, who) == NewRow(row)
    {
      assert targets[..i + 1][..i] == targets[..i];
      var v := Eval(targets[i].1, columns, before, who);
      if v.Err? {
        ErrorStays(before, targets, i + 1, columns, who, v.e);
        return Erred(v.e);
      }
      row := row[targets[i].0 := v.v];
      i := i + 1;
    }
    assert targets[..i] == targets;
    return NewRow(row);
  }

  lemma {:induction false} ErrorStays(before: Row, targets: seq<(nat, Expr)>, i: nat, columns: seq<Column>, who: Caller,
                                      e: PlanError)
    requires forall i :: 0 <= i < |targets| ==> targets[i].0 < |before|
    requires i <= |targets| && Assign(before, targets[..i], columns, who) == Erred(e)
    ensures Assign(before, targets, columns, who) == Erred(e)
    decreases |targets| - i
  {
    hide Eval;
    if i < |targets| {
      assert targets[..i + 1][..i] == targets[..i];
      ErrorStays(before, targets, i + 1, columns, who, e);
    } else {
      assert targets[..i] == targets;
    }
  }

  /** The row after the assignments; a row on which they fail stays. */
  function Reassigned(schema: TableSchema, row: Row, targets: seq<(nat, Expr)>, who: Caller): Row
    requires SchemaOk(schema) && RowOk(schema, row) && TargetsOk(schema, targets)
  {
    var r := Assign(row, targets, schema.columns, who);
    if r.NewRow? then r.row else row
  }

  lemma KeyKept(schema: TableSchema, row: Row, targets: seq<(nat, Expr)>, who: Caller)
    requires SchemaOk(schema) && Keyed(schema, row) && TargetsOk(schema, targets)
    requires Assign(row, targets, schema.columns, who).NewRow?
    ensures var row' := Assign(row, targets, schema.columns, who).row;
            |row'| == |row| && (Keyed(schema, row') ==> RowKey(schema, row') == RowKey(schema, row))
  {
    hide Eval, EncodeKey, CheckRow;
    AssignMeans(row, targets, schema.columns, who);
    NotAssigned(targets, PrimaryKeyIndex(schema));
  }

  /** A row the statement may touch: when the plan is known to be right, one that satisfies the clause. */
  ghost predicate Touched(schema: TableSchema, rows: map<Key, Row>, where: Option<Expr>, who: Caller, k: Key)
    requires SchemaOk(schema)
  {
    k in rows && (Plannable(schema, rows, where, who) ==> Passes(where, schema.columns, rows[k], who))
  }

  /** The values assigned to a row have the types of their columns, which the engine does not check. */
  ghost predicate SaneOn(schema: TableSchema, row: Row, targets: seq<(nat, Expr)>, who: Caller)
    requires SchemaOk(schema) && RowOk(schema, row) && TargetsOk(schema, targets)
  {
    Sane(schema, Reassigned(schema, row, targets, who))
  }

  ghost predicate SaneUpdate(schema: TableSchema, rows: map<Key, Row>, targets: seq<(nat, Expr)>, where: Option<Expr>,
                             who: Caller)
    requires RowsOk(schema, rows) && TargetsOk(schema, targets)
  {
    forall k :: Touched(schema, rows, where, who, k) ==> SaneOn(schema, rows[k], targets, who)
  }

  /** The new rows are of the widths that the trees are kept to. */
  ghost predicate FittingUpdate(schema: TableSchema, indexes: seq<IndexSchema>, f: seq<Rooted>, rows: map<Key, Row>,
                                targets: seq<(nat, Expr)>, where: Option<Expr>, who: Caller)
    requires RowsOk(schema, rows) && TargetsOk(schema, targets)
  {
    forall k :: Touched(schema, rows, where, who, k) ==>
      Accepts(schema, indexes, f, Reassigned(schema, rows[k], targets, who))
  }

  /** The rows that satisfy the clause have given way to their assignments; the others stay. */
  ghost function AfterUpdate(schema: TableSchema, rows: map<Key, Row>, where: Option<Expr>, targets: seq<(nat, Expr)>,
                             who: Caller): map<Key, Row>
    requires RowsOk(schema, rows) && TargetsOk(schema, targets)
  {
    map k | k in rows ::
      if Passes(where, schema.columns, rows[k], who) then Reassigned(schema, rows[k], targets, who) else rows[k]
  }

  /** One event for each row, in the order of the keys; nothing was wrong with these rows. */
  ghost predicate UpdateEvents(schema: TableSchema, rows: map<Key, Row>, keys: seq<Key>, targets: seq<(nat, Expr)>,
                               who: Caller, events: seq<ChangeEvent>)
    requires RowsOk(schema, rows) && TargetsOk(schema, targets)
  {
    && |events| == |keys|
    && forall i :: 0 <= i < |keys| ==>
         && keys[i] in rows && UpdateError(schema, rows[keys[i]], targets, who) == None
         && events[i] == ChangeEvent(schema.name, Updated, Some(rows[keys[i]]),
                                     Some(Reassigned(schema, rows[keys[i]], targets, who)))
  }

  ghost predicate Updates(schema: TableSchema, rows: map<Key, Row>, rows': map<Key, Row>, keys: seq<Key>,
                          targets: seq<(nat, Expr)>, who: Caller, events: seq<ChangeEvent>)
    requires RowsOk(schema, rows) && TargetsOk(schema, targets)
  {
    && rows' == (map k | k in rows :: if k in keys then Reassigned(schema, rows[k], targets, who) else rows[k])
    && rows' == Replay(schema, rows, events) && UpdateEvents(schema, rows, keys, targets, who, events)
  }

  /** What an UPDATE has done, once its columns are known: to exactly the rows that satisfy the clause, or to those
      before the one at which it stopped. */
  ghost predicate UpdateResult(m: map<PageNo, Page>, m': map<PageNo, Page>, schema: TableSchema,
                               indexes: seq<IndexSchema>, f: seq<Rooted>, rows: map<Key, Row>, f': seq<Rooted>,
                               rows': map<Key, Row>, keys: seq<Key>, targets: seq<(nat, Expr)>, where: Option<Expr>,
                               who: Caller, r: StatementResult)
    requires RowsOk(schema, rows) && TargetsOk(schema, targets)
  {
    && (forall e :: PlanFails(schema, indexes, rows, where, who, e) ==> r == Aborted(Plan(e), []) && m' == m)
    && (Finds(keys, schema, indexes, rows, where, who) && Selects(schema, indexes, rows, where, who) ==>
          KeysOfClause(keys, schema, rows, where, who))
    && match r
    case Modified(count, schema', indexes', events) =>
      && Upright(m, m', schema, indexes, f, schema', indexes', f')
      && Finds(keys, schema, indexes, rows, where, who)
      && rows' == Replay(schema, rows, events) && count == |events| && OnTable(schema.name, events)
      && UpdateEvents(schema, rows, keys, targets, who, events)
      && (SaneUpdate(schema, rows, targets, where, who) ==> Agree(schema', indexes', f', rows'))
      && (FittingUpdate(schema, indexes, f, rows, targets, where, who) ==> SameDisciplines(f, f'))
      && (Selects(schema, indexes, rows, where, who) ==>
            && rows' == AfterUpdate(schema, rows, where, targets, who)
            && count == |SelectedKeys(schema, rows, where, who)|)
    case Aborted(e, sofar) =>
      && rows' == RowsLeft(schema, rows, keys, e, sofar)
      && ((Finds(keys, schema, indexes, rows, where, who) && UpdateStops(schema, rows, keys, targets, who, e, sofar))
          || (e.Plan? && sofar == [] && PlanFails(schema, indexes, rows, where, who, e.plan)))
      && (Plannable(schema, rows, where, who) ==>
            KeysOfClause(keys, schema, rows, where, who) && UpdateStops(schema, rows, keys, targets, who, e, sofar))
      && (!NoRoom(e) && SaneUpdate(schema, rows, targets, where, who) ==>
            Stranded(m, m', schema, indexes, f, f', rows'))
      && (AllFixed(f) && SaneUpdate(schema, rows, targets, where, who)
          && FittingUpdate(schema, indexes, f, rows, targets, where, who) ==>
            !NoRoom(e))
  }

  /** The columns are looked up, all rows are read, and then they are written one by one. */
  method ExecuteUpdate(pager: Pager, schema: TableSchema, indexes: seq<IndexSchema>, assignments: seq<(string, Expr)>,
                       where: Option<Expr>, who: Caller, ghost f: seq<Rooted>, ghost rows: map<Key, Row>)
    returns (r: StatementResult, ghost f': seq<Rooted>, ghost rows': map<Key, Row>, ghost targets: seq<(nat, Expr)>,
             ghost keys: seq<Key>)
    requires pager.Valid() && Planted(pager.pages, f) && Agree(schema, indexes, f, rows) && DistinctNames(indexes)
    modifies pager
    ensures pager.Valid() && RowsOk(schema, rows)
    ensures AssignedFirst(schema, assignments, targets) && TargetsOk(schema, targets)
    ensures |targets| == |assignments| ==>
              && Resolved(schema, assignments, targets)
              && UpdateResult(old(pager.pages), pager.pages, schema, indexes, f, rows, f', rows', keys, targets, where,
                              who, r)
    ensures |targets| == |assignments| && r.Aborted? && ForRoom(r.error) ==>
              UpdateRanOut(old(pager.pages), schema, indexes, f, rows, keys, targets, who, r.error, r.sofar)
    ensures |targets| != |assignments| ==>
              && r.Aborted? && NameError(schema, assignments[|targets|].0) == Some(r.error) && r.sofar == []
              && rows' == rows && Stranded(old(pager.pages), pager.pages, schema, indexes, f, f', rows)
  {
    UprightStart(pager.pages, schema, indexes, f, rows);
    StrandedStart(pager.pages, schema, indexes, f, rows);
    hide *;
    f', rows' := f, rows;
    var error, columns := ResolveAssignments(schema, assignments);
    targets, keys := columns, [];
    if error.Some? {
      return Aborted(error.value, []), f, rows, targets, [];
    }
    AssignedOk(schema, assignments, targets);
    ResolvedIs(schema, assignments, targets);
    r, f', rows', keys := UpdateSelected(pager, schema, indexes, columns, where, who, f, rows);
  }

  /** The part of an UPDATE that comes when the columns are known. */
  method UpdateSelected(pager: Pager, schema: TableSchema, indexes: seq<IndexSchema>, targets: seq<(nat, Expr)>,
                        where: Option<Expr>, who: Caller, ghost f: seq<Rooted>, ghost rows: map<Key, Row>)
    returns (r: StatementResult, ghost f': seq<Rooted>, ghost rows': map<Key, Row>, ghost keys: seq<Key>)
    requires pager.Valid() && Planted(pager.pages, f) && Agree(schema, indexes, f, rows) && DistinctNames(indexes)
    requires SchemaOk(schema) && TargetsOk(schema, targets)
    modifies pager
    ensures pager.Valid() && RowsOk(schema, rows)
    ensures UpdateResult(old(pager.pages), pager.pages, schema, indexes, f, rows, f', rows', keys, targets, where, who,
                         r)
    ensures r.Aborted? && ForRoom(r.error) ==>
              UpdateRanOut(old(pager.pages), schema, indexes, f, rows, keys, targets, who, r.error, r.sofar)
  {
    UprightStart(pager.pages, schema, indexes, f, rows);
    StrandedStart(pager.pages, schema, indexes, f, rows);
    hide *;
    var rs, failed;
    rs, failed, keys := SelectRows(pager, schema, indexes, where, who, f, rows);
    if failed.Some? {
      NotWrittenYet(schema, rows, keys, Plan(failed.value));
      RoomMeans(Plan(failed.value));
      FailedToAnswer(schema, indexes, rows, where, who, failed.value, keys);
      NothingFound(schema, indexes, rows, where, who, failed.value, keys);
      ClauseFailed(pager.pages, schema, indexes, f, rows, keys, targets, where, who, failed.value);
      return Aborted(Plan(failed.value), []), f, rows, keys;
    }
    Answered(schema, indexes, rows, where, who, keys);
    PlanIs(schema, targets, rs, keys, where, who, rows);
    r, f', rows' := UpdateListed(pager, schema, indexes, targets, rs, keys, where, who, f, rows);
    Concluded(old(pager.pages), pager.pages, schema, indexes, f, rows, f', rows', rs, keys, targets, where, who, r);
  }

  lemma RoomMeans(e: StatementError)
    ensures ForRoom(e) ==> NoRoom(e) && e.Exec?
  {
  }

  lemma ClauseFailed(m: map<PageNo, Page>, schema: TableSchema, indexes: seq<IndexSchema>, f: seq<Rooted>,
                     rows: map<Key, Row>, keys: seq<Key>, targets: seq<(nat, Expr)>, where: Option<Expr>, who: Caller,
                     e: PlanError)
    requires RowsOk(schema, rows) && SchemaOk(schema) && TargetsOk(schema, targets)
    requires Stranded(m, m, schema, indexes, f, f, rows) && !Plannable(schema, rows, where, who)
    requires PlanFails(schema, indexes, rows, where, who, e) && !Finds(keys, schema, indexes, rows, where, who)
    requires forall e' :: PlanFails(schema, indexes, rows, where, who, e') ==> e' == e
    ensures UpdateResult(m, m, schema, indexes, f, rows, f, rows, keys, targets, where, who, Aborted(Plan(e), []))
  {
    hide RowsOk, TargetsOk, Stranded, Plannable, SaneUpdate, FittingUpdate, AllFixed, UpdateStops, Finds, PlanFails,
      Selects;
  }

  lemma NothingFound(schema: TableSchema, indexes: seq<IndexSchema>, rows: map<Key, Row>, where: Option<Expr>,
                     who: Caller, e: PlanError, keys: seq<Key>)
    requires Answers(schema, indexes, rows, where, who, Some(e), keys)
    ensures !Finds(keys, schema, indexes, rows, where, who)
  {
    hide Finds, PlanFails, OnlyFound;
  }

  lemma Concluded(m: map<PageNo, Page>, m': map<PageNo, Page>, schema: TableSchema, indexes: seq<IndexSchema>,
                  f: seq<Rooted>, rows: map<Key, Row>, g: seq<Rooted>, rows': map<Key, Row>, rs: seq<Row>,
                  keys: seq<Key>, targets: seq<(nat, Expr)>, where: Option<Expr>, who: Caller, r: StatementResult)
    requires UpdatePlan(schema, targets, rs, keys, where, who, rows)
    requires SchemaOk(schema) && Finds(keys, schema, indexes, rows, where, who)
    requires forall e :: !PlanFails(schema, indexes, rows, where, who, e)
    requires Selects(schema, indexes, rows, where, who) ==> KeySet(keys) == SelectedKeys(schema, rows, where, who)
    requires if r.Modified? then UpdateDone(m, m', schema, indexes, f, rows, g, rows', keys, targets, where, who, r)
             else UpdateAborts(m, m', schema, indexes, f, rows, g, rows', keys, targets, where, who, r.error, r.sofar)
    ensures RowsOk(schema, rows) && TargetsOk(schema, targets)
    ensures UpdateResult(m, m', schema, indexes, f, rows, g, rows', keys, targets, where, who, r)
  {
    hide RowsOk, TargetsOk, Upright, Updates, SaneUpdate, FittingUpdate, Agree, SameDisciplines, Plannable, Listed,
      KeySet, SelectedKeys, Replay, OnTable, UpdateEvents, KeysOfClause, Reassigned, AfterUpdate, UpdateStops, RowsLeft,
      Stranded, AllFixed, NoRoom, Finds, PlanFails;
    if r.Modified? {
      UpdatesEnd(schema, rows, rows', rs, keys, targets, r.events, where, who);
    } else if KeySet(keys) == SelectedKeys(schema, rows, where, who) {
      ListedKeys(rs, keys, rows, schema, where, who);
    }
  }

  lemma NotWrittenYet(schema: TableSchema, rows: map<Key, Row>, keys: seq<Key>, e: StatementError)
    requires !e.Exec?
    ensures RowsLeft(schema, rows, keys, e, []) == rows && !NoRoom(e)
  {
  }

  lemma ListedKeys(rs: seq<Row>, keys: seq<Key>, rows: map<Key, Row>, schema: TableSchema, where: Option<Expr>,
                   who: Caller)
    requires Listed(rs, keys, rows) && KeySet(keys) == SelectedKeys(schema, rows, where, who)
    ensures KeysOfClause(keys, schema, rows, where, who)
  {
    hide KeySet, SelectedKeys;
  }

  /** The assignments name existing columns, none of them the primary key. */
  ghost predicate Resolved(schema: TableSchema, assignments: seq<(string, Expr)>, targets: seq<(nat, Expr)>)
    requires SchemaOk(schema)
  {
    && TargetsOk(schema, targets) && |targets| == |assignments|
    && forall i :: 0 <= i < |targets| ==> targets[i] == (FindColumn(schema.columns, assignments[i].0), assignments[i].1)
  }

  lemma ResolvedIs(schema: TableSchema, assignments: seq<(string, Expr)>, targets: seq<(nat, Expr)>)
    requires SchemaOk(schema) && TargetsOk(schema, targets) && |targets| == |assignments|
    requires forall i :: 0 <= i < |targets| ==>
             targets[i] == (FindColumn(schema.columns, assignments[i].0), assignments[i].1)
    ensures Resolved(schema, assignments, targets)
  {
  }

  /** The outcome for one row. */
  datatype RowWrite = Wrote(row: Row, written: WriteResult) | NotWritten(error: StatementError)

  /** The row is in a table that agrees with its indexes, and the assignments make a sane row of it. */
  ghost predicate UpdateReady(schema: TableSchema, indexes: seq<IndexSchema>, row: Row, targets: seq<(nat, Expr)>,
                              who: Caller, f: seq<Rooted>, rows: map<Key, Row>) {
    && Agree(schema, indexes, f, rows) && SchemaOk(schema)
    && RowOk(schema, row) && RowKey(schema, row) in rows && rows[RowKey(schema, row)] == row
    && TargetsOk(schema, targets) && SaneOn(schema, row, targets, who)
  }

  /** The assignments on one row, which keep its key, and the write. */
  method UpdateOne(pager: Pager, schema: TableSchema, indexes: seq<IndexSchema>, row: Row, targets: seq<(nat, Expr)>,
                   who: Caller, ghost f: seq<Rooted>, ghost rows: map<Key, Row>)
    returns (r: RowWrite, ghost f': seq<Rooted>)
    requires pager.Valid() && Grounded(pager.pages, schema, indexes, f)
    requires SchemaOk(schema) && Keyed(schema, row) && TargetsOk(schema, targets)
    modifies pager
    ensures pager.Valid()
    ensures r.Wrote? ==>
              && Assign(row, targets, schema.columns, who) == NewRow(r.row)
              && Keyed(schema, r.row) && RowKey(schema, r.row) == RowKey(schema, row)
              && RowError(schema.columns, r.row) == None
              && Moved(old(pager.pages), pager.pages, schema, indexes, f, f', r.written)
              && (Accepts(schema, indexes, f, r.row) ==> SameDisciplines(f, f'))
    ensures r.Wrote? && UpdateReady(schema, indexes, row, targets, who, f, rows) ==>
              Committed(old(pager.pages), pager.pages, schema, indexes, f, f', r.written,
                  rows[RowKey(schema, row) := r.row])
    ensures r.NotWritten? && !NoRoom(r.error) ==>
              && UpdateError(schema, row, targets, who) == Some(r.error)
              && UpdateLeft(old(pager.pages), pager.pages, schema, indexes, row, f, f', r.error)
    ensures r.NotWritten? && AllFixed(f) && UpdateReady(schema, indexes, row, targets, who, f, rows)
            && Accepts(schema, indexes, f, Reassigned(schema, row, targets, who)) ==>
              !NoRoom(r.error)
    ensures r.NotWritten? && ForRoom(r.error) ==>
              && Assign(row, targets, schema.columns, who).NewRow?
              && NoSpace(schema, indexes, row, Assign(row, targets, schema.columns, who).row, f, r.error.exec.error)
  {
    TargetsWithin(schema, row, targets);
    hide *;
    GroundedFacts(pager.pages, schema, indexes, f);
    var computed := EvaluateAssignments(row, targets, schema.columns, who);
    if computed.Erred? {
      NothingLeft(pager.pages, schema, indexes, row, targets, who, f);
      return NotWritten(Plan(computed.error)), f;
    }
    KeyKept(schema, row, targets, who);
    ghost var m0 := pager.pages;
    var w, g, h := UpdateRow(pager, schema, indexes, row, computed.row, f);
    f' := h;
    UpdateOutcome(m0, pager.pages, schema, indexes, f, g, f', w, row, targets, who, rows);
    if w.Rejected? {
      if w.error.Store? && !w.error.error.DuplicateKey? {
        NoSpaceWhen(schema, indexes, row, computed.row, f, g, w.error.error);
      }
      return NotWritten(Exec(w.error)), g;
    }
    return Wrote(computed.row, w), f';
  }

  /** One of the trees could not give up the old row, or, without it, had no room for the new one. */
  ghost predicate NoSpace(schema: TableSchema, indexes: seq<IndexSchema>, row: Row, row': Row, f: seq<Rooted>,
                          e: BTreeError) {
    || SomeStuck(schema, indexes, row, f)
    || exists g ::
         && Fitting(schema, indexes, row, f) && TakenFrom(schema, indexes, row, f, g, |f|)
         && SomeCrowded(schema, indexes, row', g, e)
  }

  lemma NoSpaceWhen(schema: TableSchema, indexes: seq<IndexSchema>, row: Row, row': Row, f: seq<Rooted>,
                    g: seq<Rooted>, e: BTreeError)
    requires RootedAt(schema, indexes, f) && Keyed(schema, row)
    requires SomeStuck(schema, indexes, row, f) || (Fitting(schema, indexes, row, f) &&
               TakenFrom(schema, indexes, row, f, g, |f|) && SomeCrowded(schema, indexes, row', g, e))
    ensures NoSpace(schema, indexes, row, row', f, e)
  {
    hide SomeStuck, SomeCrowded, TakenFrom;
  }

  /** With the rows before it updated, there was no space to update the next one. */
  ghost predicate UpdateRanOut(m0: map<PageNo, Page>, schema: TableSchema, indexes: seq<IndexSchema>, f: seq<Rooted>,
                               rows: map<Key, Row>, keys: seq<Key>, targets: seq<(nat, Expr)>, who: Caller,
                               e: StatementError, sofar: seq<ChangeEvent>)
    requires RowsOk(schema, rows) && TargetsOk(schema, targets) && ForRoom(e)
  {
    && |sofar| < |keys| && keys[|sofar|] in rows
    && exists m, schema', indexes', f' ::
         && Upright(m0, m, schema, indexes, f, schema', indexes', f')
         && (SaneFor(schema, rows, keys[..|sofar|], targets, who) ==>
               Agree(schema', indexes', f', Replay(schema, rows, sofar)))
         && NoSpace(schema', indexes', rows[keys[|sofar|]], Reassigned(schema, rows[keys[|sofar|]], targets, who), f',
                    e.exec.error)
  }

  lemma UpdateRanOutAt(m0: map<PageNo, Page>, m: map<PageNo, Page>, schema: TableSchema, indexes: seq<IndexSchema>,
                       f: seq<Rooted>, rows: map<Key, Row>, p: Progress, f': seq<Rooted>, rows': map<Key, Row>,
                       rs: seq<Row>, keys: seq<Key>, j: nat, targets: seq<(nat, Expr)>, who: Caller,
                       e: StatementError)
    requires Updating(m0, m, schema, indexes, f, rows, p, f', rows', keys, j, targets, who) && j < |rs| == |keys|
    requires Listed(rs, keys, rows) && ForRoom(e)
    requires p.schema.columns == schema.columns && |rs[j]| == |schema.columns|
    requires (forall i :: 0 <= i < |targets| ==> targets[i].0 < |rs[j]|)
    requires Assign(rs[j], targets, p.schema.columns, who).NewRow?
    requires NoSpace(p.schema, p.indexes, rs[j], Assign(rs[j], targets, p.schema.columns, who).row, f', e.exec.error)
    ensures UpdateRanOut(m0, schema, indexes, f, rows, keys, targets, who, e, p.events)
  {
    hide Upright, NoSpace, Agree, SaneFor, FittingFor, SameDisciplines, Replay, Assign, CheckRow, RowKey, Increasing;
    assert keys[j] in rows && rows[keys[j]] == rs[j] && |p.events| == j;
    assert RowOk(schema, rs[j]);
    assert Reassigned(schema, rs[j], targets, who) == Assign(rs[j], targets, p.schema.columns, who).row;
  }

  lemma TargetsWithin(schema: TableSchema, row: Row, targets: seq<(nat, Expr)>)
    requires SchemaOk(schema) && Keyed(schema, row) && TargetsOk(schema, targets)
    ensures |row| == |schema.columns| && forall i :: 0 <= i < |targets| ==> targets[i].0 < |row|
  {
  }

  /** Why a row is not updated: its assignments fail, or the new row is refused. */
  function UpdateError(schema: TableSchema, row: Row, targets: seq<(nat, Expr)>, who: Caller): Option<StatementError>
    requires SchemaOk(schema) && Keyed(schema, row) && TargetsOk(schema, targets)
  {
    var v := Assign(row, targets, schema.columns, who);
    if v.Erred? then Some(Plan(v.error)) else
      var e := RowError(schema.columns, v.row);
      if e.Some? then Some(Exec(e.value)) else None
  }

  /** What is left when a row was not updated: everything, if its assignments failed; but a row that was refused has
      already cost the old one. */
  ghost predicate UpdateLeft(m: map<PageNo, Page>, m': map<PageNo, Page>, schema: TableSchema,
                             indexes: seq<IndexSchema>, row: Row, f: seq<Rooted>, g: seq<Rooted>, e: StatementError) {
    && Planted(m', g) && Elsewhere(m, m', f, g) && SameDisciplines(f, g)
    && if e.Exec? then Fitting(schema, indexes, row, f) && TakenFrom(schema, indexes, row, f, g, |f|) else g == f
  }

  lemma NothingLeft(m: map<PageNo, Page>, schema: TableSchema, indexes: seq<IndexSchema>, row: Row,
                    targets: seq<(nat, Expr)>, who: Caller, f: seq<Rooted>)
    requires SchemaOk(schema) && Keyed(schema, row) && TargetsOk(schema, targets) && Planted(m, f)
    requires Assign(row, targets, schema.columns, who).Erred?
    ensures var e := Plan(Assign(row, targets, schema.columns, who).error);
            && UpdateError(schema, row, targets, who) == Some(e) && UpdateLeft(m, m, schema, indexes, row, f, f, e)
            && !NoRoom(e)
  {
    hide Assign, Planted, InForest;
  }

  /** What the outcome of the write means for a table that agrees with its indexes. */
  lemma UpdateOutcome(m: map<PageNo, Page>, m': map<PageNo, Page>, schema: TableSchema, indexes: seq<IndexSchema>,
                      f: seq<Rooted>, g: seq<Rooted>, f': seq<Rooted>, w: WriteResult, row: Row,
                      targets: seq<(nat, Expr)>, who: Caller, rows: map<Key, Row>)
    requires RootedAt(schema, indexes, f) && SchemaOk(schema) && Keyed(schema, row) && TargetsOk(schema, targets)
    requires Assign(row, targets, schema.columns, who).NewRow?
    requires var row' := Assign(row, targets, schema.columns, who).row;
             && |row'| == |schema.columns| && (Keyed(schema, row') ==> RowKey(schema, row') == RowKey(schema, row))
             && (w.Written? ==>
                   && Fitting(schema, indexes, row, f) && RowError(schema.columns, row') == None && Keyed(schema, row')
                   && Fitting(schema, indexes, row', g) && Moved(m, m', schema, indexes, f, f', w)
                   && TakenFrom(schema, indexes, row, f, g, |f|) && PutIn(schema, indexes, row', g, f', |f|))
             && (w.Rejected? && !w.error.Store? ==>
                   && Planted(m', f') && Elsewhere(m, m', f, f') && f' == g
                   && Fitting(schema, indexes, row, f) && TakenFrom(schema, indexes, row, f, g, |f|)
                   && if RowError(schema.columns, row') == None then
                        Keyed(schema, row') && |g| > 0 && RowKey(schema, row') in ModelOf(g[0])
                      else w.error == RowError(schema.columns, row').value)
             && (w.Rejected? && AllFixed(f) && RowError(schema.columns, row') == None ==>
                   && Fitting(schema, indexes, row, f) && Fitting(schema, indexes, row', g)
                   && TakenFrom(schema, indexes, row, f, g, |f|)
                   && (Accepts(schema, indexes, f, row') ==> !NewTo(schema, indexes, row', g, 0)))
             && (w.Rejected? && AllFixed(f) && RowError(schema.columns, row').Some? ==> !w.error.Store?)
    ensures var row' := Assign(row, targets, schema.columns, who).row;
            && (w.Written? ==> Keyed(schema, row') && RowKey(schema, row') == RowKey(schema, row))
            && (w.Written? && Accepts(schema, indexes, f, row') ==> SameDisciplines(f, f'))
            && (w.Written? && UpdateReady(schema, indexes, row, targets, who, f, rows) ==>
                  Committed(m, m', schema, indexes, f, f', w, rows[RowKey(schema, row) := row']))
            && (w.Rejected? && !w.error.Store? ==>
                  && UpdateError(schema, row, targets, who) == Some(Exec(w.error))
                  && UpdateLeft(m, m', schema, indexes, row, f, f', Exec(w.error)))
            && (w.Rejected? && AllFixed(f) && UpdateReady(schema, indexes, row, targets, who, f, rows)
                && Accepts(schema, indexes, f, Reassigned(schema, row, targets, who)) ==>
                  !w.error.Store?)
  {
    var row' := Assign(row, targets, schema.columns, who).row;
    RowErrorMeans(schema, row');
    hide Assign, Moved, TakenFrom, PutIn, NewTo, Accepts, Agree, CheckRow, Keyed, RowError, AllFixed, Fitting, RootedAt,
      TargetsOk, SchemaOk, Sane, RowTyped, RowKey, Committed, Alike, Planted, Elsewhere, ModelOf, SameDisciplines;
    if w.Rejected? && !w.error.Store? {
      TakenSame(schema, indexes, row, f, g);
      KeyFree(schema, indexes, row, f, g);
    }
    if w.Written? {
      if Accepts(schema, indexes, f, row') {
        UpdateSame(schema, indexes, f, g, f', row, row');
      }
      if UpdateReady(schema, indexes, row, targets, who, f, rows) {
        UpdateAgrees(m, m', schema, indexes, f, g, f', w, row, row', rows);
        PutBack(rows, RowKey(schema, row), row');
      }
    } else if AllFixed(f) && UpdateReady(schema, indexes, row, targets, who, f, rows)
              && Accepts(schema, indexes, f, Reassigned(schema, row, targets, who))
              && RowError(schema.columns, row') == None {
      AgreeAlike(schema, indexes, f, rows);
      TakenAgrees(schema, indexes, f, g, row, rows);
      NewEverywhere(schema, indexes, g, row', rows - {RowKey(schema, row)});
    }
  }

  lemma UpdateSame(schema: TableSchema, indexes: seq<IndexSchema>, f: seq<Rooted>, g: seq<Rooted>, f': seq<Rooted>,
                   row: Row, row': Row)
    requires Fitting(schema, indexes, row, f) && Fitting(schema, indexes, row', g)
    requires TakenFrom(schema, indexes, row, f, g, |f|) && PutIn(schema, indexes, row', g, f', |f|)
    requires Accepts(schema, indexes, f, row')
    ensures SameDisciplines(f, f')
  {
    hide TakenFrom, PutIn, EntryFor, EntryOk, Enterable;
    TakenSame(schema, indexes, row, f, g);
    AcceptedSame(schema, indexes, row', g, f');
  }

  lemma PutBack(rows: map<Key, Row>, k: Key, row: Row)
    ensures (rows - {k})[k := row] == rows[k := row]
  {
  }

  /** What an UPDATE has found out before it writes. */
  ghost predicate UpdatePlan(schema: TableSchema, targets: seq<(nat, Expr)>, rs: seq<Row>, keys: seq<Key>,
                             where: Option<Expr>, who: Caller, rows: map<Key, Row>) {
    && RowsOk(schema, rows) && TargetsOk(schema, targets) && Listed(rs, keys, rows) && |rs| == |keys|
    && (Plannable(schema, rows, where, who) ==> KeySet(keys) == SelectedKeys(schema, rows, where, who))
  }

  lemma PlanIs(schema: TableSchema, targets: seq<(nat, Expr)>, rs: seq<Row>, keys: seq<Key>, where: Option<Expr>,
               who: Caller, rows: map<Key, Row>)
    requires RowsOk(schema, rows) && SchemaOk(schema) && TargetsOk(schema, targets) && Listed(rs, keys, rows)
             && |rs| == |keys|
    requires Plannable(schema, rows, where, who) ==> KeySet(keys) == SelectedKeys(schema, rows, where, who)
    ensures UpdatePlan(schema, targets, rs, keys, where, who, rows)
  {
    hide RowsOk, Listed, Plannable, KeySet, SelectedKeys, TargetsOk;
  }

  /** How far an UPDATE or an INSERT has come. */
  datatype Progress = Progress(schema: TableSchema, indexes: seq<IndexSchema>, events: seq<ChangeEvent>)

  ghost predicate SaneFor(schema: TableSchema, rows: map<Key, Row>, keys: seq<Key>, targets: seq<(nat, Expr)>,
                          who: Caller)
    requires RowsOk(schema, rows) && TargetsOk(schema, targets)
  {
    forall k :: k in keys && k in rows ==> SaneOn(schema, rows[k], targets, who)
  }

  ghost predicate FittingFor(schema: TableSchema, indexes: seq<IndexSchema>, f: seq<Rooted>, rows: map<Key, Row>,
                             keys: seq<Key>, targets: seq<(nat, Expr)>, who: Caller)
    requires RowsOk(schema, rows) && TargetsOk(schema, targets)
  {
    forall k :: k in keys && k in rows ==> Accepts(schema, indexes, f, Reassigned(schema, rows[k], targets, who))
  }

  ghost predicate Updating(m: map<PageNo, Page>, m': map<PageNo, Page>, schema: TableSchema, indexes: seq<IndexSchema>,
                           f: seq<Rooted>, rows: map<Key, Row>, p: Progress, f': seq<Rooted>, rows': map<Key, Row>,
                           keys: seq<Key>, j: nat, targets: seq<(nat, Expr)>, who: Caller) {
    && RowsOk(schema, rows) && TargetsOk(schema, targets) && j <= |keys|
    && Upright(m, m', schema, indexes, f, p.schema, p.indexes, f')
    && Updates(schema, rows, rows', keys[..j], targets, who, p.events)
    && (SaneFor(schema, rows, keys[..j], targets, who) ==> Agree(p.schema, p.indexes, f', rows'))
    && (FittingFor(schema, indexes, f, rows, keys[..j], targets, who) ==> SameDisciplines(f, f'))
  }

  /** The loop of an UPDATE. */
  method UpdateListed(pager: Pager, schema: TableSchema, indexes: seq<IndexSchema>, targets: seq<(nat, Expr)>,
                      rs: seq<Row>, ghost keys: seq<Key>, ghost where: Option<Expr>, who: Caller, ghost f: seq<Rooted>,
                      ghost rows: map<Key, Row>)
    returns (r: StatementResult, ghost f': seq<Rooted>, ghost rows': map<Key, Row>)
    requires pager.Valid() && Planted(pager.pages, f) && Agree(schema, indexes, f, rows) && DistinctNames(indexes)
    requires UpdatePlan(schema, targets, rs, keys, where, who, rows)
    modifies pager
    ensures pager.Valid()
    ensures if r.Modified? then
              UpdateDone(old(pager.pages), pager.pages, schema, indexes, f, rows, f', rows', keys, targets, where,
                         who, r)
            else
              UpdateAborts(old(pager.pages), pager.pages, schema, indexes, f, rows, f', rows', keys, targets, where,
                           who, r.error, r.sofar)
    ensures RowsOk(schema, rows) && TargetsOk(schema, targets)
    ensures r.Aborted? && ForRoom(r.error) ==>
              UpdateRanOut(old(pager.pages), schema, indexes, f, rows, keys, targets, who, r.error, r.sofar)
  {
    assert |rs| == |keys| && RowsOk(schema, rows) && TargetsOk(schema, targets);
    ghost var m0 := pager.pages;
    hide *;
    UprightStart(m0, schema, indexes, f, rows);
    UpdateStarts(m0, schema, indexes, f, rows, keys, targets, who);
    TouchedAll(schema, indexes, f, targets, rs, keys, where, who, rows);
    f', rows' := f, rows;
    var p := Progress(schema, indexes, []);
    var j := 0;
    while j < |rs|
      invariant 0 <= j <= |rs| && pager.Valid()
      invariant Updating(m0, pager.pages, schema, indexes, f, rows, p, f', rows', keys, j, targets, who)
    {
      var one, p', g := UpdateStep(pager, p, targets, rs, j, keys, who, m0, schema, indexes, f, rows, f', rows', where);
      if one.NotWritten? {
        HaltedIs(m0, pager.pages, schema, indexes, f, rows, p, g, rows', keys, j, targets, where, who, one.error);
        return Aborted(one.error, p.events), g, RowsLeft(schema, rows, keys, one.error, p.events);
      }
      p, f', rows' := p', g, rows'[keys[j] := one.row];
      j := j + 1;
    }
    UpdateFinished(m0, pager.pages, schema, indexes, f, rows, p, f', rows', keys, j, targets, where, who);
    r := Modified(j, p.schema, p.indexes, p.events);
  }

  lemma SameColumns(m: map<PageNo, Page>, m': map<PageNo, Page>, schema: TableSchema, indexes: seq<IndexSchema>,
                    f: seq<Rooted>, rows: map<Key, Row>, p: Progress, f': seq<Rooted>, rows': map<Key, Row>,
                    keys: seq<Key>, j: nat, targets: seq<(nat, Expr)>, who: Caller)
    requires Updating(m, m', schema, indexes, f, rows, p, f', rows', keys, j, targets, who)
    ensures p.schema.columns == schema.columns
  {
    hide Grounded, Elsewhere, Updates, RowsOk, TargetsOk, SaneFor, FittingFor, Agree, SameDisciplines;
  }

  /** The next row of an UPDATE. */
  method UpdateStep(pager: Pager, p: Progress, targets: seq<(nat, Expr)>, rs: seq<Row>, j: nat, ghost keys: seq<Key>,
                    who: Caller, ghost m0: map<PageNo, Page>, schema: TableSchema, ghost indexes: seq<IndexSchema>,
                    ghost f: seq<Rooted>, ghost rows: map<Key, Row>, ghost f': seq<Rooted>, ghost rows': map<Key, Row>,
                    ghost where: Option<Expr>)
    returns (one: RowWrite, p': Progress, ghost g: seq<Rooted>)
    requires pager.Valid() && UpdatePlan(schema, targets, rs, keys, where, who, rows) && j < |rs| == |keys|
    requires Updating(m0, pager.pages, schema, indexes, f, rows, p, f', rows', keys, j, targets, who)
    modifies pager
    ensures pager.Valid() && RowsOk(schema, rows) && TargetsOk(schema, targets)
    ensures one.Wrote? ==>
              Updating(m0, pager.pages, schema, indexes, f, rows, p', g, rows'[keys[j] := one.row], keys, j + 1,
                  targets, who)
    ensures one.NotWritten? ==>
              Halted(m0, pager.pages, schema, indexes, f, rows, p, g, rows', keys, j, targets, who, one.error)
    ensures one.NotWritten? && ForRoom(one.error) ==>
              UpdateRanOut(m0, schema, indexes, f, rows, keys, targets, who, one.error, p.events)
    ensures one.NotWritten? && AllFixed(f) && SaneFor(schema, rows, keys, targets, who)
            && FittingFor(schema, indexes, f, rows, keys, targets, who) ==>
              !NoRoom(one.error)
  {
    hide *;
    ghost var m1 := pager.pages;
    PlanFacts(schema, targets, rs, keys, where, who, rows);
    UpdateNext(m0, m1, schema, indexes, f, rows, p, f', rows', rs, keys, j, targets, where, who);
    TargetsWithin(p.schema, rs[j], targets);
    one, g := UpdateOne(pager, p.schema, p.indexes, rs[j], targets, who, f', rows');
    p' := p;
    if one.NotWritten? && ForRoom(one.error) {
      SameColumns(m0, m1, schema, indexes, f, rows, p, f', rows', keys, j, targets, who);
      UpdateRanOutAt(m0, m1, schema, indexes, f, rows, p, f', rows', rs, keys, j, targets, who, one.error);
    }
    if one.Wrote? {
      RowUpdated(m0, m1, pager.pages, schema, indexes, f, rows, p, f', rows', rs, keys, j, targets, who, one, g);
      p' := Advanced(p, one, ChangeEvent(schema.name, Updated, Some(rs[j]), Some(one.row)));
    } else {
      UpdateHalts(m0, m1, pager.pages, schema, indexes, f, rows, p, f', rows', rs, keys, j, targets, who, g, one.error);
    }
  }

  /** Why an UPDATE stops at a row: for want of room, or because the row cannot be updated. */
  ghost predicate UpdateFails(schema: TableSchema, row: Row, targets: seq<(nat, Expr)>, who: Caller,
                              e: StatementError)
    requires SchemaOk(schema) && Keyed(schema, row) && TargetsOk(schema, targets)
  {
    NoRoom(e) || UpdateError(schema, row, targets, who) == Some(e)
  }

  /** The rows before were updated, with an event each, and then this one could not be. */
  ghost predicate UpdateStops(schema: TableSchema, rows: map<Key, Row>, keys: seq<Key>, targets: seq<(nat, Expr)>,
                              who: Caller, e: StatementError, sofar: seq<ChangeEvent>)
    requires RowsOk(schema, rows) && TargetsOk(schema, targets)
  {
    && |sofar| < |keys| && UpdateEvents(schema, rows, keys[..|sofar|], targets, who, sofar)
    && keys[|sofar|] in rows && keys[|sofar|] in Replay(schema, rows, sofar)
    && UpdateFails(schema, rows[keys[|sofar|]], targets, who, e)
  }

  /** What the events say, but for the row that was lost when the new one was refused. */
  ghost function RowsLeft(schema: TableSchema, rows: map<Key, Row>, keys: seq<Key>, e: StatementError,
                          sofar: seq<ChangeEvent>): map<Key, Row> {
    var written := Replay(schema, rows, sofar);
    if e.Exec? && |sofar| < |keys| then written - {keys[|sofar|]} else written
  }

  ghost predicate Halted(m: map<PageNo, Page>, m': map<PageNo, Page>, schema: TableSchema, indexes: seq<IndexSchema>,
                         f: seq<Rooted>, rows: map<Key, Row>, p: Progress, g: seq<Rooted>, rows': map<Key, Row>,
                         keys: seq<Key>, j: nat, targets: seq<(nat, Expr)>, who: Caller, e: StatementError) {
    && RowsOk(schema, rows) && TargetsOk(schema, targets) && j < |keys| && keys[j] in rows
    && Updates(schema, rows, rows', keys[..j], targets, who, p.events)
    && UpdateFails(schema, rows[keys[j]], targets, who, e)
    && (!NoRoom(e) && SaneFor(schema, rows, keys[..j], targets, who) ==>
          Stranded(m, m', schema, indexes, f, g, if e.Exec? then rows' - {keys[j]} else rows'))
  }

  /** How an UPDATE ends: every listed row was updated. */
  ghost predicate UpdateDone(m: map<PageNo, Page>, m': map<PageNo, Page>, schema: TableSchema,
                             indexes: seq<IndexSchema>, f: seq<Rooted>, rows: map<Key, Row>, g: seq<Rooted>,
                             rows': map<Key, Row>, keys: seq<Key>, targets: seq<(nat, Expr)>, where: Option<Expr>,
                             who: Caller, r: StatementResult) {
    && RowsOk(schema, rows) && TargetsOk(schema, targets) && r.Modified? && r.count == |keys|
    && Upright(m, m', schema, indexes, f, r.schema, r.indexes, g)
    && Updates(schema, rows, rows', keys, targets, who, r.events)
    && (SaneUpdate(schema, rows, targets, where, who) ==> Agree(r.schema, r.indexes, g, rows'))
    && (FittingUpdate(schema, indexes, f, rows, targets, where, who) ==> SameDisciplines(f, g))
  }

  /** How an UPDATE aborts: at which row and why, and what it leaves. */
  ghost predicate UpdateAborts(m: map<PageNo, Page>, m': map<PageNo, Page>, schema: TableSchema,
                               indexes: seq<IndexSchema>, f: seq<Rooted>, rows: map<Key, Row>, g: seq<Rooted>,
                               rows': map<Key, Row>, keys: seq<Key>, targets: seq<(nat, Expr)>, where: Option<Expr>,
                               who: Caller, e: StatementError, sofar: seq<ChangeEvent>) {
    && RowsOk(schema, rows) && TargetsOk(schema, targets)
    && UpdateStops(schema, rows, keys, targets, who, e, sofar) && rows' == RowsLeft(schema, rows, keys, e, sofar)
    && (!NoRoom(e) && SaneUpdate(schema, rows, targets, where, who) ==>
          Stranded(m, m', schema, indexes, f, g, rows'))
    && (AllFixed(f) && SaneUpdate(schema, rows, targets, where, who)
        && FittingUpdate(schema, indexes, f, rows, targets, where, who) ==>
          !NoRoom(e))
  }

  lemma HaltedIs(m: map<PageNo, Page>, m': map<PageNo, Page>, schema: TableSchema, indexes: seq<IndexSchema>,
                 f: seq<Rooted>, rows: map<Key, Row>, p: Progress, g: seq<Rooted>, rows': map<Key, Row>,
                 keys: seq<Key>, j: nat, targets: seq<(nat, Expr)>, where: Option<Expr>, who: Caller,
                 e: StatementError)
    requires Halted(m, m', schema, indexes, f, rows, p, g, rows', keys, j, targets, who, e)
    requires SaneUpdate(schema, rows, targets, where, who) ==> SaneFor(schema, rows, keys, targets, who)
    requires FittingUpdate(schema, indexes, f, rows, targets, where, who) ==>
             FittingFor(schema, indexes, f, rows, keys, targets, who)
    requires AllFixed(f) && SaneFor(schema, rows, keys, targets, who)
             && FittingFor(schema, indexes, f, rows, keys, targets, who) ==>
               !NoRoom(e)
    ensures UpdateAborts(m, m', schema, indexes, f, rows, g, RowsLeft(schema, rows, keys, e, p.events), keys, targets,
                         where, who, e, p.events)
  {
    hide RowsOk, TargetsOk, Stranded, SaneOn, Replay, UpdateFails, Reassigned, SaneUpdate, FittingUpdate, FittingFor,
      AllFixed;
    assert |p.events| == j;
  }

  lemma UpdateHalts(m: map<PageNo, Page>, m1: map<PageNo, Page>, m2: map<PageNo, Page>, schema: TableSchema,
                    indexes: seq<IndexSchema>, f: seq<Rooted>, rows: map<Key, Row>, p: Progress, f': seq<Rooted>,
                    rows': map<Key, Row>, rs: seq<Row>, keys: seq<Key>, j: nat, targets: seq<(nat, Expr)>, who: Caller,
                    g: seq<Rooted>, e: StatementError)
    requires RowsOk(schema, rows) && Listed(rs, keys, rows) && j < |rs| == |keys|
    requires Updating(m, m1, schema, indexes, f, rows, p, f', rows', keys, j, targets, who)
    requires SchemaOk(p.schema) && Keyed(p.schema, rs[j]) && TargetsOk(p.schema, targets)
    requires !NoRoom(e) ==>
               && UpdateError(p.schema, rs[j], targets, who) == Some(e)
               && UpdateLeft(m1, m2, p.schema, p.indexes, rs[j], f', g, e)
    ensures Halted(m, m2, schema, indexes, f, rows, p, g, rows', keys, j, targets, who, e)
  {
    hide Rank, CheckRow, EncodeKey, RowsOk, Listed, KeySet, Assign, Replay, Eval, Upright, Updates, RowKey, Agree,
      Keyed, Sane, SaneFor, RowTyped, Alike, TakenFrom, Planted, Elsewhere, Fitting, RowError;
    UprightFacts(m, m1, schema, indexes, f, p.schema, p.indexes, f');
    ListedRow(schema, rows, rs, keys, j);
    RowMoved(schema, p.schema, rs[j]);
    if !NoRoom(e) && SaneFor(schema, rows, keys[..j], targets, who) {
      AgreeAlike(p.schema, p.indexes, f', rows');
      if e.Exec? {
        NotYet(schema, rows, rows', keys, j, targets, who, p.events);
        TakenAgrees(p.schema, p.indexes, f', g, rs[j], rows');
        StrandedThen(m, m1, m2, schema, indexes, f, p.schema, p.indexes, f', g, rows' - {keys[j]});
      } else {
        StrandedThen(m, m1, m2, schema, indexes, f, p.schema, p.indexes, f', g, rows');
      }
    }
  }

  /** A row that comes later is still as it was. */
  lemma NotYet(schema: TableSchema, rows: map<Key, Row>, rows': map<Key, Row>, keys: seq<Key>, j: nat,
               targets: seq<(nat, Expr)>, who: Caller, events: seq<ChangeEvent>)
    requires RowsOk(schema, rows) && TargetsOk(schema, targets) && j < |keys| && keys[j] in rows
    requires keys[j] !in keys[..j] && Updates(schema, rows, rows', keys[..j], targets, who, events)
    ensures keys[j] in rows' && rows'[keys[j]] == rows[keys[j]]
  {
    hide Reassigned, RowsOk, TargetsOk, Replay, UpdateEvents;
  }

  lemma PlanFacts(schema: TableSchema, targets: seq<(nat, Expr)>, rs: seq<Row>, keys: seq<Key>, where: Option<Expr>,
                  who: Caller, rows: map<Key, Row>)
    requires UpdatePlan(schema, targets, rs, keys, where, who, rows)
    ensures RowsOk(schema, rows) && SchemaOk(schema) && TargetsOk(schema, targets) && Listed(rs, keys, rows)
            && |rs| == |keys|
  {
  }

  function Advanced(p: Progress, one: RowWrite, e: ChangeEvent): Progress
    requires one.Wrote? && one.written.Written?
  {
    Progress(p.schema.(rootPage := one.written.tableRoot), Repointed(p.indexes, one.written.indexRoots), p.events + [e])
  }

  /** On some selected row the assignments fail, or give a row that is refused. */
  ghost predicate Unassignable(schema: TableSchema, rows: map<Key, Row>, targets: seq<(nat, Expr)>, where: Option<Expr>,
                               who: Caller)
    requires RowsOk(schema, rows) && TargetsOk(schema, targets)
  {
    exists k :: k in SelectedKeys(schema, rows, where, who) && UpdateError(schema, rows[k], targets, who).Some?
  }

  lemma UpdateStarts(m: map<PageNo, Page>, schema: TableSchema, indexes: seq<IndexSchema>, f: seq<Rooted>,
                     rows: map<Key, Row>, keys: seq<Key>, targets: seq<(nat, Expr)>, who: Caller)
    requires Planted(m, f) && Agree(schema, indexes, f, rows) && DistinctNames(indexes) && SchemaOk(schema)
    requires TargetsOk(schema, targets)
    ensures Updating(m, m, schema, indexes, f, rows, Progress(schema, indexes, []), f, rows, keys, 0, targets, who)
  {
    hide Planted, Agree, Reassigned, CheckRow, RowKey, Upright, RowsOk;
    UprightStart(m, schema, indexes, f, rows);
    UpdatesNone(schema, rows, targets, who);
    assert keys[..0] == [];
  }

  lemma UpdatesNone(schema: TableSchema, rows: map<Key, Row>, targets: seq<(nat, Expr)>, who: Caller)
    requires RowsOk(schema, rows) && TargetsOk(schema, targets)
    ensures Updates(schema, rows, rows, [], targets, who, [])
  {
    hide CheckRow, RowKey, Reassigned;
  }

  /** The rows that were read are rows the statement may touch. */
  lemma TouchedAll(schema: TableSchema, indexes: seq<IndexSchema>, f: seq<Rooted>, targets: seq<(nat, Expr)>,
                   rs: seq<Row>, keys: seq<Key>, where: Option<Expr>, who: Caller, rows: map<Key, Row>)
    requires UpdatePlan(schema, targets, rs, keys, where, who, rows)
    ensures RowsOk(schema, rows) && TargetsOk(schema, targets)
    ensures SaneUpdate(schema, rows, targets, where, who) ==> SaneFor(schema, rows, keys, targets, who)
    ensures FittingUpdate(schema, indexes, f, rows, targets, where, who) ==>
            FittingFor(schema, indexes, f, rows, keys, targets, who)
  {
    SchemaOfRows(schema, rows);
    hide Plannable, SaneOn, Accepts, Reassigned, RowsOk, Listed, TargetsOk, Truthy;
    forall k | k in keys && k in rows ensures Touched(schema, rows, where, who, k) {
      assert k in KeySet(keys);
    }
  }

  lemma UpdateNext(m: map<PageNo, Page>, m': map<PageNo, Page>, schema: TableSchema, indexes: seq<IndexSchema>,
                   f: seq<Rooted>, rows: map<Key, Row>, p: Progress, f': seq<Rooted>, rows': map<Key, Row>,
                   rs: seq<Row>, keys: seq<Key>, j: nat, targets: seq<(nat, Expr)>, where: Option<Expr>, who: Caller)
    requires UpdatePlan(schema, targets, rs, keys, where, who, rows) && j < |rs|
    requires Updating(m, m', schema, indexes, f, rows, p, f', rows', keys, j, targets, who)
    ensures Grounded(m', p.schema, p.indexes, f')
    ensures SchemaOk(p.schema) && Keyed(p.schema, rs[j]) && TargetsOk(p.schema, targets)
    ensures SaneFor(schema, rows, keys, targets, who) ==>
            UpdateReady(p.schema, p.indexes, rs[j], targets, who, f', rows')
    ensures FittingFor(schema, indexes, f, rows, keys, targets, who) ==>
              && (AllFixed(f) ==> AllFixed(f'))
              && RowOk(p.schema, rs[j]) && Accepts(p.schema, p.indexes, f', Reassigned(p.schema, rs[j], targets, who))
  {
    hide Rank, Planted, Agree, CheckRow, EncodeKey, Upright, RowsOk, Listed, Accepts, Assign, Replay, Eval, Plannable,
      Truthy, Sane, Keyed;
    UprightFacts(m, m', schema, indexes, f, p.schema, p.indexes, f');
    ListedRow(schema, rows, rs, keys, j);
    RowMoved(schema, p.schema, rs[j]);
    KeySetMeans(keys, keys[j]);
    assert keys[j] in keys;
    ReassignedMoved(schema, p.schema, rs[j], targets, who);
    SomeKeys(schema, indexes, f, rows, keys, j, targets, who);
    var row' := Reassigned(schema, rs[j], targets, who);
    if FittingFor(schema, indexes, f, rows, keys, targets, who) {
      AcceptsMoved(schema, p.schema, indexes, p.indexes, f, f', row');
    }
  }

  lemma SomeKeys(schema: TableSchema, indexes: seq<IndexSchema>, f: seq<Rooted>, rows: map<Key, Row>, keys: seq<Key>,
                 j: nat, targets: seq<(nat, Expr)>, who: Caller)
    requires RowsOk(schema, rows) && TargetsOk(schema, targets) && j <= |keys|
    ensures SaneFor(schema, rows, keys, targets, who) ==> SaneFor(schema, rows, keys[..j], targets, who)
    ensures FittingFor(schema, indexes, f, rows, keys, targets, who) ==>
            FittingFor(schema, indexes, f, rows, keys[..j], targets, who)
    ensures j > 0 && keys[j - 1] in rows ==>
              && (SaneFor(schema, rows, keys[..j], targets, who) <==>
                    SaneFor(schema, rows, keys[..j - 1], targets, who)
                        && SaneOn(schema, rows[keys[j - 1]], targets, who))
              && (FittingFor(schema, indexes, f, rows, keys[..j], targets, who) <==>
                    && FittingFor(schema, indexes, f, rows, keys[..j - 1], targets, who)
                    && Accepts(schema, indexes, f, Reassigned(schema, rows[keys[j - 1]], targets, who)))
  {
    hide SaneOn, Accepts, Reassigned, RowsOk, TargetsOk;
    forall k | k in keys[..j] ensures k in keys {
    }
    if j > 0 {
      assert keys[..j] == keys[..j - 1] + [keys[j - 1]];
    }
  }

  lemma ReassignedMoved(schema: TableSchema, schema': TableSchema, row: Row, targets: seq<(nat, Expr)>, who: Caller)
    requires SchemaOk(schema) && RowOk(schema, row) && TargetsOk(schema, targets) && schema'.columns == schema.columns
    ensures SchemaOk(schema') && RowOk(schema', row) && TargetsOk(schema', targets)
    ensures Reassigned(schema', row, targets, who) == Reassigned(schema, row, targets, who)
    ensures SaneOn(schema', row, targets, who) <==> SaneOn(schema, row, targets, who)
  {
    hide CheckRow, Assign;
  }

  lemma RowUpdated(m: map<PageNo, Page>, m1: map<PageNo, Page>, m2: map<PageNo, Page>, schema: TableSchema,
                   indexes: seq<IndexSchema>, f: seq<Rooted>, rows: map<Key, Row>, p: Progress, f': seq<Rooted>,
                   rows': map<Key, Row>, rs: seq<Row>, keys: seq<Key>, j: nat, targets: seq<(nat, Expr)>, who: Caller,
                   one: RowWrite, g: seq<Rooted>)
    requires RowsOk(schema, rows) && Listed(rs, keys, rows) && j < |rs| == |keys| && one.Wrote?
    requires Updating(m, m1, schema, indexes, f, rows, p, f', rows', keys, j, targets, who)
    requires SchemaOk(p.schema) && Keyed(p.schema, rs[j]) && TargetsOk(p.schema, targets)
             && |rs[j]| == |p.schema.columns|
    requires forall i :: 0 <= i < |targets| ==> targets[i].0 < |rs[j]|
    requires Assign(rs[j], targets, p.schema.columns, who) == NewRow(one.row)
    requires Keyed(p.schema, one.row) && RowKey(p.schema, one.row) == RowKey(p.schema, rs[j])
    requires RowError(p.schema.columns, one.row) == None
    requires Moved(m1, m2, p.schema, p.indexes, f', g, one.written)
    requires Accepts(p.schema, p.indexes, f', one.row) ==> SameDisciplines(f', g)
    requires UpdateReady(p.schema, p.indexes, rs[j], targets, who, f', rows') ==>
               Committed(m1, m2, p.schema, p.indexes, f', g, one.written, rows'[RowKey(p.schema, rs[j]) := one.row])
    ensures one.written.Written?
    ensures var e := ChangeEvent(schema.name, Updated, Some(rs[j]), Some(one.row));
            Updating(m, m2, schema, indexes, f, rows, Advanced(p, one, e), g, rows'[keys[j] := one.row], keys, j + 1,
                targets, who)
  {
    hide Rank, CheckRow, EncodeKey, RowsOk, Listed, KeySet, Assign, Replay, Eval, Upright, Updates, RowKey, Agree,
      Moved, Keyed, Sane, SaneFor, FittingFor, Accepts, RowTyped;
    UprightFacts(m, m1, schema, indexes, f, p.schema, p.indexes, f');
    ListedRow(schema, rows, rs, keys, j);
    RowMoved(schema, p.schema, rs[j]);
    ReassignedMoved(schema, p.schema, rs[j], targets, who);
    KeyedMoved(schema, p.schema, one.row);
    UpdatesNext(schema, rows, rows', rs, keys, j, targets, who, p.events, one.row);
    UprightThen(m, m1, m2, schema, indexes, f, p.schema, p.indexes, f', g, one.written);
    SomeKeys(schema, indexes, f, rows, keys, j + 1, targets, who);
    assert one.row == Reassigned(schema, rows[keys[j]], targets, who);
    if FittingFor(schema, indexes, f, rows, keys[..j + 1], targets, who) {
      AcceptsMoved(schema, p.schema, indexes, p.indexes, f, f', one.row);
      SameThen(f, f', g);
    }
  }

  lemma SameThen(f: seq<Rooted>, g: seq<Rooted>, h: seq<Rooted>)
    requires SameDisciplines(f, g) && SameDisciplines(g, h)
    ensures SameDisciplines(f, h)
  {
  }

  lemma KeyedMoved(schema: TableSchema, schema': TableSchema, row: Row)
    requires SchemaOk(schema') && schema'.columns == schema.columns && Keyed(schema', row)
    ensures SchemaOk(schema) && Keyed(schema, row) && RowKey(schema, row) == RowKey(schema', row)
  {
    hide EncodeKey;
  }

  lemma UpdatesNext(schema: TableSchema, rows: map<Key, Row>, rows': map<Key, Row>, rs: seq<Row>, keys: seq<Key>,
                    j: nat, targets: seq<(nat, Expr)>, who: Caller, events: seq<ChangeEvent>, row: Row)
    requires RowsOk(schema, rows) && TargetsOk(schema, targets) && Listed(rs, keys, rows) && j < |rs| == |keys|
    requires Updates(schema, rows, rows', keys[..j], targets, who, events)
    requires Keyed(schema, row) && RowKey(schema, row) == keys[j]
    requires RowOk(schema, rs[j]) && Assign(rs[j], targets, schema.columns, who) == NewRow(row)
    requires RowError(schema.columns, row) == None
    ensures keys[j] in rows' && rows'[keys[j]] == rs[j]
    ensures Updates(schema, rows, rows'[keys[j] := row], keys[..j + 1], targets, who,
                    events + [ChangeEvent(schema.name, Updated, Some(rs[j]), Some(row))])
  {
    hide Rank, CheckRow, EncodeKey, Listed, KeySet, Assign, Replay, Eval, UpdateEvents, RowsOk, TargetsOk, Sane, KeyIn;
    ListedRow(schema, rows, rs, keys, j);
    KeyInIs(schema, rs[j]);
    KeyInIs(schema, row);
    ReplayNext(schema, rows, events, ChangeEvent(schema.name, Updated, Some(rs[j]), Some(row)));
    assert row == Reassigned(schema, rows[keys[j]], targets, who);
    PutBack(rows', keys[j], row);
    RowsNext(schema, rows, rows', keys, j, targets, who, row);
    EventNext(schema, rows, keys, j, targets, who, events);
  }

  lemma KeyInIs(schema: TableSchema, row: Row)
    requires SchemaOk(schema) && Keyed(schema, row)
    ensures KeyIn(schema, row) == RowKey(schema, row)
  {
  }

  lemma RowsNext(schema: TableSchema, rows: map<Key, Row>, rows': map<Key, Row>, keys: seq<Key>, j: nat,
                 targets: seq<(nat, Expr)>, who: Caller, row: Row)
    requires RowsOk(schema, rows) && TargetsOk(schema, targets) && j < |keys| && keys[j] in rows
             && keys[j] !in keys[..j]
    requires rows'
             == (map k | k in rows :: if k in keys[..j] then Reassigned(schema, rows[k], targets, who) else rows[k])
    requires row == Reassigned(schema, rows[keys[j]], targets, who)
    ensures keys[j] in rows' && rows'[keys[j]] == rows[keys[j]]
    ensures rows'[keys[j] := row]
         == (map k | k in rows :: if k in keys[..j + 1] then Reassigned(schema, rows[k], targets, who) else rows[k])
  {
    hide Reassigned, CheckRow, RowKey, TargetsOk;
    assert keys[..j + 1] == keys[..j] + [keys[j]];
  }

  lemma EventNext(schema: TableSchema, rows: map<Key, Row>, keys: seq<Key>, j: nat, targets: seq<(nat, Expr)>,
                  who: Caller, events: seq<ChangeEvent>)
    requires RowsOk(schema, rows) && TargetsOk(schema, targets) && j < |keys| && keys[j] in rows
    requires UpdateEvents(schema, rows, keys[..j], targets, who, events)
    requires UpdateError(schema, rows[keys[j]], targets, who) == None
    ensures UpdateEvents(schema, rows, keys[..j + 1], targets, who,
                         events + [ChangeEvent(schema.name, Updated, Some(rows[keys[j]]),
                                               Some(Reassigned(schema, rows[keys[j]], targets, who)))])
  {
    hide Reassigned, CheckRow, RowKey, TargetsOk;
    assert keys[..j + 1] == keys[..j] + [keys[j]];
  }

  lemma UpdateFinished(m: map<PageNo, Page>, m': map<PageNo, Page>, schema: TableSchema, indexes: seq<IndexSchema>,
                       f: seq<Rooted>, rows: map<Key, Row>, p: Progress, f': seq<Rooted>, rows': map<Key, Row>,
                       keys: seq<Key>, j: nat, targets: seq<(nat, Expr)>, where: Option<Expr>, who: Caller)
    requires Updating(m, m', schema, indexes, f, rows, p, f', rows', keys, j, targets, who) && j == |keys|
    requires SaneUpdate(schema, rows, targets, where, who) ==> SaneFor(schema, rows, keys, targets, who)
    requires FittingUpdate(schema, indexes, f, rows, targets, where, who) ==>
             FittingFor(schema, indexes, f, rows, keys, targets, who)
    ensures UpdateDone(m, m', schema, indexes, f, rows, f', rows', keys, targets, where, who,
                       Modified(j, p.schema, p.indexes, p.events))
  {
    hide Upright, Updates, RowsOk, TargetsOk, SaneFor, FittingFor, Agree, SameDisciplines, SaneUpdate, FittingUpdate;
    assert keys[..j] == keys;
  }

  lemma UpdatesEnd(schema: TableSchema, rows: map<Key, Row>, rows': map<Key, Row>, rs: seq<Row>, keys: seq<Key>,
                   targets: seq<(nat, Expr)>, events: seq<ChangeEvent>, where: Option<Expr>, who: Caller)
    requires RowsOk(schema, rows) && TargetsOk(schema, targets)
    requires Listed(rs, keys, rows) && Updates(schema, rows, rows', keys, targets, who, events)
    ensures rows' == Replay(schema, rows, events) && |keys| == |events| && OnTable(schema.name, events)
    ensures UpdateEvents(schema, rows, keys, targets, who, events)
    ensures KeySet(keys) == SelectedKeys(schema, rows, where, who) ==>
              && KeysOfClause(keys, schema, rows, where, who)
              && rows' == AfterUpdate(schema, rows, where, targets, who)
              && |keys| == |SelectedKeys(schema, rows, where, who)|
  {
    hide Rank, Truthy, Replay, Assign, CheckRow, RowKey, Reassigned;
    KeyCount(keys);
    forall k | k in rows && KeySet(keys) == SelectedKeys(schema, rows, where, who)
      ensures k in keys <==> Passes(where, schema.columns, rows[k], who)
    {
      assert k in KeySet(keys) <==> k in keys;
    }
  }

  // ----- INSERT

  datatype Verdict = Pass | Deny | Broken(error: PlanError)

  /** The clause that a new row must satisfy: WITH CHECK, or else USING. */
  function CheckOf(p: Policy): Option<Expr> {
    if p.withCheck.Some? then p.withCheck else p.usingExpr
  }

  /** The policies are tried in order up to the first that lets the row through. */
  function JudgeRow(policies: seq<Policy>, columns: seq<Column>, row: Row, who: Caller): Verdict {
    if policies == [] then Deny
    else if CheckOf(policies[0]).None? then Pass
    else
      var v := Eval(CheckOf(policies[0]).value, columns, row, who);
      if v.Err? then Broken(v.e) else if IsTruthy(v.v) then Pass else JudgeRow(policies[1..], columns, row, who)
  }

  lemma {:induction false} JudgeMeans(policies: seq<Policy>, columns: seq<Column>, row: Row, who: Caller)
    ensures JudgeRow(policies, columns, row, who).Pass? ==>
            exists p :: p in policies && Passes(CheckOf(p), columns, row, who)
    ensures JudgeRow(policies, columns, row, who).Deny? ==> forall p :: p in policies ==>
            !Passes(CheckOf(p), columns, row, who)
  {
    if policies != [] {
      JudgeMeans(policies[1..], columns, row, who);
      assert policies == [policies[0]] + policies[1..];
      assert policies[0] in policies;
    }
  }

  method JudgeInsert(policies: seq<Policy>, columns: seq<Column>, row: Row, who: Caller) returns (v: Verdict)
    ensures v == JudgeRow(policies, columns, row, who)
  {
    hide Eval;
    var i := 0;
    assert policies[0..] == policies;
    while i < |policies|
      invariant 0 <= i <= |policies|
                && JudgeRow(policies, columns, row, who) == JudgeRow(policies[i..], columns, row, who)
    {
      assert policies[i..][1..] == policies[i + 1..];
      var check := CheckOf(policies[i]);
      if check.None? {
        return Pass;
      }
      var r := Eval(check.value, columns, row, who);
      if r.Err? {
        return Broken(r.e);
      }
      if IsTruthy(r.v) {
        return Pass;
      }
      i := i + 1;
    }
    return Deny;
  }

  /** Some policy for INSERT lets the new row in: by its WITH CHECK, or by its USING if it has none, or for want of
      either. */
  ghost predicate Admitted(policies: seq<Policy>, columns: seq<Column>, row: Row, who: Caller) {
    exists p :: p in policies && (p.cmd == ForInsert || p.cmd == ForAll) && Admits(p, columns, row, who)
  }

  predicate Admits(p: Policy, columns: seq<Column>, row: Row, who: Caller) {
    if p.withCheck.Some? then Eval(p.withCheck.value, columns, row, who) == Val(Boolean(true))
    else if p.usingExpr.Some? then Eval(p.usingExpr.value, columns, row, who) == Val(Boolean(true))
    else true
  }

  /** When security is on and the caller is no administrator. */
  ghost predicate AllAdmitted(schema: TableSchema, policies: seq<Policy>, rs: seq<Row>, who: Caller) {
    schema.rlsEnabled && !who.isAdmin ==>
      forall i :: 0 <= i < |rs| ==> Admitted(policies, schema.columns, rs[i], who)
  }

  ghost predicate AllJudged(policies: Option<seq<Policy>>, columns: seq<Column>, rs: seq<Row>, who: Caller) {
    policies.Some? ==> forall i :: 0 <= i < |rs| ==> JudgeRow(policies.value, columns, rs[i], who).Pass?
  }

  lemma JudgedAdmitted(schema: TableSchema, policies: seq<Policy>, rs: seq<Row>, who: Caller)
    requires AllJudged(PoliciesFor(schema, policies, who), schema.columns, rs, who)
    ensures AllAdmitted(schema, policies, rs, who)
  {
    hide JudgeRow, Matching, Eval;
    if schema.rlsEnabled && !who.isAdmin {
      var matching := Matching(policies, ForInsert);
      forall i | 0 <= i < |rs| ensures Admitted(policies, schema.columns, rs[i], who) {
        JudgeMeans(matching, schema.columns, rs[i], who);
        var p :| p in matching && Passes(CheckOf(p), schema.columns, rs[i], who);
        assert Admits(p, schema.columns, rs[i], who);
      }
    }
  }

  lemma FirstIn<T>(s: seq<T>)
    ensures s == [] || exists x :: x in s
  {
    assert s == [] || s[0] in s;
  }

  lemma NoPolicyForInsert(schema: TableSchema, policies: seq<Policy>, who: Caller)
    requires schema.rlsEnabled && !who.isAdmin
    requires forall p :: p in policies ==> p.cmd != ForInsert && p.cmd != ForAll
    ensures PoliciesFor(schema, policies, who) == Some([])
  {
    hide Matching;
    var matching := Matching(policies, ForInsert);
    FirstIn(matching);
  }

  lemma JudgedNext(policies: Option<seq<Policy>>, columns: seq<Column>, rs: seq<Row>, j: nat, who: Caller)
    requires j < |rs| && AllJudged(policies, columns, rs[..j], who)
    requires policies.Some? ==> JudgeRow(policies.value, columns, rs[j], who).Pass?
    ensures AllJudged(policies, columns, rs[..j + 1], who)
  {
    hide JudgeRow;
    assert rs[..j + 1] == rs[..j] + [rs[j]];
  }

  /** A column that is NOT NULL and was given none, or the number of columns. */
  function MissingColumn(columns: seq<Column>, row: Row): (i: nat)
    requires |row| == |columns|
    ensures i <= |columns|
    ensures i < |columns| ==> columns[i].notNull && row[i] == Null
    ensures forall j :: 0 <= j < i ==> !(columns[j].notNull && row[j] == Null)
  {
    if columns == [] || (columns[0].notNull && row[0] == Null) then 0 else 1 + MissingColumn(columns[1..], row[1..])
  }

  /** Why a row is not inserted. */
  ghost predicate Refuses(schema: TableSchema, policies: Option<seq<Policy>>, who: Caller, rows: map<Key, Row>,
                          row: Row)
    requires SchemaOk(schema)
  {
    || |row| != |schema.columns|
    || CheckRow(schema.columns, row, 0).Some?
    || (policies.Some? && !JudgeRow(policies.value, schema.columns, row, who).Pass?)
    || KeyIn(schema, row) in rows
  }

  /** Why a row is turned away before anything is written. */
  function Turned(schema: TableSchema, policies: Option<seq<Policy>>, who: Caller, row: Row): Option<StatementError> {
    if |row| != |schema.columns| then Some(ColumnCountMismatch(|schema.columns|, |row|)) else
      var i := MissingColumn(schema.columns, row);
      var v := if policies.Some? then JudgeRow(policies.value, schema.columns, row, who) else Pass;
      var e := RowError(schema.columns, row);
      if i < |schema.columns| then Some(Exec(NotNullViolation(schema.columns[i].name)))
      else if v.Broken? then Some(Plan(v.error))
      else if v.Deny? then Some(PolicyViolation)
      else if e.Some? then Some(Exec(e.value)) else None
  }

  /** Why an INSERT stops at a row: it is turned away, or its key is taken, or there is no room. */
  ghost predicate InsertFails(schema: TableSchema, policies: Option<seq<Policy>>, who: Caller, rows: map<Key, Row>,
                              row: Row, e: StatementError) {
    var turned := Turned(schema, policies, who, row);
    if turned.Some? then e == turned.value
    else NoRoom(e) || (e == Exec(DuplicatePrimaryKey) && KeyIn(schema, row) in rows)
  }

  /** The rows before went in, with an event each, and then this one could not. */
  ghost predicate InsertStops(schema: TableSchema, policies: Option<seq<Policy>>, who: Caller, rows: map<Key, Row>,
                              rs: seq<Row>, e: StatementError, sofar: seq<ChangeEvent>)
    requires SchemaOk(schema)
  {
    && |sofar| < |rs| && sofar == InsertEvents(schema.name, rs[..|sofar|])
    && (AllSane(schema, rs) ==>
          && Inserts(schema, policies, who, rows, Replay(schema, rows, sofar), rs[..|sofar|])
          && InsertFails(schema, policies, who, Replay(schema, rows, sofar), rs[|sofar|], e))
  }

  function InsertEvents(table: string, rs: seq<Row>): (r: seq<ChangeEvent>)
    ensures |r| == |rs|
  {
    seq(|rs|, i requires 0 <= i < |rs| => ChangeEvent(table, Inserted, None, Some(rs[i])))
  }

  ghost predicate AllSane(schema: TableSchema, rs: seq<Row>) {
    forall i :: 0 <= i < |rs| ==> Sane(schema, rs[i])
  }

  ghost predicate AllAccepted(schema: TableSchema, indexes: seq<IndexSchema>, f: seq<Rooted>, rs: seq<Row>) {
    forall i :: 0 <= i < |rs| ==> Accepts(schema, indexes, f, rs[i])
  }

  /** Some row is refused once those before it are in. */
  ghost predicate RefusesSome(schema: TableSchema, policies: Option<seq<Policy>>, who: Caller, rows: map<Key, Row>,
                              rs: seq<Row>)
    requires SchemaOk(schema)
  {
    exists j :: 0 <= j < |rs|
      && Refuses(schema, policies, who, Replay(schema, rows, InsertEvents(schema.name, rs[..j])), rs[j])
  }

  /** The first rows are in: none was refused, each under a key that was free. */
  ghost predicate Inserts(schema: TableSchema, policies: Option<seq<Policy>>, who: Caller, rows: map<Key, Row>,
                          rows': map<Key, Row>, rs: seq<Row>)
    requires SchemaOk(schema)
  {
    && rows' == Replay(schema, rows, InsertEvents(schema.name, rs))
    && (forall i :: 0 <= i < |rs| ==>
          !Refuses(schema, policies, who, Replay(schema, rows, InsertEvents(schema.name, rs[..i])), rs[i]))
    && (forall k :: k in rows ==> k in rows' && rows'[k] == rows[k])
  }

  lemma InsertsNext(schema: TableSchema, policies: Option<seq<Policy>>, who: Caller, rows: map<Key, Row>,
                    rows': map<Key, Row>, rs: seq<Row>, j: nat)
    requires SchemaOk(schema) && j < |rs|
    requires Inserts(schema, policies, who, rows, rows', rs[..j]) && !Refuses(schema, policies, who, rows', rs[j])
    ensures Inserts(schema, policies, who, rows, rows'[KeyIn(schema, rs[j]) := rs[j]], rs[..j + 1])
  {
    hide Refuses, KeyIn, Replay, InsertEvents;
    FreshKey(schema, policies, who, rows', rs[j]);
    EventsNext(schema.name, rs, j);
    ReplayNext(schema, rows, InsertEvents(schema.name, rs[..j]), ChangeEvent(schema.name, Inserted, None, Some(rs[j])));
    forall i | 0 <= i < j + 1 ensures rs[..j + 1][i] == rs[i] && rs[..j + 1][..i] == rs[..i] {
    }
    forall i | 0 <= i < j
      ensures !Refuses(schema, policies, who, Replay(schema, rows, InsertEvents(schema.name, rs[..i])), rs[i])
    {
      assert rs[..j][..i] == rs[..i] && rs[..j][i] == rs[i];
    }
  }

  lemma EventsNext(table: string, rs: seq<Row>, j: nat)
    requires j < |rs|
    ensures InsertEvents(table, rs[..j + 1])
            == InsertEvents(table, rs[..j]) + [ChangeEvent(table, Inserted, None, Some(rs[j]))]
  {
  }

  lemma FreshKey(schema: TableSchema, policies: Option<seq<Policy>>, who: Caller, rows: map<Key, Row>, row: Row)
    requires SchemaOk(schema) && !Refuses(schema, policies, who, rows, row)
    ensures KeyIn(schema, row) !in rows
  {
  }

  /** Puts all the rows in, and stops at the first that is refused. */
  method ExecuteInsert(pager: Pager, schema: TableSchema, indexes: seq<IndexSchema>, policies: seq<Policy>,
                       rs: seq<Row>, who: Caller, ghost f: seq<Rooted>, ghost rows: map<Key, Row>)
    returns (r: StatementResult, ghost f': seq<Rooted>, ghost rows': map<Key, Row>)
    requires pager.Valid() && Planted(pager.pages, f) && Agree(schema, indexes, f, rows) && DistinctNames(indexes)
    modifies pager
    ensures pager.Valid() && SchemaOk(schema)
    ensures r.Modified? ==>
              && Upright(old(pager.pages), pager.pages, schema, indexes, f, r.schema, r.indexes, f')
              && rows' == Replay(schema, rows, r.events) && r.events == InsertEvents(schema.name, rs) && r.count == |rs|
              && (AllAccepted(schema, indexes, f, rs) ==> SameDisciplines(f, f'))
    ensures r.Modified? ==> AllAdmitted(schema, policies, rs, who)
    ensures schema.rlsEnabled && !who.isAdmin
            && (forall p :: p in policies ==> p.cmd != ForInsert && p.cmd != ForAll) ==>
              r == Aborted(PolicyViolation, [])
    ensures r.Modified? && AllSane(schema, rs) ==>
              && Agree(r.schema, r.indexes, f', rows')
              && Inserts(schema, PoliciesFor(schema, policies, who), who, rows, rows', rs)
    ensures r.Aborted? && AllSplit(f) && AllSane(schema, rs) && AllAccepted(schema, indexes, f, rs) ==>
              || PoliciesFor(schema, policies, who) == Some([])
              || RefusesSome(schema, PoliciesFor(schema, policies, who), who, rows, rs)
    ensures r.Aborted? ==>
              && rows' == Replay(schema, rows, r.sofar)
              && if PoliciesFor(schema, policies, who) == Some([]) then r == Aborted(PolicyViolation, [])
                 else InsertStops(schema, PoliciesFor(schema, policies, who), who, rows, rs, r.error, r.sofar)
    ensures r.Aborted? && ForRoom(r.error) ==>
              |r.sofar| < |rs| && RanOut(old(pager.pages), schema, indexes, f, rows, rs, |r.sofar|, r.error)
    ensures r.Aborted? && !NoRoom(r.error) && AllSane(schema, rs) ==>
              Stranded(old(pager.pages), pager.pages, schema, indexes, f, f', rows')
    ensures r.Aborted? && AllSplit(f) && AllSane(schema, rs) && AllAccepted(schema, indexes, f, rs) ==>
              !NoRoom(r.error)
  {
    UprightStart(pager.pages, schema, indexes, f, rows);
    StrandedStart(pager.pages, schema, indexes, f, rows);
    assert Replay(schema, rows, []) == rows;
    assert !NoRoom(PolicyViolation);
    if schema.rlsEnabled && !who.isAdmin && forall p :: p in policies ==> p.cmd != ForInsert && p.cmd != ForAll {
      NoPolicyForInsert(schema, policies, who);
    }
    hide *;
    var applicable := PoliciesFor(schema, policies, who);
    if applicable == Some([]) {
      return Aborted(PolicyViolation, []), f, rows;
    }
    r, f', rows' := InsertAll(pager, schema, indexes, applicable, rs, who, f, rows);
    if r.Modified? {
      JudgedAdmitted(schema, policies, rs, who);
    }
  }

  /** The policies that the new rows must satisfy one of, unless security is off or skipped. */
  function PoliciesFor(schema: TableSchema, policies: seq<Policy>, who: Caller): Option<seq<Policy>> {
    if schema.rlsEnabled && !who.isAdmin then Some(Matching(policies, ForInsert)) else None
  }

  /** With the rows before it in the table, one of the trees had no room for row `j`. */
  ghost predicate RanOut(m0: map<PageNo, Page>, schema: TableSchema, indexes: seq<IndexSchema>, f: seq<Rooted>,
                         rows: map<Key, Row>, rs: seq<Row>, j: nat, e: StatementError)
    requires ForRoom(e) && j < |rs|
  {
    exists m, schema', indexes', f' ::
      && Upright(m0, m, schema, indexes, f, schema', indexes', f')
      && (AllSane(schema, rs[..j]) ==>
            Agree(schema', indexes', f', Replay(schema, rows, InsertEvents(schema.name, rs[..j]))))
      && SomeCrowded(schema', indexes', rs[j], f', e.exec.error)
  }

  lemma RanOutAt(m0: map<PageNo, Page>, m: map<PageNo, Page>, schema: TableSchema, indexes: seq<IndexSchema>,
                 f: seq<Rooted>, p: Progress, f': seq<Rooted>, policies: Option<seq<Policy>>, who: Caller,
                 rows: map<Key, Row>, rows': map<Key, Row>, rs: seq<Row>, j: nat, e: StatementError)
    requires Inserting(m0, m, schema, indexes, f, policies, who, rows, p, f', rows', rs, j) && j < |rs|
    requires ForRoom(e) && SomeCrowded(p.schema, p.indexes, rs[j], f', e.exec.error)
    ensures RanOut(m0, schema, indexes, f, rows, rs, j, e)
  {
    hide Upright, SomeCrowded, Agree, Inserts, AllSane, AllAccepted, Replay, InsertEvents;
  }

  /** The checks on one row, and the write. */
  method InsertOne(pager: Pager, schema: TableSchema, indexes: seq<IndexSchema>, policies: Option<seq<Policy>>,
                   row: Row, who: Caller, ghost f: seq<Rooted>, ghost rows: map<Key, Row>)
    returns (r: RowWrite, ghost f': seq<Rooted>)
    requires pager.Valid() && Grounded(pager.pages, schema, indexes, f)
    requires SchemaOk(schema)
    modifies pager
    ensures pager.Valid()
    ensures |row| != |schema.columns| ==> r == NotWritten(ColumnCountMismatch(|schema.columns|, |row|))
    ensures r.Wrote? ==>
              && r.row == row && Keyed(schema, row)
              && (policies.Some? ==> JudgeRow(policies.value, schema.columns, row, who).Pass?)
              && Moved(old(pager.pages), pager.pages, schema, indexes, f, f', r.written)
              && (Accepts(schema, indexes, f, row) ==> SameDisciplines(f, f'))
    ensures r.Wrote? && Sane(schema, row) && Agree(schema, indexes, f, rows) ==>
              && !Refuses(schema, policies, who, rows, row)
              && Committed(old(pager.pages), pager.pages, schema, indexes, f, f', r.written,
                 rows[RowKey(schema, row) := row])
    ensures r.NotWritten? && Sane(schema, row) && Agree(schema, indexes, f, rows)
            && AllSplit(f) && Accepts(schema, indexes, f, row) ==>
              Refuses(schema, policies, who, rows, row) && !NoRoom(r.error)
    ensures r.NotWritten? && !NoRoom(r.error) ==> pager.pages == old(pager.pages) && f' == f
    ensures r.NotWritten? && ForRoom(r.error) ==> SomeCrowded(schema, indexes, row, f, r.error.exec.error)
    ensures r.NotWritten? && Sane(schema, row) && Agree(schema, indexes, f, rows) ==>
              InsertFails(schema, policies, who, rows, row, r.error)
  {
    RefusesIs(schema, policies, who, rows, row);
    if |row| != |schema.columns| {
      CountTurned(schema, policies, who, rows, row);
      return NotWritten(ColumnCountMismatch(|schema.columns|, |row|)), f;
    }
    CheckRowMeans(schema.columns, row, 0);
    hide *;
    GroundedFacts(pager.pages, schema, indexes, f);
    var i := MissingColumn(schema.columns, row);
    if i < |schema.columns| {
      NullTurned(schema, policies, who, rows, row);
      return NotWritten(Exec(NotNullViolation(schema.columns[i].name))), f;
    }
    if policies.Some? {
      PolicyTurned(schema, policies, who, rows, row);
      var v := JudgeInsert(policies.value, schema.columns, row, who);
      if v.Broken? {
        return NotWritten(Plan(v.error)), f;
      }
      if v.Deny? {
        return NotWritten(PolicyViolation), f;
      }
    }
    ghost var m0 := pager.pages;
    var w, g := InsertRow(pager, schema, indexes, row, f);
    InsertOutcome(m0, pager.pages, schema, indexes, f, g, w, row, rows);
    if w.Rejected? {
      if Sane(schema, row) && Agree(schema, indexes, f, rows) {
        WriteTurned(schema, policies, who, rows, row, w.error);
      }
      return NotWritten(Exec(w.error)), g;
    }
    return Wrote(row, w), g;
  }

  /** What the outcome of the write means for a table that agrees with its indexes. */
  lemma InsertOutcome(m: map<PageNo, Page>, m': map<PageNo, Page>, schema: TableSchema, indexes: seq<IndexSchema>,
                      f: seq<Rooted>, f': seq<Rooted>, w: WriteResult, row: Row, rows: map<Key, Row>)
    requires RootedAt(schema, indexes, f) && SchemaOk(schema) && |row| == |schema.columns|
    requires w.Written? ==>
               && Moved(m, m', schema, indexes, f, f', w) && Keyed(schema, row)
               && Fitting(schema, indexes, row, f) && PutIn(schema, indexes, row, f, f', |f|)
    requires RowError(schema.columns, row).Some? ==> w.Rejected?
    requires var e := RowError(schema.columns, row); e.Some? ==> w == Rejected(e.value)
    requires w.Rejected? && RowError(schema.columns, row) == None ==>
               && Keyed(schema, row) && |f| > 0
               && (!w.error.Store? ==> w.error.DuplicatePrimaryKey? && RowKey(schema, row) in ModelOf(f[0]))
               && (w.error == Store(DuplicateKey) ==>
                     && Fitting(schema, indexes, row, f) && !NewTo(schema, indexes, row, f, 1)
                     && RowKey(schema, row) !in ModelOf(f[0]))
    requires w.Rejected? && RowError(schema.columns, row) == None && AllSplit(f) && Accepts(schema, indexes, f, row) ==>
               && Fitting(schema, indexes, row, f) && !NewTo(schema, indexes, row, f, 0)
               && (w.error.Store? ==> w.error == Store(DuplicateKey))
    ensures w.Written? && Accepts(schema, indexes, f, row) ==> SameDisciplines(f, f')
    ensures w.Written? && Sane(schema, row) && Agree(schema, indexes, f, rows) ==>
              && RowOk(schema, row) && RowKey(schema, row) !in rows
              && Committed(m, m', schema, indexes, f, f', w, rows[RowKey(schema, row) := row])
    ensures w.Rejected? && Sane(schema, row) && Agree(schema, indexes, f, rows) && AllSplit(f)
            && Accepts(schema, indexes, f, row) ==>
              && (CheckRow(schema.columns, row, 0).Some? || (RowOk(schema, row) && RowKey(schema, row) in rows))
              && !w.error.Store?
    ensures w.Rejected? && Sane(schema, row) && Agree(schema, indexes, f, rows) && !w.error.Store?
            && RowError(schema.columns, row) == None ==>
              RowOk(schema, row) && w.error.DuplicatePrimaryKey? && RowKey(schema, row) in rows
  {
    RowErrorMeans(schema, row);
    hide Moved, PutIn, NewTo, Accepts, Agree, CheckRow, Keyed, RowError, AllSplit, RootedAt, SchemaOk, RowTyped, RowKey,
      Committed, JsonClean;
    if w.Written? && Accepts(schema, indexes, f, row) {
      AcceptedSame(schema, indexes, row, f, f');
    }
    if Sane(schema, row) && Agree(schema, indexes, f, rows) {
      if w.Written? {
        InsertAgrees(m, m', schema, indexes, f, f', w, row, rows);
      } else if RowError(schema.columns, row) == None {
        AgreeAlike(schema, indexes, f, rows);
        NewEverywhere(schema, indexes, f, row, rows);
      }
    }
  }

  lemma CountTurned(schema: TableSchema, policies: Option<seq<Policy>>, who: Caller, rows: map<Key, Row>, row: Row)
    requires |row| != |schema.columns|
    ensures InsertFails(schema, policies, who, rows, row, ColumnCountMismatch(|schema.columns|, |row|))
  {
  }

  lemma NullTurned(schema: TableSchema, policies: Option<seq<Policy>>, who: Caller, rows: map<Key, Row>, row: Row)
    requires |row| == |schema.columns| && MissingColumn(schema.columns, row) < |schema.columns|
    ensures var name := schema.columns[MissingColumn(schema.columns, row)].name;
            InsertFails(schema, policies, who, rows, row, Exec(NotNullViolation(name)))
  {
    hide JudgeRow, RowError;
  }

  lemma PolicyTurned(schema: TableSchema, policies: Option<seq<Policy>>, who: Caller, rows: map<Key, Row>, row: Row)
    requires |row| == |schema.columns| == MissingColumn(schema.columns, row) && policies.Some?
    ensures match JudgeRow(policies.value, schema.columns, row, who)
            case Broken(e) => InsertFails(schema, policies, who, rows, row, Plan(e))
            case Deny => InsertFails(schema, policies, who, rows, row, PolicyViolation)
            case Pass => true
  {
    hide JudgeRow, RowError;
  }

  lemma WriteTurned(schema: TableSchema, policies: Option<seq<Policy>>, who: Caller, rows: map<Key, Row>, row: Row,
                    e: ExecError)
    requires |row| == |schema.columns| == MissingColumn(schema.columns, row)
    requires policies.Some? ==> JudgeRow(policies.value, schema.columns, row, who).Pass?
    requires SchemaOk(schema)
    requires var known := RowError(schema.columns, row);
             if known.Some? then e == known.value
             else e.Store? || (e.DuplicatePrimaryKey? && RowOk(schema, row) && RowKey(schema, row) in rows)
    ensures InsertFails(schema, policies, who, rows, row, Exec(e))
  {
    hide JudgeRow, RowError, RowKey, CheckRow;
  }

  lemma RefusesIs(schema: TableSchema, policies: Option<seq<Policy>>, who: Caller, rows: map<Key, Row>, row: Row)
    requires SchemaOk(schema)
    ensures |row| != |schema.columns| ==> Refuses(schema, policies, who, rows, row)
    ensures Sane(schema, row) ==> (RowOk(schema, row) <==> CheckRow(schema.columns, row, 0) == None)
    ensures Sane(schema, row) ==>
              (Refuses(schema, policies, who, rows, row) <==>
                 || CheckRow(schema.columns, row, 0).Some?
                 || (policies.Some? && !JudgeRow(policies.value, schema.columns, row, who).Pass?)
                 || (RowOk(schema, row) && RowKey(schema, row) in rows))
  {
    hide CheckRow, RowKey, JudgeRow;
  }

  ghost predicate Inserting(m: map<PageNo, Page>, m': map<PageNo, Page>, schema: TableSchema, indexes: seq<IndexSchema>,
                            f: seq<Rooted>, policies: Option<seq<Policy>>, who: Caller, rows: map<Key, Row>,
                            p: Progress, f': seq<Rooted>, rows': map<Key, Row>, rs: seq<Row>, j: nat) {
    && SchemaOk(schema) && j <= |rs|
    && Upright(m, m', schema, indexes, f, p.schema, p.indexes, f')
    && p.events == InsertEvents(schema.name, rs[..j]) && rows' == Replay(schema, rows, p.events)
    && AllJudged(policies, schema.columns, rs[..j], who)
    && (AllAccepted(schema, indexes, f, rs[..j]) ==> SameDisciplines(f, f'))
    && (AllSane(schema, rs[..j]) ==>
          Agree(p.schema, p.indexes, f', rows') && Inserts(schema, policies, who, rows, rows', rs[..j]))
  }

  /** The loop of an INSERT. */
  method InsertAll(pager: Pager, schema: TableSchema, indexes: seq<IndexSchema>, policies: Option<seq<Policy>>,
                   rs: seq<Row>, who: Caller, ghost f: seq<Rooted>, ghost rows: map<Key, Row>)
    returns (r: StatementResult, ghost f': seq<Rooted>, ghost rows': map<Key, Row>)
    requires pager.Valid() && Planted(pager.pages, f) && Agree(schema, indexes, f, rows) && DistinctNames(indexes)
    requires SchemaOk(schema)
    modifies pager
    ensures pager.Valid()
    ensures r.Modified? ==>
              && Upright(old(pager.pages), pager.pages, schema, indexes, f, r.schema, r.indexes, f')
              && rows' == Replay(schema, rows, r.events) && r.events == InsertEvents(schema.name, rs) && r.count == |rs|
              && (AllAccepted(schema, indexes, f, rs) ==> SameDisciplines(f, f'))
              && AllJudged(policies, schema.columns, rs, who)
    ensures r.Modified? && AllSane(schema, rs) ==>
              Agree(r.schema, r.indexes, f', rows') && Inserts(schema, policies, who, rows, rows', rs)
    ensures r.Aborted? && AllSplit(f) && AllSane(schema, rs) && AllAccepted(schema, indexes, f, rs) ==>
              RefusesSome(schema, policies, who, rows, rs) && !NoRoom(r.error)
    ensures r.Aborted? ==>
              rows' == Replay(schema, rows, r.sofar) && InsertStops(schema, policies, who, rows, rs, r.error, r.sofar)
    ensures r.Aborted? && ForRoom(r.error) ==>
              |r.sofar| < |rs| && RanOut(old(pager.pages), schema, indexes, f, rows, rs, |r.sofar|, r.error)
    ensures r.Aborted? && !NoRoom(r.error) && AllSane(schema, rs) ==>
              Stranded(old(pager.pages), pager.pages, schema, indexes, f, f', rows')
  {
    ghost var m0 := pager.pages;
    InsertStarts(m0, schema, indexes, f, policies, who, rows, rs);
    hide *;
    f', rows' := f, rows;
    var p := Progress(schema, indexes, []);
    var j := 0;
    while j < |rs|
      invariant 0 <= j <= |rs| && pager.Valid()
      invariant Inserting(m0, pager.pages, schema, indexes, f, policies, who, rows, p, f', rows', rs, j)
    {
      var one, p', g := InsertStep(pager, p, policies, rs, j, who, m0, schema, indexes, f, rows, f', rows');
      if one.NotWritten? {
        InsertHalts(m0, pager.pages, schema, indexes, f, policies, who, rows, p, g, rows', rs, j, one.error);
        return Aborted(one.error, p.events), g, rows';
      }
      p, f', rows' := p', g, rows'[KeyIn(schema, rs[j]) := rs[j]];
      j := j + 1;
    }
    InsertFinished(m0, pager.pages, schema, indexes, f, policies, who, rows, p, f', rows', rs, j);
    r := Modified(j, p.schema, p.indexes, p.events);
  }

  /** The next row of an INSERT. */
  method InsertStep(pager: Pager, p: Progress, policies: Option<seq<Policy>>, rs: seq<Row>, j: nat, who: Caller,
                    ghost m0: map<PageNo, Page>, schema: TableSchema, ghost indexes: seq<IndexSchema>,
                    ghost f: seq<Rooted>, ghost rows: map<Key, Row>, ghost f': seq<Rooted>, ghost rows': map<Key, Row>)
    returns (one: RowWrite, p': Progress, ghost g: seq<Rooted>)
    requires pager.Valid() && j < |rs|
    requires Inserting(m0, pager.pages, schema, indexes, f, policies, who, rows, p, f', rows', rs, j)
    modifies pager
    ensures pager.Valid() && SchemaOk(schema)
    ensures one.Wrote? ==>
              Inserting(m0, pager.pages, schema, indexes, f, policies, who, rows, p', g,
                        rows'[KeyIn(schema, rs[j]) := rs[j]], rs, j + 1)
    ensures one.NotWritten? && AllSplit(f) && AllSane(schema, rs) && AllAccepted(schema, indexes, f, rs) ==>
              RefusesSome(schema, policies, who, rows, rs) && !NoRoom(one.error)
    ensures one.NotWritten? && ForRoom(one.error) ==> RanOut(m0, schema, indexes, f, rows, rs, j, one.error)
    ensures one.NotWritten? ==>
              && p.events == InsertEvents(schema.name, rs[..j]) && rows' == Replay(schema, rows, p.events)
              && (AllSane(schema, rs) ==>
                    && Inserts(schema, policies, who, rows, rows', rs[..j])
                    && InsertFails(schema, policies, who, rows', rs[j], one.error))
              && (!NoRoom(one.error) ==>
                    Inserting(m0, pager.pages, schema, indexes, f, policies, who, rows, p, g, rows', rs, j))
  {
    hide *;
    ghost var m1 := pager.pages;
    InsertNext(m0, m1, schema, indexes, f, policies, who, rows, p, f', rows', rs, j);
    one, g := InsertOne(pager, p.schema, p.indexes, policies, rs[j], who, f', rows');
    p' := p;
    if one.NotWritten? && ForRoom(one.error) {
      RanOutAt(m0, m1, schema, indexes, f, p, f', policies, who, rows, rows', rs, j, one.error);
    }
    if one.Wrote? {
      InsertDone(m0, m1, pager.pages, schema, indexes, f, policies, who, rows, p, f', rows', rs, j, one, g);
      p' := Advanced(p, one, ChangeEvent(schema.name, Inserted, None, Some(rs[j])));
    }
  }

  lemma InsertHalts(m: map<PageNo, Page>, m': map<PageNo, Page>, schema: TableSchema, indexes: seq<IndexSchema>,
                    f: seq<Rooted>, policies: Option<seq<Policy>>, who: Caller, rows: map<Key, Row>, p: Progress,
                    g: seq<Rooted>, rows': map<Key, Row>, rs: seq<Row>, j: nat, e: StatementError)
    requires j < |rs| && p.events == InsertEvents(schema.name, rs[..j]) && rows' == Replay(schema, rows, p.events)
    requires SchemaOk(schema)
    requires AllSane(schema, rs) ==>
               && Inserts(schema, policies, who, rows, rows', rs[..j])
               && InsertFails(schema, policies, who, rows', rs[j], e)
    requires !NoRoom(e) ==> Inserting(m, m', schema, indexes, f, policies, who, rows, p, g, rows', rs, j)
    ensures InsertStops(schema, policies, who, rows, rs, e, p.events)
    ensures !NoRoom(e) && AllSane(schema, rs) ==> Stranded(m, m', schema, indexes, f, g, rows')
  {
    hide Upright, Inserts, Agree, Replay, Sane, Accepts, InsertFails, Stranded;
    SomeRows(schema, indexes, f, rs, j);
    if !NoRoom(e) && AllSane(schema, rs) {
      UprightFacts(m, m', schema, indexes, f, p.schema, p.indexes, g);
      AgreeAlike(p.schema, p.indexes, g, rows');
      StandingStranded(m, m', schema, indexes, f, p.schema, p.indexes, g, rows');
    }
  }

  lemma StandingStranded(m: map<PageNo, Page>, m': map<PageNo, Page>, schema: TableSchema, indexes: seq<IndexSchema>,
                         f: seq<Rooted>, schema': TableSchema, indexes': seq<IndexSchema>, g: seq<Rooted>,
                         rows': map<Key, Row>)
    requires Upright(m, m', schema, indexes, f, schema', indexes', g) && Alike(schema', indexes', g, rows')
    ensures Stranded(m, m', schema, indexes, f, g, rows')
  {
    hide Planted, Alike;
    AlikeMoved(schema, schema', indexes, indexes', g, rows');
  }

  lemma InsertStarts(m: map<PageNo, Page>, schema: TableSchema, indexes: seq<IndexSchema>, f: seq<Rooted>,
                     policies: Option<seq<Policy>>, who: Caller, rows: map<Key, Row>, rs: seq<Row>)
    requires Planted(m, f) && Agree(schema, indexes, f, rows) && DistinctNames(indexes)
    ensures Inserting(m, m, schema, indexes, f, policies, who, rows, Progress(schema, indexes, []), f, rows, rs, 0)
  {
    hide Planted, Agree, CheckRow, RowKey, Upright, Accepts, Sane;
    UprightStart(m, schema, indexes, f, rows);
    assert rs[..0] == [] && InsertEvents(schema.name, []) == [];
  }

  lemma SomeRows(schema: TableSchema, indexes: seq<IndexSchema>, f: seq<Rooted>, rs: seq<Row>, j: nat)
    requires j <= |rs|
    ensures AllSane(schema, rs) ==> AllSane(schema, rs[..j])
    ensures AllAccepted(schema, indexes, f, rs) ==> AllAccepted(schema, indexes, f, rs[..j])
    ensures j > 0 ==>
              && (AllSane(schema, rs[..j]) <==> AllSane(schema, rs[..j - 1]) && Sane(schema, rs[j - 1]))
              && (AllAccepted(schema, indexes, f, rs[..j]) <==>
                    AllAccepted(schema, indexes, f, rs[..j - 1]) && Accepts(schema, indexes, f, rs[j - 1]))
  {
    hide Sane, Accepts;
    if j > 0 {
      assert rs[..j] == rs[..j - 1] + [rs[j - 1]];
    }
  }

  lemma InsertNext(m: map<PageNo, Page>, m': map<PageNo, Page>, schema: TableSchema, indexes: seq<IndexSchema>,
                   f: seq<Rooted>, policies: Option<seq<Policy>>, who: Caller, rows: map<Key, Row>, p: Progress,
                   f': seq<Rooted>, rows': map<Key, Row>, rs: seq<Row>, j: nat)
    requires Inserting(m, m', schema, indexes, f, policies, who, rows, p, f', rows', rs, j) && j < |rs|
    ensures Grounded(m', p.schema, p.indexes, f')
    ensures SchemaOk(p.schema) && SchemaOk(schema)
    ensures AllSane(schema, rs) ==>
              && Sane(p.schema, rs[j]) && Agree(p.schema, p.indexes, f', rows')
              && Inserts(schema, policies, who, rows, rows', rs[..j])
    ensures AllAccepted(schema, indexes, f, rs) ==>
            (AllSplit(f) ==> AllSplit(f')) && Accepts(p.schema, p.indexes, f', rs[j])
    ensures Refuses(p.schema, policies, who, rows', rs[j]) ==> RefusesSome(schema, policies, who, rows, rs)
    ensures p.events == InsertEvents(schema.name, rs[..j]) && rows' == Replay(schema, rows, p.events)
    ensures forall e :: InsertFails(p.schema, policies, who, rows', rs[j], e) ==>
                          InsertFails(schema, policies, who, rows', rs[j], e)
  {
    hide Planted, Agree, CheckRow, EncodeKey, Upright, Accepts, Replay, JudgeRow, JsonClean;
    UprightFacts(m, m', schema, indexes, f, p.schema, p.indexes, f');
    SomeRows(schema, indexes, f, rs, j);
    if AllAccepted(schema, indexes, f, rs) {
      AcceptsMoved(schema, p.schema, indexes, p.indexes, f, f', rs[j]);
    }
    assert KeyIn(p.schema, rs[j]) == KeyIn(schema, rs[j]);
    assert Refuses(p.schema, policies, who, rows', rs[j]) <==> Refuses(schema, policies, who, rows', rs[j]);
  }

  lemma InsertDone(m: map<PageNo, Page>, m1: map<PageNo, Page>, m2: map<PageNo, Page>, schema: TableSchema,
                   indexes: seq<IndexSchema>, f: seq<Rooted>, policies: Option<seq<Policy>>, who: Caller,
                   rows: map<Key, Row>, p: Progress, f': seq<Rooted>, rows': map<Key, Row>, rs: seq<Row>, j: nat,
                   one: RowWrite, g: seq<Rooted>)
    requires j < |rs| && one.Wrote? && one.row == rs[j]
    requires policies.Some? ==> JudgeRow(policies.value, p.schema.columns, rs[j], who).Pass?
    requires Inserting(m, m1, schema, indexes, f, policies, who, rows, p, f', rows', rs, j)
    requires SchemaOk(p.schema) && Keyed(p.schema, rs[j]) && Moved(m1, m2, p.schema, p.indexes, f', g, one.written)
    requires Accepts(p.schema, p.indexes, f', rs[j]) ==> SameDisciplines(f', g)
    requires Sane(p.schema, rs[j]) && Agree(p.schema, p.indexes, f', rows') ==>
               && !Refuses(p.schema, policies, who, rows', rs[j])
               && Committed(m1, m2, p.schema, p.indexes, f', g, one.written, rows'[RowKey(p.schema, rs[j]) := rs[j]])
    ensures one.written.Written?
    ensures var e := ChangeEvent(schema.name, Inserted, None, Some(rs[j]));
            Inserting(m, m2, schema, indexes, f, policies, who, rows, Advanced(p, one, e), g,
                      rows'[KeyIn(schema, rs[j]) := rs[j]], rs, j + 1)
  {
    hide CheckRow, EncodeKey, Replay, Upright, RowKey, Inserts, InsertEvents, Agree, Planted, Moved, Keyed, Accepts,
      AllSane, AllAccepted, AllJudged, JudgeRow, JsonClean;
    UprightFacts(m, m1, schema, indexes, f, p.schema, p.indexes, f');
    assert KeyIn(p.schema, rs[j]) == KeyIn(schema, rs[j]) == RowKey(p.schema, rs[j]);
    UprightThen(m, m1, m2, schema, indexes, f, p.schema, p.indexes, f', g, one.written);
    SomeRows(schema, indexes, f, rs, j + 1);
    EventsNext(schema.name, rs, j);
    JudgedNext(policies, schema.columns, rs, j, who);
    ReplayNext(schema, rows, p.events, ChangeEvent(schema.name, Inserted, None, Some(rs[j])));
    if AllAccepted(schema, indexes, f, rs[..j + 1]) {
      AcceptsMoved(schema, p.schema, indexes, p.indexes, f, f', rs[j]);
      SameThen(f, f', g);
    }
    if AllSane(schema, rs[..j + 1]) {
      InsertsNext(schema, policies, who, rows, rows', rs, j);
    }
  }

  lemma InsertFinished(m: map<PageNo, Page>, m': map<PageNo, Page>, schema: TableSchema, indexes: seq<IndexSchema>,
                       f: seq<Rooted>, policies: Option<seq<Policy>>, who: Caller, rows: map<Key, Row>, p: Progress,
                       f': seq<Rooted>, rows': map<Key, Row>, rs: seq<Row>, j: nat)
    requires Inserting(m, m', schema, indexes, f, policies, who, rows, p, f', rows', rs, j) && j == |rs|
    ensures Upright(m, m', schema, indexes, f, p.schema, p.indexes, f')
    ensures p.events == InsertEvents(schema.name, rs) && rows' == Replay(schema, rows, p.events)
    ensures AllJudged(policies, schema.columns, rs, who)
    ensures AllAccepted(schema, indexes, f, rs) ==> SameDisciplines(f, f')
    ensures AllSane(schema, rs) ==>
            Agree(p.schema, p.indexes, f', rows') && Inserts(schema, policies, who, rows, rows', rs)
  {
    hide Upright, Inserts, Agree, Replay, AllSane, AllAccepted, AllJudged, SameDisciplines;
    assert rs[..j] == rs;
  }
}
