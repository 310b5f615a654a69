/** Statements in transactions, and the change feed. */
module Engines {
  import opened Bytes
  import opened Storage
  import opened Shape
  import opened Contexts
  import opened Contents
  import opened Forest
  import opened Values
  import opened Rows
  import opened Tables
  import opened Exprs
  import opened Streams
  import opened Listings
  import opened Planner
  import opened RowSecurity
  import opened Statements

  datatype TableRecord = TableRecord(schema: TableSchema, indexes: seq<IndexSchema>, policies: seq<Policy>)

  // ----- What a listener rebuilds

  type Database = map<string, map<Key, Row>>

  function FeedOne(declared: map<string, TableRecord>, db: Database, e: ChangeEvent): Database {
    if e.table in db && e.table in declared then db[e.table := ApplyEvent(declared[e.table].schema, db[e.table], e)]
    else db
  }

  /** The database after the events, in order. */
  function Feed(declared: map<string, TableRecord>, db: Database, events: seq<ChangeEvent>): Database {
    if events == [] then db else FeedOne(declared, Feed(declared, db, events[..|events| - 1]), events[|events| - 1])
  }

  lemma FeedOn(declared: map<string, TableRecord>, base: Database, before: seq<ChangeEvent>, db: Database,
               events: seq<ChangeEvent>)
    requires Feed(declared, base, before) == db
    ensures Feed(declared, base, before + events) == Feed(declared, db, events)
  {
    hide FeedOne, Feed;
    FeedConcat(declared, base, before, events);
  }

  lemma {:induction false} FeedConcat(declared: map<string, TableRecord>, db: Database, a: seq<ChangeEvent>,
                                      b: seq<ChangeEvent>)
    ensures Feed(declared, db, a + b) == Feed(declared, Feed(declared, db, a), b)
    decreases |b|
  {
    hide FeedOne;
    if b == [] {
      assert a + b == a;
    } else {
      assert (a + b)[..|a + b| - 1] == a + b[..|b| - 1];
      FeedConcat(declared, db, a, b[..|b| - 1]);
    }
  }

  /** Events of one table change that table, as replaying them does. */
  lemma {:induction false} FeedIsReplay(declared: map<string, TableRecord>, db: Database, table: string,
                                        events: seq<ChangeEvent>)
    requires table in db && table in declared && OnTable(table, events)
    ensures Feed(declared, db, events) == db[table := Replay(declared[table].schema, db[table], events)]
    decreases |events|
  {
    hide ApplyEvent;
    if events == [] {
      assert db[table := db[table]] == db;
    } else {
      FeedIsReplay(declared, db, table, events[..|events| - 1]);
    }
  }

  // ----- The database in the page store

  /** The trees of every table, and its rows. */
  datatype World = World(forests: map<string, seq<Rooted>>, rows: Database)

  /** The record is, but for the roots, as declared, and table and indexes agree. */
  ghost predicate TableOk(m: map<PageNo, Page>, declared: TableRecord, record: TableRecord, f: seq<Rooted>,
                          rows: map<Key, Row>) {
    && Planted(m, f) && Agree(record.schema, record.indexes, f, rows) && DistinctNames(record.indexes)
    && SameButRoots(declared.schema, record.schema, declared.indexes, record.indexes)
    && record.policies == declared.policies
  }

  ghost predicate Separate(f: seq<Rooted>, g: seq<Rooted>) {
    forall p :: InForest(f, p) ==> !InForest(g, p)
  }

  /** Every table and its indexes agree, and no two share a page. */
  ghost predicate WorldOk(declared: map<string, TableRecord>, m: map<PageNo, Page>, catalog: map<string, TableRecord>,
                          w: World) {
    && catalog.Keys == declared.Keys == w.forests.Keys == w.rows.Keys
    && (forall n :: n in catalog ==>
          declared[n].schema.name == n && TableOk(m, declared[n], catalog[n], w.forests[n], w.rows[n]))
    && AllSeparate(w.forests)
  }

  ghost predicate AllSeparate(forests: map<string, seq<Rooted>>) {
    forall a, b :: a in forests && b in forests && a != b ==> Separate(forests[a], forests[b])
  }

  lemma SeparateStep(forests: map<string, seq<Rooted>>, n: string, f': seq<Rooted>)
    requires AllSeparate(forests)
    requires forall a :: a in forests && a != n ==> Separate(f', forests[a]) && Separate(forests[a], f')
    ensures AllSeparate(forests[n := f'])
  {
    hide Separate;
  }

  lemma WorldTable(declared: map<string, TableRecord>, m: map<PageNo, Page>, catalog: map<string, TableRecord>,
                   w: World, n: string)
    requires WorldOk(declared, m, catalog, w) && n in catalog
    ensures n in declared && n in w.forests && n in w.rows && declared[n].schema.name == n
    ensures var record, f, rows := catalog[n], w.forests[n], w.rows[n];
            && Planted(m, f) && Agree(record.schema, record.indexes, f, rows) && DistinctNames(record.indexes)
            && SchemaOk(record.schema) && RowsOk(record.schema, rows) && |f| == 1 + |record.indexes|
            && SameButRoots(declared[n].schema, record.schema, declared[n].indexes, record.indexes)
            && record.schema == declared[n].schema.(rootPage := record.schema.rootPage) && record.schema.name == n
            && record.policies == declared[n].policies
  {
    hide Planted, Separate, Agree;
    AgreeAlike(catalog[n].schema, catalog[n].indexes, w.forests[n], w.rows[n]);
    AgreeRooted(catalog[n].schema, catalog[n].indexes, w.forests[n], w.rows[n]);
  }

  /** An empty database is in order. */
  lemma EmptyWorld(m: map<PageNo, Page>)
    ensures WorldOk(map[], m, map[], World(map[], map[]))
  {
  }

  /** And stays so with one new, empty table. */
  lemma WorldGrows(declared: map<string, TableRecord>, m: map<PageNo, Page>, m': map<PageNo, Page>,
                   catalog: map<string, TableRecord>, w: World, schema: TableSchema, f: seq<Rooted>)
    requires WorldOk(declared, m, catalog, w) && schema.name !in catalog
    requires Planted(m', f) && Agree(schema, [], f, map[]) && Elsewhere(m, m', [], f)
    ensures var n, record := schema.name, TableRecord(schema, [], []);
            WorldOk(declared[n := record], m', catalog[n := record], World(w.forests[n := f], w.rows[n := map[]]))
  {
    hide TableOk, Separate, Elsewhere, AllSeparate, Planted, Agree;
    var n, record := schema.name, TableRecord(schema, [], []);
    NewTableOk(m', record, f);
    forall a | a in catalog
      ensures TableOk(m', declared[a], catalog[a], w.forests[a], w.rows[a])
      ensures Separate(f, w.forests[a]) && Separate(w.forests[a], f)
    {
      SeparateNone(w.forests[a]);
      TableKept(m, m', declared[a], catalog[a], [], f, w.forests[a], w.rows[a]);
      StillSeparate(m, m', declared[a], catalog[a], [], f, w.forests[a], w.rows[a]);
      SeparateBoth(f, w.forests[a]);
    }
    SeparateStep(w.forests, n, f);
    var catalog', w', declared' :=
        catalog[n := record], World(w.forests[n := f], w.rows[n := map[]]), declared[n := record];
    assert catalog'.Keys == catalog.Keys + {n} && w'.forests.Keys == w.forests.Keys + {n}
      && w'.rows.Keys == w.rows.Keys + {n};
    assert declared'.Keys == declared.Keys + {n};
    forall a | a in catalog'
      ensures declared'[a].schema.name == a && TableOk(m', declared'[a], catalog'[a], w'.forests[a], w'.rows[a])
    {
      assert a != n ==> catalog'[a] == catalog[a] && declared'[a] == declared[a];
    }
  }

  lemma NewTableOk(m: map<PageNo, Page>, record: TableRecord, f: seq<Rooted>)
    requires record.indexes == [] && Planted(m, f) && Agree(record.schema, [], f, map[])
    ensures TableOk(m, record, record, f, map[])
  {
    hide Planted, Agree;
  }

  lemma SeparateNone(f: seq<Rooted>)
    ensures Separate(f, []) && Separate([], f)
  {
  }

  /** A statement on one table leaves the others alone. */
  lemma WorldStep(declared: map<string, TableRecord>, m: map<PageNo, Page>, m': map<PageNo, Page>,
                  catalog: map<string, TableRecord>, w: World, n: string, schema': TableSchema,
                  indexes': seq<IndexSchema>, f': seq<Rooted>, rows': map<Key, Row>)
    requires WorldOk(declared, m, catalog, w) && n in catalog
    requires Standing(m, m', catalog[n].schema, catalog[n].indexes, w.forests[n], schema', indexes', f', rows')
    ensures WorldOk(declared, m', catalog[n := catalog[n].(schema := schema', indexes := indexes')],
                    World(w.forests[n := f'], w.rows[n := rows']))
  {
    hide TableOk, Separate, Elsewhere, Standing, AllSeparate;
    StandingElsewhere(m, m', catalog[n].schema, catalog[n].indexes, w.forests[n], schema', indexes', f', rows');
    TableStands(m, m', declared[n], catalog[n], w.forests[n], w.rows[n], schema', indexes', f', rows');
    forall a | a in catalog && a != n
      ensures TableOk(m', declared[a], catalog[a], w.forests[a], w.rows[a])
      ensures Separate(f', w.forests[a]) && Separate(w.forests[a], f')
    {
      SeparateTwo(w.forests, a, n);
      TableKept(m, m', declared[a], catalog[a], w.forests[n], f', w.forests[a], w.rows[a]);
      StillSeparate(m, m', declared[a], catalog[a], w.forests[n], f', w.forests[a], w.rows[a]);
      SeparateBoth(f', w.forests[a]);
    }
    SeparateStep(w.forests, n, f');
    WorldPut(declared, m', catalog, w, n, catalog[n].(schema := schema', indexes := indexes'), f', rows');
  }

  lemma WorldPut(declared: map<string, TableRecord>, m: map<PageNo, Page>, catalog: map<string, TableRecord>, w: World,
                 n: string, record: TableRecord, f: seq<Rooted>, rows: map<Key, Row>)
    requires catalog.Keys == declared.Keys == w.forests.Keys == w.rows.Keys && n in catalog
    requires forall a :: a in catalog && a != n ==>
               declared[a].schema.name == a && TableOk(m, declared[a], catalog[a], w.forests[a], w.rows[a])
    requires declared[n].schema.name == n && TableOk(m, declared[n], record, f, rows) && AllSeparate(w.forests[n := f])
    ensures WorldOk(declared, m, catalog[n := record], World(w.forests[n := f], w.rows[n := rows]))
  {
    hide TableOk, AllSeparate;
    var catalog', w' := catalog[n := record], World(w.forests[n := f], w.rows[n := rows]);
    assert catalog'.Keys == catalog.Keys && w'.forests.Keys == w.forests.Keys && w'.rows.Keys == w.rows.Keys;
    forall a | a in catalog'
      ensures declared[a].schema.name == a && TableOk(m, declared[a], catalog'[a], w'.forests[a], w'.rows[a])
    {
      assert a != n ==> catalog'[a] == catalog[a];
    }
  }

  lemma SeparateTwo(forests: map<string, seq<Rooted>>, a: string, b: string)
    requires AllSeparate(forests) && a in forests && b in forests && a != b
    ensures Separate(forests[a], forests[b])
  {
  }

  lemma SeparateBoth(f: seq<Rooted>, g: seq<Rooted>)
    requires Separate(f, g)
    ensures Separate(g, f)
  {
    hide InForest;
  }

  lemma StandingElsewhere(m: map<PageNo, Page>, m': map<PageNo, Page>, schema: TableSchema, indexes: seq<IndexSchema>,
                          f: seq<Rooted>, schema': TableSchema, indexes': seq<IndexSchema>, f': seq<Rooted>,
                          rows': map<Key, Row>)
    requires Standing(m, m', schema, indexes, f, schema', indexes', f', rows')
    ensures Elsewhere(m, m', f, f')
  {
    hide Elsewhere, Grounded, Agree;
  }

  lemma TableStands(m: map<PageNo, Page>, m': map<PageNo, Page>, declared: TableRecord, record: TableRecord,
                    f: seq<Rooted>, rows: map<Key, Row>, schema': TableSchema, indexes': seq<IndexSchema>,
                    f': seq<Rooted>, rows': map<Key, Row>)
    requires TableOk(m, declared, record, f, rows)
             && Standing(m, m', record.schema, record.indexes, f, schema', indexes', f', rows')
    ensures TableOk(m', declared, record.(schema := schema', indexes := indexes'), f', rows')
  {
    hide Planted, Elsewhere, Agree;
  }

  lemma PagesHeld(m: map<PageNo, Page>, g: seq<Rooted>, p: PageNo)
    requires Planted(m, g) && InForest(g, p)
    ensures p in m
  {
    hide Footprint, Held, Sound, RootFilled, Apart, Roomy, NoRepeats;
    var i :| 0 <= i < |g| && p in Footprint(g[i].tree);
    HeldLive(m, g[i].tree);
  }

  lemma TableKept(m: map<PageNo, Page>, m': map<PageNo, Page>, declared: TableRecord, record: TableRecord,
                  f: seq<Rooted>, f': seq<Rooted>, g: seq<Rooted>, rows: map<Key, Row>)
    requires Elsewhere(m, m', f, f') && Separate(g, f) && TableOk(m, declared, record, g, rows)
    ensures TableOk(m', declared, record, g, rows)
  {
    hide Footprint, Apart, Roomy, Stored, Elsewhere, Agree;
    forall i | 0 <= i < |g| ensures Stored(m', g[i].tree, g[i].height, g[i].d) {
      forall p | p in Footprint(g[i].tree) ensures !InForest(f, p) {
        assert InForest(g, p);
      }
      OutsideKept(m, m', f, f', g[i].tree, g[i].height, g[i].d);
    }
  }

  lemma StillSeparate(m: map<PageNo, Page>, m': map<PageNo, Page>, declared: TableRecord, record: TableRecord,
                      f: seq<Rooted>, f': seq<Rooted>, g: seq<Rooted>, rows: map<Key, Row>)
    requires Elsewhere(m, m', f, f') && Separate(g, f) && TableOk(m, declared, record, g, rows)
    ensures Separate(f', g)
  {
    hide InForest, Planted, Agree;
    forall p | InForest(g, p) ensures !InForest(f', p) {
      PagesHeld(m, g, p);
    }
  }

  // ----- Commands

  /** Mutating statements, on rows and clauses whose literals and subqueries are resolved. */
  datatype Command =
    | Insert(table: string, rows: seq<Row>)
    | Update(table: string, assignments: seq<(string, Expr)>, where: Option<Expr>)
    | Delete(table: string, where: Option<Expr>)

  datatype Reply =
    | Ok(count: nat)
    | NoSuchTable(table: string)
    | Statement(error: StatementError)
    | NestedTransactionNotSupported
    | NoTransactionInProgress

  /** The clause with the policies put in. */
  function ClauseOf(record: TableRecord, c: Command, who: Caller): Option<Expr> {
    match c
    case Insert(_, _) => None
    case Update(_, _, where) => Secured(record.schema, record.policies, ForUpdate, where, who)
    case Delete(_, where) => Secured(record.schema, record.policies, ForDelete, where, who)
  }

  /** The values it writes have the types of their columns, which the engine does not check. */
  ghost predicate SaneCommand(record: TableRecord, c: Command, who: Caller, rows: map<Key, Row>)
    requires RowsOk(record.schema, rows)
  {
    match c
    case Insert(_, rs) => AllSane(record.schema, rs)
    case Update(_, assignments, _) =>
      forall targets :: Resolved(record.schema, assignments, targets) ==>
        SaneUpdate(record.schema, rows, targets, ClauseOf(record, c, who), who)
    case Delete(_, _) => true
  }

  /** And they are of the widths that the trees are kept to. */
  ghost predicate FittingCommand(record: TableRecord, c: Command, who: Caller, f: seq<Rooted>, rows: map<Key, Row>)
    requires RowsOk(record.schema, rows)
  {
    match c
    case Insert(_, rs) => AllAccepted(record.schema, record.indexes, f, rs)
    case Update(_, assignments, _) =>
      forall targets :: Resolved(record.schema, assignments, targets) ==>
        FittingUpdate(record.schema, record.indexes, f, rows, targets, ClauseOf(record, c, who), who)
    case Delete(_, _) => true
  }

  /** The trees have room whatever happens: a page that an insertion fills can be split, and a deletion finds entries of
      one width. */
  ghost predicate RoomFor(c: Command, f: seq<Rooted>) {
    if c.Insert? then AllSplit(f) else AllFixed(f)
  }

  /** Nothing stands in the way of the command: it is within its rights, and there is room whatever happens. */
  ghost predicate Assured(record: TableRecord, c: Command, who: Caller, f: seq<Rooted>, rows: map<Key, Row>)
    requires RowsOk(record.schema, rows)
  {
    && RoomFor(c, f) && SaneCommand(record, c, who, rows) && FittingCommand(record, c, who, f, rows)
    && match c
       case Insert(_, rs) =>
         var policies := PoliciesFor(record.schema, record.policies, who);
         policies != Some([]) && !RefusesSome(record.schema, policies, who, rows, rs)
       case Update(_, assignments, _) =>
         && Plannable(record.schema, rows, ClauseOf(record, c, who), who)
         && (forall i :: 0 <= i < |assignments| ==> NameError(record.schema, assignments[i].0) == None)
         && forall targets :: Resolved(record.schema, assignments, targets) ==>
              !Unassignable(record.schema, rows, targets, ClauseOf(record, c, who), who)
       case Delete(_, _) => Plannable(record.schema, rows, ClauseOf(record, c, who), who)
  }

  /** What a command does to the rows of its table, and the events it gives: one for each row, in key order, and only
      for rows that the caller's policies let it touch. */
  ghost predicate Effect(record: TableRecord, c: Command, who: Caller, rows: map<Key, Row>, rows': map<Key, Row>,
                         events: seq<ChangeEvent>) {
    RowsOk(record.schema, rows) ==>
      match c
      case Insert(_, rs) =>
        && events == InsertEvents(record.schema.name, rs)
        && AllAdmitted(record.schema, record.policies, rs, who)
        && (AllSane(record.schema, rs) ==>
              Inserts(record.schema, PoliciesFor(record.schema, record.policies, who), who, rows, rows', rs))
      case Update(_, _, _) => exists targets, keys :: UpdateEffect(record, c, who, rows, rows', targets, keys, events)
      case Delete(_, _) => exists keys :: DeleteEffect(record, c, who, rows, rows', keys, events)
  }

  /** The rows that the plan finds were updated: those of the clause, where seeks are right or it fails nowhere. */
  ghost predicate UpdateEffect(record: TableRecord, c: Command, who: Caller, rows: map<Key, Row>, rows': map<Key, Row>,
                               targets: seq<(nat, Expr)>, keys: seq<Key>, events: seq<ChangeEvent>)
    requires c.Update? && RowsOk(record.schema, rows)
  {
    var schema, clause := record.schema, ClauseOf(record, c, who);
    && Resolved(schema, c.assignments, targets) && Finds(keys, schema, record.indexes, rows, clause, who)
    && UpdateEvents(schema, rows, keys, targets, who, events) && rows' == Replay(schema, rows, events)
    && (Selects(schema, record.indexes, rows, clause, who) ==>
          KeysOfClause(keys, schema, rows, clause, who) && rows' == AfterUpdate(schema, rows, clause, targets, who))
  }

  ghost predicate DeleteEffect(record: TableRecord, c: Command, who: Caller, rows: map<Key, Row>, rows': map<Key, Row>,
                               keys: seq<Key>, events: seq<ChangeEvent>)
    requires c.Delete? && RowsOk(record.schema, rows)
  {
    var schema, clause := record.schema, ClauseOf(record, c, who);
    && Finds(keys, schema, record.indexes, rows, clause, who)
    && DeleteEvents(schema.name, rows, keys, events) && rows' == Replay(schema, rows, events)
    && (Selects(schema, record.indexes, rows, clause, who) ==>
          KeysOfClause(keys, schema, rows, clause, who) && rows' == AfterDelete(schema, rows, clause, who))
  }

  function CmdOf(c: Command): PolicyCmd {
    if c.Insert? then ForInsert else if c.Update? then ForUpdate else ForDelete
  }

  /** An UPDATE or a DELETE touches only rows that the user's clause is true of and that the policies let the caller
      touch, and gives events of no others. */
  lemma OnlyPermitted(record: TableRecord, c: Command, who: Caller, rows: map<Key, Row>, rows': map<Key, Row>,
                      events: seq<ChangeEvent>)
    requires !c.Insert? && RowsOk(record.schema, rows) && Effect(record, c, who, rows, rows', events)
    requires Selects(record.schema, record.indexes, rows, ClauseOf(record, c, who), who)
    ensures forall k :: k in rows && (k !in rows' || rows'[k] != rows[k]) ==> MayTouch(record, c, who, rows[k])
    ensures forall i :: 0 <= i < |events| ==>
              events[i].oldRow.Some? && MayTouch(record, c, who, events[i].oldRow.value)
  {
    var schema, clause := record.schema, ClauseOf(record, c, who);
    forall row | Passes(clause, schema.columns, row, who) ensures MayTouch(record, c, who, row) {
      SecuredPasses(schema, record.policies, CmdOf(c), c.where, row, who);
    }
    hide Selects, Finds, ClauseOf, Replay, RowsOk, MayTouch, Passes, Reassigned, TargetsOk, Resolved, Increasing,
      UpdateError;
    var keys;
    if c.Update? {
      var targets, ks :| UpdateEffect(record, c, who, rows, rows', targets, ks, events);
      keys := ks;
    } else {
      var ks :| DeleteEffect(record, c, who, rows, rows', ks, events);
      keys := ks;
    }
    forall i | 0 <= i < |events| ensures Passes(clause, schema.columns, rows[keys[i]], who) {
      assert keys[i] in KeySet(keys);
    }
  }

  ghost predicate MayTouch(record: TableRecord, c: Command, who: Caller, row: Row)
    requires !c.Insert?
  {
    && Permitted(record.schema, record.policies, CmdOf(c), row, who)
    && Passes(c.where, record.schema.columns, row, who)
  }

  /** A command stopped for want of room when one of the trees did have none for its next row. */
  ghost predicate OutOfRoom(m0: map<PageNo, Page>, record: TableRecord, c: Command, who: Caller, f: seq<Rooted>,
                            rows: map<Key, Row>, e: StatementError, sofar: seq<ChangeEvent>)
    requires RowsOk(record.schema, rows) && ForRoom(e)
  {
    match c
    case Insert(_, rs) =>
      |sofar| < |rs| && RanOut(m0, record.schema, record.indexes, f, rows, rs, |sofar|, e)
    case Update(_, _, _) =>
      exists targets, keys ::
        && TargetsOk(record.schema, targets)
        && UpdateRanOut(m0, record.schema, record.indexes, f, rows, keys, targets, who, e, sofar)
    case Delete(_, _) => exists keys :: DeleteRanOut(m0, record.schema, record.indexes, f, rows, keys, sofar)
  }

  lemma InsertOutOfRoom(m0: map<PageNo, Page>, record: TableRecord, c: Command, who: Caller, f: seq<Rooted>,
                        rows: map<Key, Row>, e: StatementError, sofar: seq<ChangeEvent>)
    requires RowsOk(record.schema, rows) && ForRoom(e) && c.Insert? && |sofar| < |c.rows|
    requires RanOut(m0, record.schema, record.indexes, f, rows, c.rows, |sofar|, e)
    ensures OutOfRoom(m0, record, c, who, f, rows, e, sofar)
  {
    hide RowsOk, RanOut;
  }

  lemma UpdateOutOfRoom(m0: map<PageNo, Page>, record: TableRecord, c: Command, who: Caller, f: seq<Rooted>,
                        rows: map<Key, Row>, targets: seq<(nat, Expr)>, keys: seq<Key>, e: StatementError,
                        sofar: seq<ChangeEvent>)
    requires RowsOk(record.schema, rows) && c.Update? && TargetsOk(record.schema, targets)
    requires ForRoom(e) ==>
               UpdateRanOut(m0, record.schema, record.indexes, f, rows, keys, targets, who, e, sofar)
    ensures ForRoom(e) ==> OutOfRoom(m0, record, c, who, f, rows, e, sofar)
  {
    hide RowsOk, UpdateRanOut, TargetsOk, ForRoom;
  }

  lemma DeleteOutOfRoom(m0: map<PageNo, Page>, record: TableRecord, c: Command, who: Caller, f: seq<Rooted>,
                        rows: map<Key, Row>, keys: seq<Key>, e: StatementError, sofar: seq<ChangeEvent>)
    requires RowsOk(record.schema, rows) && c.Delete?
    requires NoRoom(e) ==> DeleteRanOut(m0, record.schema, record.indexes, f, rows, keys, sofar)
    ensures ForRoom(e) ==> OutOfRoom(m0, record, c, who, f, rows, e, sofar)
  {
    hide RowsOk, DeleteRanOut;
  }

  /** What stopped an UPDATE whose columns are known: a row that could not be written, or the clause, on a row that was
      read, and then before anything was written. */
  ghost predicate StoppedAtRow(record: TableRecord, c: Command, who: Caller, rows: map<Key, Row>,
                               targets: seq<(nat, Expr)>, keys: seq<Key>, e: StatementError, sofar: seq<ChangeEvent>)
    requires c.Update? && RowsOk(record.schema, rows) && TargetsOk(record.schema, targets)
  {
    var schema, clause := record.schema, ClauseOf(record, c, who);
    && (forall e' :: PlanFails(schema, record.indexes, rows, clause, who, e') ==> e == Plan(e') && sofar == [])
    && (Plannable(schema, rows, clause, who) ==>
          KeysOfClause(keys, schema, rows, clause, who) && UpdateStops(schema, rows, keys, targets, who, e, sofar))
    && ((&& UpdateStops(schema, rows, keys, targets, who, e, sofar)
         && Finds(keys, schema, record.indexes, rows, clause, who)
         && (Selects(schema, record.indexes, rows, clause, who) ==> KeysOfClause(keys, schema, rows, clause, who)))
        || (e.Plan? && sofar == [] && PlanFails(schema, record.indexes, rows, clause, who, e.plan)))
  }

  /** What stopped an UPDATE: a column that cannot be assigned to, or the clause, or a row; and what rows it left. */
  ghost predicate UpdateStopped(record: TableRecord, c: Command, who: Caller, rows: map<Key, Row>,
                                rows': map<Key, Row>, targets: seq<(nat, Expr)>, keys: seq<Key>, e: StatementError,
                                sofar: seq<ChangeEvent>)
    requires c.Update? && RowsOk(record.schema, rows)
  {
    var schema, clause := record.schema, ClauseOf(record, c, who);
    && AssignedFirst(schema, c.assignments, targets) && TargetsOk(schema, targets)
    && rows' == RowsLeft(schema, rows, keys, e, sofar)
    && if |targets| < |c.assignments| then
         !e.Exec? && NameError(schema, c.assignments[|targets|].0) == Some(e) && sofar == []
       else
         StoppedAtRow(record, c, who, rows, targets, keys, e, sofar)
  }

  /** What stopped a DELETE: the clause, or a page that was full. */
  ghost predicate DeleteStopped(record: TableRecord, c: Command, who: Caller, rows: map<Key, Row>,
                                rows': map<Key, Row>, keys: seq<Key>, e: StatementError, sofar: seq<ChangeEvent>)
    requires c.Delete? && RowsOk(record.schema, rows)
  {
    var schema, clause := record.schema, ClauseOf(record, c, who);
    && rows' == Replay(schema, rows, sofar)
    && if NoRoom(e) then
         && DeleteStops(schema, rows, keys, e, sofar) && Finds(keys, schema, record.indexes, rows, clause, who)
         && (Selects(schema, record.indexes, rows, clause, who) ==> KeysOfClause(keys, schema, rows, clause, who))
       else
         && e.Plan? && sofar == [] && !Plannable(schema, rows, clause, who)
         && PlanFails(schema, record.indexes, rows, clause, who, e.plan)
  }

  /** Why a command stopped, at which row, and what rows it left: those that the events say, but for a row whose
      UPDATE was refused. */
  ghost predicate HasStopped(record: TableRecord, c: Command, who: Caller, rows: map<Key, Row>, rows': map<Key, Row>,
                          e: StatementError, sofar: seq<ChangeEvent>)
    requires RowsOk(record.schema, rows)
  {
    match c
    case Insert(_, rs) =>
      var policies := PoliciesFor(record.schema, record.policies, who);
      && rows' == Replay(record.schema, rows, sofar)
      && if policies == Some([]) then e == PolicyViolation && sofar == []
         else InsertStops(record.schema, policies, who, rows, rs, e, sofar)
    case Update(_, _, _) =>
      exists targets, keys :: UpdateStopped(record, c, who, rows, rows', targets, keys, e, sofar)
    case Delete(_, _) => exists keys :: DeleteStopped(record, c, who, rows, rows', keys, e, sofar)
  }

  /** The row that a refused UPDATE has deleted is in no event. */
  predicate Silent(c: Command, e: StatementError) {
    c.Update? && e.Exec?
  }

  /** So the events account for what is left exactly when that did not happen. */
  lemma StoppedReplays(record: TableRecord, c: Command, who: Caller, rows: map<Key, Row>, rows': map<Key, Row>,
                       e: StatementError, sofar: seq<ChangeEvent>)
    requires RowsOk(record.schema, rows) && HasStopped(record, c, who, rows, rows', e, sofar)
    ensures rows' == Replay(record.schema, rows, sofar) <==> !Silent(c, e)
    ensures OnTable(record.schema.name, sofar)
  {
    hide RowsOk, Plannable, ClauseOf, Replay, TargetsOk, NameError, KeysOfClause, UpdateFails, InsertFails, Reassigned,
      AssignedFirst, Finds, PlanFails, Selects;
    match c {
      case Insert(_, _) =>
      case Update(_, _, _) =>
        var targets, keys :| UpdateStopped(record, c, who, rows, rows', targets, keys, e, sofar);
      case Delete(_, _) =>
        var keys :| DeleteStopped(record, c, who, rows, rows', keys, e, sofar);
    }
  }

  lemma InsertHasStopped(record: TableRecord, c: Command, who: Caller, rows: map<Key, Row>, rows': map<Key, Row>,
                         e: StatementError, sofar: seq<ChangeEvent>)
    requires c.Insert? && RowsOk(record.schema, rows) && rows' == Replay(record.schema, rows, sofar)
    requires var policies := PoliciesFor(record.schema, record.policies, who);
             if policies == Some([]) then e == PolicyViolation && sofar == []
             else InsertStops(record.schema, policies, who, rows, c.rows, e, sofar)
    ensures HasStopped(record, c, who, rows, rows', e, sofar)
  {
    hide RowsOk, Replay, InsertStops;
  }

  lemma UpdateHasStopped(record: TableRecord, c: Command, who: Caller, rows: map<Key, Row>, rows': map<Key, Row>,
                         targets: seq<(nat, Expr)>, keys: seq<Key>, e: StatementError, sofar: seq<ChangeEvent>)
    requires c.Update? && RowsOk(record.schema, rows)
    requires AssignedFirst(record.schema, c.assignments, targets) && TargetsOk(record.schema, targets)
    requires rows' == RowsLeft(record.schema, rows, keys, e, sofar)
    requires |targets| != |c.assignments| ==>
               !e.Exec? && NameError(record.schema, c.assignments[|targets|].0) == Some(e) && sofar == []
    requires |targets| == |c.assignments| ==> StoppedAtRow(record, c, who, rows, targets, keys, e, sofar)
    ensures HasStopped(record, c, who, rows, rows', e, sofar)
  {
    hide RowsOk, RowsLeft, TargetsOk, UpdateStops, Plannable, KeysOfClause, ClauseOf, NameError, Finds, PlanFails,
      Selects;
    assert UpdateStopped(record, c, who, rows, rows', targets, keys, e, sofar);
  }

  lemma DeleteHasStopped(record: TableRecord, c: Command, who: Caller, rows: map<Key, Row>, rows': map<Key, Row>,
                         keys: seq<Key>, e: StatementError, sofar: seq<ChangeEvent>)
    requires c.Delete? && RowsOk(record.schema, rows) && rows' == Replay(record.schema, rows, sofar)
    requires var clause := ClauseOf(record, c, who);
             if NoRoom(e) then
               && DeleteStops(record.schema, rows, keys, e, sofar)
               && Finds(keys, record.schema, record.indexes, rows, clause, who)
               && (Selects(record.schema, record.indexes, rows, clause, who) ==>
                     KeysOfClause(keys, record.schema, rows, clause, who))
             else
               && e.Plan? && sofar == [] && !Plannable(record.schema, rows, clause, who)
               && PlanFails(record.schema, record.indexes, rows, clause, who, e.plan)
    ensures HasStopped(record, c, who, rows, rows', e, sofar)
  {
    hide RowsOk, Replay, DeleteStops, Plannable, KeysOfClause, ClauseOf, Finds, PlanFails, Selects;
    assert DeleteStopped(record, c, who, rows, rows', keys, e, sofar);
  }

  lemma StopIsUnassignable(schema: TableSchema, rows: map<Key, Row>, targets: seq<(nat, Expr)>, where: Option<Expr>,
                           who: Caller, keys: seq<Key>, e: StatementError, sofar: seq<ChangeEvent>)
    requires RowsOk(schema, rows) && TargetsOk(schema, targets) && !NoRoom(e)
    requires KeysOfClause(keys, schema, rows, where, who) && UpdateStops(schema, rows, keys, targets, who, e, sofar)
    ensures Unassignable(schema, rows, targets, where, who)
  {
    hide RowsOk, TargetsOk, NoRoom, UpdateEvents, Replay, UpdateError, Truthy, Rank;
    var k := keys[|sofar|];
    assert k in KeySet(keys) && k in SelectedKeys(schema, rows, where, who);
  }

  /** An UPDATE that nothing stands in the way of stops for want of room only. */
  lemma UpdateGoesOn(record: TableRecord, c: Command, who: Caller, f: seq<Rooted>, rows: map<Key, Row>,
                     targets: seq<(nat, Expr)>, keys: seq<Key>, e: StatementError, sofar: seq<ChangeEvent>)
    requires c.Update? && RowsOk(record.schema, rows)
    requires AssignedFirst(record.schema, c.assignments, targets) && TargetsOk(record.schema, targets)
    requires if |targets| == |c.assignments| then Resolved(record.schema, c.assignments, targets)
             else NameError(record.schema, c.assignments[|targets|].0) == Some(e)
    requires var clause := ClauseOf(record, c, who);
             |targets| == |c.assignments| && Plannable(record.schema, rows, clause, who) ==>
               && KeysOfClause(keys, record.schema, rows, clause, who)
               && UpdateStops(record.schema, rows, keys, targets, who, e, sofar)
    ensures Assured(record, c, who, f, rows) ==> NoRoom(e)
  {
    SchemaOfRows(record.schema, rows);
    hide RowsOk, TargetsOk, AllFixed, SaneCommand, FittingCommand, Resolved, Plannable, ClauseOf, NameError, NoRoom,
      UpdateStops, KeysOfClause, Unassignable;
    var clause := ClauseOf(record, c, who);
    if |targets| == |c.assignments| && Plannable(record.schema, rows, clause, who) && !NoRoom(e) {
      StopIsUnassignable(record.schema, rows, targets, clause, who, keys, e, sofar);
    }
  }

  lemma EffectOfInsert(record: TableRecord, c: Command, who: Caller, rows: map<Key, Row>, rows': map<Key, Row>,
                       events: seq<ChangeEvent>)
    requires c.Insert? && SchemaOk(record.schema) && events == InsertEvents(record.schema.name, c.rows)
    requires AllAdmitted(record.schema, record.policies, c.rows, who)
    requires AllSane(record.schema, c.rows) ==>
               Inserts(record.schema, PoliciesFor(record.schema, record.policies, who), who, rows, rows', c.rows)
    ensures Effect(record, c, who, rows, rows', events) && OnTable(record.schema.name, events)
  {
    hide RowsOk, Inserts, CheckRow, AllAdmitted, AllSane;
  }

  lemma EffectOfUpdate(record: TableRecord, c: Command, who: Caller, rows: map<Key, Row>, rows': map<Key, Row>,
                       targets: seq<(nat, Expr)>, keys: seq<Key>, events: seq<ChangeEvent>)
    requires c.Update? && RowsOk(record.schema, rows) && Resolved(record.schema, c.assignments, targets)
    requires Finds(keys, record.schema, record.indexes, rows, ClauseOf(record, c, who), who)
    requires UpdateEvents(record.schema, rows, keys, targets, who, events)
    requires rows' == Replay(record.schema, rows, events)
    requires var clause := ClauseOf(record, c, who);
             Selects(record.schema, record.indexes, rows, clause, who) ==>
               && KeysOfClause(keys, record.schema, rows, clause, who)
               && rows' == AfterUpdate(record.schema, rows, clause, targets, who)
    ensures Effect(record, c, who, rows, rows', events)
  {
    hide Selects, Finds, ClauseOf, Replay, AfterUpdate, CheckRow, RowKey, KeysOfClause, UpdateEvents;
    assert UpdateEffect(record, c, who, rows, rows', targets, keys, events);
  }

  lemma EffectOfDelete(record: TableRecord, c: Command, who: Caller, rows: map<Key, Row>, rows': map<Key, Row>,
                       keys: seq<Key>, events: seq<ChangeEvent>)
    requires c.Delete? && SchemaOk(record.schema) && DeleteEvents(record.schema.name, rows, keys, events)
    requires RowsOk(record.schema, rows)
    requires Finds(keys, record.schema, record.indexes, rows, ClauseOf(record, c, who), who)
    requires rows' == Replay(record.schema, rows, events)
    requires var clause := ClauseOf(record, c, who);
             Selects(record.schema, record.indexes, rows, clause, who) ==>
               && KeysOfClause(keys, record.schema, rows, clause, who)
               && rows' == AfterDelete(record.schema, rows, clause, who)
    ensures Effect(record, c, who, rows, rows', events)
  {
    hide Selects, Finds, ClauseOf, Replay, AfterDelete, RowsOk, KeysOfClause, DeleteEvents;
    assert DeleteEffect(record, c, who, rows, rows', keys, events);
  }

  lemma {:induction false} ReplayMoved(schema: TableSchema, schema': TableSchema, rows: map<Key, Row>,
                                       events: seq<ChangeEvent>)
    requires schema'.columns == schema.columns
    ensures Replay(schema', rows, events) == Replay(schema, rows, events)
    decreases |events|
  {
    hide EncodeKey, CheckRow;
    if events != [] {
      ReplayMoved(schema, schema', rows, events[..|events| - 1]);
      SameKeyIn(schema, schema');
    }
  }

  lemma SameKeyIn(schema: TableSchema, schema': TableSchema)
    requires schema'.columns == schema.columns
    ensures forall row :: KeyIn(schema', row) == KeyIn(schema, row)
  {
    hide EncodeKey, CheckRow;
  }

  // ----- Clauses of a SELECT

  /** A clause whose seeks find what it asks for. */
  ghost predicate Answerable(schema: TableSchema, clause: Option<Expr>)
    requires SchemaOk(schema)
  {
    clause.Some? ==> SeekSound(schema) || !Seekable(clause.value, KeyName(schema))
  }

  lemma TableOpened(declared: map<string, TableRecord>, m: map<PageNo, Page>, catalog: map<string, TableRecord>,
                    w: World, n: string)
    requires WorldOk(declared, m, catalog, w) && n in catalog
    ensures n in w.forests && n in w.rows
    ensures var record, f, rows := catalog[n], w.forests[n], w.rows[n];
            && Planted(m, f) && Agree(record.schema, record.indexes, f, rows) && SchemaOk(record.schema)
            && |f| > 0 && forall k :: k in TableKeys(f[0]) <==> k in rows
  {
    hide WorldOk, Planted, Agree, TableKeys;
    WorldTable(declared, m, catalog, w, n);
    TableAgrees(m, catalog[n].schema, catalog[n].indexes, w.forests[n], w.rows[n]);
  }

  /** What a SELECT reads of a table: what its plan finds, or what it finds before it fails.  Where seeks find no other
      rows than they should, every row of it was asked for and is the caller's to see, whether or not a clause or a
      policy fails on a row in the end; and without an error it is every row that the clause with the policies lets
      through. */
  ghost predicate Reads(record: TableRecord, who: Caller, where: Option<Expr>, rows: map<Key, Row>, rs: seq<Row>,
                        error: Option<PlanError>)
    requires SchemaOk(record.schema)
  {
    var schema, clause := record.schema, Secured(record.schema, record.policies, ForSelect, where, who);
    exists keys ::
      && Listed(rs, keys, rows) && Answers(schema, record.indexes, rows, clause, who, error, keys)
      && (SeeksTrue(schema, record.indexes, clause) ==>
            && (forall i :: 0 <= i < |rs| ==>
                  && Passes(where, schema.columns, rs[i], who)
                  && Permitted(schema, record.policies, ForSelect, rs[i], who))
            && (error.None? ==> KeysOfClause(keys, schema, rows, clause, who))
            && forall e :: ClauseFails(schema, record.indexes, rows, clause, who, e) ==> error == Some(e))
  }

  lemma ReadsRows(record: TableRecord, who: Caller, where: Option<Expr>, rows: map<Key, Row>, rs: seq<Row>,
                  error: Option<PlanError>, keys: seq<Key>)
    requires SchemaOk(record.schema) && Listed(rs, keys, rows)
    requires var clause := Secured(record.schema, record.policies, ForSelect, where, who);
             Answers(record.schema, record.indexes, rows, clause, who, error, keys)
    ensures Reads(record, who, where, rows, rs, error)
  {
    hide Secured, Listed, Finds, PlanFails, ClauseFails, OnlyFound, SeeksTrue, KeysOfClause, Permitted, Passes;
    var schema, clause := record.schema, Secured(record.schema, record.policies, ForSelect, where, who);
    if SeeksTrue(schema, record.indexes, clause) {
      FindsClause(schema, record.indexes, rows, clause, who);
      FoundPass(schema, record.indexes, rows, clause, who, rs, keys);
      forall i | 0 <= i < |rs|
        ensures Passes(where, schema.columns, rs[i], who)
        ensures Permitted(schema, record.policies, ForSelect, rs[i], who)
      {
        SecuredPasses(schema, record.policies, ForSelect, where, rs[i], who);
      }
    }
  }

  lemma SelectsVisible(record: TableRecord, t: Rooted, rows: map<Key, Row>, where: Option<Expr>, who: Caller)
    requires SchemaOk(record.schema) && forall k :: k in TableKeys(t) <==> k in rows
    ensures var clause := Secured(record.schema, record.policies, ForSelect, where, who);
            AllEvaluated(AllRows(t, rows), record.schema, record.policies, ForSelect, where, who)
            && Answerable(record.schema, clause) ==>
              && Plannable(record.schema, rows, clause, who)
              && Wanted(record.schema, t, rows, clause, who)
                 == Visible(AllRows(t, rows), record.schema, record.policies, ForSelect, where, who)
  {
    hide Secured, Evaluates, TableKeys, UsingEvaluates, Matching, Wanted, Visible, Truthy, Allowed,
      SeekSound, Seekable;
    var clause := Secured(record.schema, record.policies, ForSelect, where, who);
    var all := AllRows(t, rows);
    if AllEvaluated(all, record.schema, record.policies, ForSelect, where, who) {
      SecuredPlan(record.schema, record.policies, ForSelect, where, who, t, rows);
      forall k | k in rows && clause.Some? ensures Evaluates(clause.value, record.schema.columns, rows[k], who) {
        var i :| 0 <= i < |TableKeys(t)| && TableKeys(t)[i] == k;
        assert all[i] == rows[k];
        SecuredMeans(record.schema, record.policies, ForSelect, where, rows[k], who);
      }
    }
  }

  // ----- The engine

  /** What ROLLBACK goes back to. */
  datatype Snapshot = Snapshot(pages: map<PageNo, Page>, freeList: seq<PageNo>, pageCount: nat,
      catalog: map<string, TableRecord>)

  class Engine {
    const pager: Pager
    const hasListener: bool
    var catalog: map<string, TableRecord>
    var inTransaction: bool
    var snapshot: Snapshot
    var transactionEvents: seq<ChangeEvent>
    var published: seq<ChangeEvent>
    ghost const declared: map<string, TableRecord>
    ghost const start: Database
    ghost var world: World
    ghost var saved: World
    ghost var broken: bool  // a statement failed half done within the transaction, or wrote values of other types
    ghost var lost: bool    // and that was committed

    /** The rows that a rollback cannot take back. */
    ghost function Committed(): Database
      reads this
    {
      if inTransaction then saved.rows else world.rows
    }

    ghost predicate Valid()
      reads this, pager
    {
      && pager.Valid()
      && (lost ==> broken) && (broken && !inTransaction ==> lost)
      && (!broken ==> WorldOk(declared, pager.pages, catalog, world))
      && (inTransaction ==> StoreOk(snapshot.pages, snapshot.freeList, snapshot.pageCount))
      && (inTransaction && !lost ==> WorldOk(declared, snapshot.pages, snapshot.catalog, saved))
      && (hasListener && !lost ==> Feed(declared, start, published) == Committed())
      && (inTransaction && !broken && hasListener ==> Feed(declared, saved.rows, transactionEvents) == world.rows)
      && (!inTransaction && hasListener ==> transactionEvents == [])
    }

    lemma Opened()
      requires Valid() && !broken
      ensures pager.Valid() && !lost && WorldOk(declared, pager.pages, catalog, world)
      ensures inTransaction ==>
                && StoreOk(snapshot.pages, snapshot.freeList, snapshot.pageCount)
                && WorldOk(declared, snapshot.pages, snapshot.catalog, saved)
      ensures hasListener ==> Feed(declared, start, published) == if inTransaction then saved.rows else world.rows
      ensures inTransaction && hasListener ==> Feed(declared, saved.rows, transactionEvents) == world.rows
      ensures !inTransaction && hasListener ==> transactionEvents == []
    {
      hide WorldOk, Feed, StoreOk;
    }

    lemma StillValid()
      requires pager.Valid() && !lost && inTransaction && (!broken ==> WorldOk(declared, pager.pages, catalog, world))
      requires StoreOk(snapshot.pages, snapshot.freeList, snapshot.pageCount)
      requires WorldOk(declared, snapshot.pages, snapshot.catalog, saved)
      requires hasListener ==> Feed(declared, start, published) == saved.rows
      requires !broken && hasListener ==> Feed(declared, saved.rows, transactionEvents) == world.rows
      ensures Valid()
    {
      hide WorldOk, Feed, StoreOk;
    }

    constructor (pager: Pager, hasListener: bool, catalog: map<string, TableRecord>,
                 ghost declared: map<string, TableRecord>, ghost world: World)
      requires pager.Valid() && WorldOk(declared, pager.pages, catalog, world)
      ensures Valid() && !inTransaction && !broken && this.pager == pager && this.hasListener == hasListener
      ensures this.declared == declared && start == world.rows && this.world == world && published == []
    {
      this.pager, this.hasListener, this.catalog, this.declared, this.world :=
          pager, hasListener, catalog, declared, world;
      inTransaction, transactionEvents, published, broken, lost := false, [], [], false, false;
      start := world.rows;
    }

    method Begin() returns (r: Reply)
      requires Valid()
      modifies this
      ensures Valid() && inTransaction && broken == old(broken) && lost == old(lost)
      ensures pager.pages == old(pager.pages) && catalog == old(catalog) && world == old(world)
              && published == old(published)
      ensures if old(inTransaction) then
                && r == NestedTransactionNotSupported && saved == old(saved) && snapshot == old(snapshot)
                && transactionEvents == old(transactionEvents)
              else
                && r == Ok(0) && saved == world && transactionEvents == []
                && snapshot == Snapshot(pager.pages, pager.freeList, pager.pageCount, catalog)
    {
      if inTransaction {
        return NestedTransactionNotSupported;
      }
      transactionEvents := [];
      TakeSnapshot();
      r := Ok(0);
    }

    /** The pager starts its journal. */
    method TakeSnapshot()
      modifies `inTransaction, `snapshot, `saved
      ensures inTransaction && saved == world
      ensures snapshot == Snapshot(pager.pages, pager.freeList, pager.pageCount, catalog)
    {
      inTransaction, saved := true, world;
      snapshot := Snapshot(pager.pages, pager.freeList, pager.pageCount, catalog);
    }

    method Commit() returns (r: Reply)
      requires Valid()
      modifies this
      ensures Valid() && !inTransaction && broken == lost == old(broken)
      ensures world == old(world) && catalog == old(catalog) && pager.pages == old(pager.pages)
      ensures if !old(inTransaction) then
                && r == NoTransactionInProgress && published == old(published)
                && transactionEvents == old(transactionEvents)
              else
                && r == Ok(0)
                && published == (if hasListener then old(published) + old(transactionEvents) else old(published))
                && transactionEvents == if hasListener then [] else old(transactionEvents)
    {
      if !inTransaction {
        return NoTransactionInProgress;
      }
      Publish();
      r := Ok(0);
    }

    /** The transaction ends, and its events go to the listeners, if there are any. */
    method Publish()
      requires Valid() && inTransaction
      modifies this
      ensures Valid() && !inTransaction && broken == lost == old(broken) && world == old(world)
              && catalog == old(catalog)
      ensures published == if hasListener then old(published) + old(transactionEvents) else old(published)
      ensures transactionEvents == if hasListener then [] else old(transactionEvents)
    {
      hide WorldOk, FeedOne, StoreOk;
      inTransaction, lost := false, broken;
      if hasListener {
        FeedConcat(declared, start, published, transactionEvents);
        published, transactionEvents := published + transactionEvents, [];
      }
    }

    /** Nothing of the transaction remains, and nothing of it will be published. */
    method Rollback() returns (r: Reply)
      requires Valid()
      modifies this, pager
      ensures Valid() && !inTransaction && published == old(published) && broken == lost == old(lost)
      ensures if !old(inTransaction) then
                && r == NoTransactionInProgress && world == old(world) && pager.pages == old(pager.pages)
                && catalog == old(catalog) && transactionEvents == old(transactionEvents)
              else
                && r == Ok(0) && world == old(saved) && pager.pages == old(snapshot.pages)
                && catalog == old(snapshot.catalog) && transactionEvents == []
    {
      if !inTransaction {
        return NoTransactionInProgress;
      }
      Undo();
      r := Ok(0);
    }

    /** Events are dropped, pages and catalog put back. */
    method Undo()
      requires Valid() && inTransaction
      modifies this, pager
      ensures Valid() && !inTransaction && published == old(published) && broken == lost == old(lost)
      ensures world == old(saved) && pager.pages == old(snapshot.pages) && catalog == old(snapshot.catalog)
      ensures transactionEvents == []
    {
      hide WorldOk, FeedOne, StoreOk;
      transactionEvents := [];
      pager.Restore(snapshot.pages, snapshot.freeList, snapshot.pageCount);
      catalog := snapshot.catalog;
      inTransaction, world, broken := false, saved, lost;
    }

    /** Puts the policies into the clause, and runs the statement. */
    method RunStatement(c: Command, record: TableRecord, who: Caller, ghost f: seq<Rooted>, ghost rows: map<Key, Row>)
      returns (s: StatementResult, ghost f': seq<Rooted>, ghost rows': map<Key, Row>)
      requires pager.Valid() && Planted(pager.pages, f) && Agree(record.schema, record.indexes, f, rows)
               && DistinctNames(record.indexes)
      modifies pager
      ensures pager.Valid() && RowsOk(record.schema, rows)
      ensures HasRun(old(pager.pages), pager.pages, record, c, who, f, rows, s, f', rows')
    {
      var schema, indexes := record.schema, record.indexes;
      AgreeRooted(schema, indexes, f, rows);
      hide *;
      match c
      case Insert(_, rs) =>
        s, f', rows' := ExecuteInsert(pager, schema, indexes, record.policies, rs, who, f, rows);
        InsertRan(record, c, who, old(pager.pages), pager.pages, f, rows, s, f', rows');
      case Update(_, assignments, where) =>
        var clause := ApplyRlsFilter(schema, record.policies, ForUpdate, where, who);
        ghost var targets, keys;
        s, f', rows', targets, keys := ExecuteUpdate(pager, schema, indexes, assignments, clause, who, f, rows);
        UpdateRan(record, c, who, old(pager.pages), pager.pages, f, rows, targets, keys, s, f', rows');
      case Delete(_, where) =>
        var clause := ApplyRlsFilter(schema, record.policies, ForDelete, where, who);
        ghost var keys;
        s, f', rows', keys := ExecuteDelete(pager, schema, indexes, clause, who, f, rows);
        DeleteRan(record, c, who, old(pager.pages), pager.pages, f, rows, keys, s, f', rows');
    }

    /** Runs one statement on its table and moves the table's roots in the catalog. */
    method ExecuteMutating(c: Command, who: Caller)
      returns (r: Reply, ghost events: seq<ChangeEvent>, ghost left: World)
      requires pager.Valid() && WorldOk(declared, pager.pages, catalog, world)
      modifies `catalog, `transactionEvents, `world, pager
      ensures pager.Valid()
      ensures Ran(declared, old(catalog), c, who, old(world), left, r, events)
      ensures transactionEvents == old(transactionEvents) + events
      ensures if r.Ok? then world == left else world == old(world) && catalog == old(catalog)
      ensures r.Ok? && SaneIn(old(catalog), c, who, old(world)) ==> WorldOk(declared, pager.pages, catalog, world)
      ensures r.NoSuchTable? ==> pager.pages == old(pager.pages)
      ensures r.Statement? && !NoRoom(r.error) && SaneIn(old(catalog), c, who, old(world)) ==>
                WorldOk(declared, pager.pages, Aimed(catalog, c.table, left), left)
    {
      hide *;
      events, left := [], world;
      if c.table !in catalog {
        NoTable(declared, catalog, c, who, world);
        assert transactionEvents + [] == transactionEvents;
        return NoSuchTable(c.table), [], world;
      }
      ghost var m, w, before := pager.pages, world, catalog;
      WorldTable(declared, m, catalog, world, c.table);
      var record := catalog[c.table];
      ghost var f, rows := world.forests[c.table], world.rows[c.table];
      IsIn(catalog, c, who, world);
      var s, f', rows' := RunStatement(c, record, who, f, rows);
      RunFacts(m, pager.pages, record, c, who, f, rows, s, f', rows');
      match s
      case Aborted(e, sofar) =>
        transactionEvents, events := transactionEvents + sofar, sofar;
        left := World(world.forests[c.table := f'], world.rows[c.table := rows']);
        RanNot(declared, before, c, who, w, left, f', rows', e, sofar);
        if !NoRoom(e) && SaneCommand(record, c, who, rows) {
          StrandedStands(m, pager.pages, record, f, f', rows');
          AimedIs(before, c.table, w, f', rows');
          WorldStep(declared, m, pager.pages, before, w, c.table, AimedTable(record.schema, f'),
                    AimedIndexes(record.indexes, f'), f', rows');
        }
        return Statement(e), events, left;
      case Modified(count, schema', indexes', written) =>
        transactionEvents, events := transactionEvents + written, written;
        catalog := catalog[c.table := record.(schema := schema', indexes := indexes')];
        world := World(world.forests[c.table := f'], world.rows[c.table := rows']);
        left := world;
        if SaneCommand(record, c, who, rows) {
          ReplayMoved(declared[c.table].schema, record.schema, rows, written);
          FeedIsReplay(declared, w.rows, c.table, written);
          WorldStep(declared, m, pager.pages, before, w, c.table, schema', indexes', f', rows');
          EffectTaken(declared, before, c, who, w, world, written, f', rows');
        }
        r := Ok(count);
        RanWell(declared, before, c, who, w, world, r, written);
    }

    /** Reads the rows of one table that the caller may see and asked for. */
    method Select(table: string, where: Option<Expr>, who: Caller) returns (rs: seq<Row>, error: Option<PlanError>)
      requires Valid() && !broken && table in catalog
      ensures table in world.forests && table in world.rows && |world.forests[table]| > 0
              && SchemaOk(catalog[table].schema)
      ensures forall k :: k in TableKeys(world.forests[table][0]) <==> k in world.rows[table]
      ensures var record, all := catalog[table], AllRows(world.forests[table][0], world.rows[table]);
              && AllEvaluated(all, record.schema, record.policies, ForSelect, where, who)
              && Answerable(record.schema, Secured(record.schema, record.policies, ForSelect, where, who)) ==>
                error.None? && rs == Visible(all, record.schema, record.policies, ForSelect, where, who)
      ensures Reads(catalog[table], who, where, world.rows[table], rs, error)
    {
      assert pager.Valid() && WorldOk(declared, pager.pages, catalog, world);
      hide *;
      TableOpened(declared, pager.pages, catalog, world, table);
      var record := catalog[table];
      var clause := ApplyRlsFilter(record.schema, record.policies, ForSelect, where, who);
      ghost var keys;
      rs, error, keys :=
          SelectRows(pager, record.schema, record.indexes, clause, who, world.forests[table], world.rows[table]);
      ReadsRows(record, who, where, world.rows[table], rs, error, keys);
      SelectsVisible(record, world.forests[table][0], world.rows[table], where, who);
    }

    /** Outside a transaction a statement is a transaction of its own. */
    method Execute(c: Command, who: Caller) returns (r: Reply, ghost events: seq<ChangeEvent>, ghost left: World)
      requires Valid() && !broken
      modifies this, pager
      ensures Valid() && inTransaction == old(inTransaction)
      ensures Ran(declared, old(catalog), c, who, old(world), left, r, events)
      ensures r.Ok? ==> world == left && (SaneIn(old(catalog), c, who, old(world)) ==> !broken)
      ensures inTransaction ==>
                && published == old(published) && saved == old(saved) && snapshot == old(snapshot) && lost == old(lost)
                && transactionEvents == old(transactionEvents) + events
      ensures inTransaction && !r.Ok? ==>
                && catalog == old(catalog)
                && (r.Statement? && !NoRoom(r.error) && SaneIn(old(catalog), c, who, old(world)) ==>
                      WorldOk(declared, pager.pages, Aimed(catalog, c.table, left), left))
                && (Survives(old(catalog), c, who, old(world), left, r) ==> !broken && world == left)
      ensures !inTransaction && !r.Ok? ==>
                && !broken && world == old(world) && pager.pages == old(pager.pages) && catalog == old(catalog)
                && published == old(published) && transactionEvents == []
      ensures !inTransaction && r.Ok? ==>
                if hasListener then published == old(published) + events && transactionEvents == []
                else published == old(published) && transactionEvents == old(transactionEvents) + events
    {
      hide Valid, Ran, SaneIn;
      if inTransaction {
        r, events, left := ExecuteWithin(c, who);
      } else {
        r, events, left := ExecuteAlone(c, who);
      }
    }

    /** A statement of a transaction.  When it fails, what it has done stays. */
    method ExecuteWithin(c: Command, who: Caller)
      returns (r: Reply, ghost events: seq<ChangeEvent>, ghost left: World)
      requires Valid() && !broken && inTransaction
      modifies `catalog, `transactionEvents, `world, `broken, pager
      ensures Valid() && Ran(declared, old(catalog), c, who, old(world), left, r, events)
      ensures transactionEvents == old(transactionEvents) + events
      ensures r.Ok? ==> world == left && (SaneIn(old(catalog), c, who, old(world)) ==> !broken)
      ensures !r.Ok? ==>
                && catalog == old(catalog)
                && (r.Statement? && !NoRoom(r.error) && SaneIn(old(catalog), c, who, old(world)) ==>
                      WorldOk(declared, pager.pages, Aimed(catalog, c.table, left), left))
                && (Survives(old(catalog), c, who, old(world), left, r) ==> !broken && world == left)
    {
      hide *;
      Opened();
      WorldNamed(declared, pager.pages, catalog, world);
      ghost var before := transactionEvents;
      r, events, left := ExecuteMutating(c, who);
      if (r.Ok? && SaneIn(old(catalog), c, who, old(world))) || Survives(old(catalog), c, who, old(world), left, r) {
        world := left;
        SurvivorStands(declared, old(catalog), c, who, old(world), left, r, events);
        if hasListener {
          FeedOn(declared, saved.rows, before, old(world).rows, events);
        }
      } else {
        broken := true;
      }
      StillValid();
    }

    /** A statement that is its own transaction: it is committed or leaves no trace. */
    method ExecuteAlone(c: Command, who: Caller)
      returns (r: Reply, ghost events: seq<ChangeEvent>, ghost left: World)
      requires Valid() && !broken && !inTransaction
      modifies this, pager
      ensures Valid() && !inTransaction && Ran(declared, old(catalog), c, who, old(world), left, r, events)
      ensures r.Ok? ==> world == left && (SaneIn(old(catalog), c, who, old(world)) ==> !broken)
      ensures !r.Ok? ==>
                && !broken && world == old(world) && pager.pages == old(pager.pages) && catalog == old(catalog)
                && published == old(published) && transactionEvents == []
      ensures r.Ok? ==>
                if hasListener then published == old(published) + events && transactionEvents == []
                else published == old(published) && transactionEvents == old(transactionEvents) + events
    {
      hide *;
      Opened();
      StoreIsOk(pager);
      TakeSnapshot();
      r, events, left := ExecuteMutating(c, who);
      if r.Ok? {
        if SaneIn(old(catalog), c, who, old(world)) {
          RanFeeds(declared, old(catalog), c, who, old(world), world, r, events);
        } else {
          broken := true;
        }
        assert hasListener ==> [] + events == events;
        StillValid();
        Publish();
      } else {
        broken := true;
        StillValid();
        Undo();
      }
    }
  }

  lemma StoreIsOk(pager: Pager)
    requires pager.Valid()
    ensures StoreOk(pager.pages, pager.freeList, pager.pageCount)
  {
    hide StoreOk;
  }

  // ----- What one command did

  ghost predicate SaneIn(catalog: map<string, TableRecord>, c: Command, who: Caller, w: World) {
    && c.table in catalog && c.table in w.rows && RowsOk(catalog[c.table].schema, w.rows[c.table])
    && SaneCommand(catalog[c.table], c, who, w.rows[c.table])
  }

  ghost predicate AssuredIn(catalog: map<string, TableRecord>, c: Command, who: Caller, w: World) {
    && c.table in catalog && c.table in w.rows && c.table in w.forests
    && RowsOk(catalog[c.table].schema, w.rows[c.table])
    && Assured(catalog[c.table], c, who, w.forests[c.table], w.rows[c.table])
  }

  ghost predicate FittingIn(catalog: map<string, TableRecord>, c: Command, who: Caller, w: World) {
    && c.table in catalog && c.table in w.rows && c.table in w.forests
    && RowsOk(catalog[c.table].schema, w.rows[c.table])
    && FittingCommand(catalog[c.table], c, who, w.forests[c.table], w.rows[c.table])
  }

  /** The command had its effect on its table and on no other; the events say what changed; trees that were kept to
      fixed widths still are. */
  ghost predicate TookEffect(declared: map<string, TableRecord>, catalog: map<string, TableRecord>, c: Command,
                             who: Caller, w: World, w': World, events: seq<ChangeEvent>) {
    && c.table in catalog && c.table in w.rows && c.table in w'.rows && c.table in w.forests && c.table in w'.forests
    && Effect(catalog[c.table], c, who, w.rows[c.table], w'.rows[c.table], events)
    && w'.rows == w.rows[c.table := w'.rows[c.table]] && w'.rows == Feed(declared, w.rows, events)
    && (FittingIn(catalog, c, who, w) ==> SameDisciplines(w.forests[c.table], w'.forests[c.table]))
  }

  /** The command stopped at a row, for the reason given; `left` is what it had done by then. */
  ghost predicate StoppedIn(catalog: map<string, TableRecord>, c: Command, who: Caller, w: World, left: World,
                            e: StatementError, events: seq<ChangeEvent>) {
    && c.table in catalog && c.table in w.rows && c.table in left.rows
    && c.table in w.forests && c.table in left.forests
    && RowsOk(catalog[c.table].schema, w.rows[c.table])
    && HasStopped(catalog[c.table], c, who, w.rows[c.table], left.rows[c.table], e, events)
    && left.rows == w.rows[c.table := left.rows[c.table]]
    && left.forests == w.forests[c.table := left.forests[c.table]]
    && (RoomFor(c, w.forests[c.table]) && SaneIn(catalog, c, who, w) && FittingIn(catalog, c, who, w) ==> !NoRoom(e))
  }

  ghost predicate EffectIn(catalog: map<string, TableRecord>, c: Command, who: Caller, w: World, left: World,
                           events: seq<ChangeEvent>) {
    && c.table in catalog && c.table in w.rows && c.table in left.rows
    && Effect(catalog[c.table], c, who, w.rows[c.table], left.rows[c.table], events)
  }

  /** What every statement does, in a transaction or not.  `left` is what it left, or would have left. */
  ghost predicate Ran(declared: map<string, TableRecord>, catalog: map<string, TableRecord>, c: Command, who: Caller,
                      w: World, left: World, r: Reply, events: seq<ChangeEvent>) {
    && (r.Ok? || r.Statement? || r.NoSuchTable?)
    && (r.NoSuchTable? <==> c.table !in catalog)
    && (r.NoSuchTable? ==> r == NoSuchTable(c.table) && events == [] && left == w)
    && (r.Ok? ==> |events| == r.count && EffectIn(catalog, c, who, w, left, events))
    && (r.Ok? && SaneIn(catalog, c, who, w) ==> TookEffect(declared, catalog, c, who, w, left, events))
    && (r.Statement? ==> StoppedIn(catalog, c, who, w, left, r.error, events))
    && (AssuredIn(catalog, c, who, w) ==> r.Ok?)
  }

  /** The records of a table, pointed to its trees. */
  function AimedTable(schema: TableSchema, f: seq<Rooted>): TableSchema
    requires |f| > 0
  {
    schema.(rootPage := f[0].tree.p)
  }

  function AimedIndexes(indexes: seq<IndexSchema>, f: seq<Rooted>): (r: seq<IndexSchema>)
    requires |f| == 1 + |indexes|
    ensures |r| == |indexes| && forall i :: 0 <= i < |r| ==> r[i] == indexes[i].(rootPage := f[1 + i].tree.p)
  {
    seq(|indexes|, i requires 0 <= i < |indexes| => indexes[i].(rootPage := f[1 + i].tree.p))
  }

  /** The catalog as it would be if it were told where the roots of a table are now; it is the same catalog exactly
      when none has moved. */
  ghost function Aimed(catalog: map<string, TableRecord>, n: string, w: World): map<string, TableRecord> {
    if n in catalog && n in w.forests && |w.forests[n]| == 1 + |catalog[n].indexes| then
      catalog[n := catalog[n].(schema := AimedTable(catalog[n].schema, w.forests[n]),
                               indexes := AimedIndexes(catalog[n].indexes, w.forests[n]))]
    else catalog
  }

  lemma AimedIs(catalog: map<string, TableRecord>, n: string, w: World, f: seq<Rooted>, rows: map<Key, Row>)
    requires n in catalog && |f| == 1 + |catalog[n].indexes|
    ensures Aimed(catalog, n, World(w.forests[n := f], w.rows[n := rows]))
         == catalog[n := catalog[n].(schema := AimedTable(catalog[n].schema, f),
                                     indexes := AimedIndexes(catalog[n].indexes, f))]
  {
  }

  lemma StrandedStands(m: map<PageNo, Page>, m': map<PageNo, Page>, record: TableRecord, f: seq<Rooted>,
                       g: seq<Rooted>, rows': map<Key, Row>)
    requires Stranded(m, m', record.schema, record.indexes, f, g, rows') && DistinctNames(record.indexes)
    ensures |g| == 1 + |record.indexes|
    ensures Standing(m, m', record.schema, record.indexes, f, AimedTable(record.schema, g),
                     AimedIndexes(record.indexes, g), g, rows')
  {
    hide Planted, Elsewhere, TableIs, IndexIs, ModelOf, RowsOk, IndexOk;
    var schema', indexes' := AimedTable(record.schema, g), AimedIndexes(record.indexes, g);
    AlikeMoved(record.schema, schema', record.indexes, indexes', g, rows');
    AlikeRooted(schema', indexes', g, rows');
  }

  lemma AlikeRooted(schema: TableSchema, indexes: seq<IndexSchema>, f: seq<Rooted>, rows: map<Key, Row>)
    requires Alike(schema, indexes, f, rows) && f[0].tree.p == schema.rootPage
    requires forall i :: 0 <= i < |indexes| ==> f[1 + i].tree.p == indexes[i].rootPage
    ensures Agree(schema, indexes, f, rows) && RootedAt(schema, indexes, f)
  {
    hide TableIs, IndexIs, ModelOf;
    AgreeAlike(schema, indexes, f, rows);
  }

  /** A statement that failed within a transaction has left a database in order: the catalog still finds every tree,
      and the events account for what it did. */
  ghost predicate Survives(catalog: map<string, TableRecord>, c: Command, who: Caller, w: World, left: World, r: Reply)
  {
    || r.NoSuchTable?
    || (r.Statement? && SaneIn(catalog, c, who, w) && !NoRoom(r.error) && !Silent(c, r.error)
        && Aimed(catalog, c.table, left) == catalog)
  }

  lemma SurvivorStands(declared: map<string, TableRecord>, catalog: map<string, TableRecord>, c: Command,
                       who: Caller, w: World, left: World, r: Reply, events: seq<ChangeEvent>)
    requires Ran(declared, catalog, c, who, w, left, r, events) && Named(declared, catalog)
    requires (r.Ok? && SaneIn(catalog, c, who, w)) || Survives(catalog, c, who, w, left, r)
    ensures Feed(declared, w.rows, events) == left.rows
    ensures (r.Ok? ==> SaneIn(catalog, c, who, w)) && (r.NoSuchTable? ==> left == w)
    ensures r.Statement? ==> SaneIn(catalog, c, who, w) && !NoRoom(r.error) && Aimed(catalog, c.table, left) == catalog
    ensures r.Ok? || r.Statement? || r.NoSuchTable?
  {
    hide SaneIn, FittingIn, AssuredIn, Effect, HasStopped, Feed, Aimed, Replay, SaneCommand;
    FeedNone(declared, w.rows);
    if r.Statement? {
      StoppedFeeds(declared, catalog, c, who, w, left, r.error, events);
    }
  }

  lemma FeedNone(declared: map<string, TableRecord>, db: Database)
    ensures Feed(declared, db, []) == db
  {
  }

  /** The catalog has the declared tables under their names. */
  ghost predicate Named(declared: map<string, TableRecord>, catalog: map<string, TableRecord>) {
    && catalog.Keys == declared.Keys && (forall n :: n in declared ==> declared[n].schema.name == n)
    && forall n :: n in catalog ==>
         catalog[n].schema == declared[n].schema.(rootPage := catalog[n].schema.rootPage)
  }

  lemma WorldNamed(declared: map<string, TableRecord>, m: map<PageNo, Page>, catalog: map<string, TableRecord>,
                   w: World)
    requires WorldOk(declared, m, catalog, w)
    ensures Named(declared, catalog)
  {
    hide Planted, Agree, AllSeparate;
  }

  /** What a failed statement has told the listeners accounts for what it has done exactly when no UPDATE was refused
      a row. */
  lemma StoppedFeeds(declared: map<string, TableRecord>, catalog: map<string, TableRecord>, c: Command, who: Caller,
                     w: World, left: World, e: StatementError, events: seq<ChangeEvent>)
    requires StoppedIn(catalog, c, who, w, left, e, events) && Named(declared, catalog)
    ensures Feed(declared, w.rows, events) == left.rows <==> !Silent(c, e)
  {
    hide SaneIn, FittingIn, HasStopped, Feed, Replay, RowsOk;
    var record, rows := catalog[c.table], w.rows[c.table];
    StoppedReplays(record, c, who, rows, left.rows[c.table], e, events);
    ReplayMoved(declared[c.table].schema, record.schema, rows, events);
    FeedIsReplay(declared, w.rows, c.table, events);
  }

  /** So an UPDATE that sets a column to NULL that must not be loses the first row of its table, without an event. */
  lemma RefusedUpdate(record: TableRecord, table: string, name: string, who: Caller, rows: map<Key, Row>,
                      rows': map<Key, Row>, e: StatementError, sofar: seq<ChangeEvent>) returns (k: Key)
    requires RowsOk(record.schema, rows) && (!record.schema.rlsEnabled || who.isAdmin)
    requires var c := FindColumn(record.schema.columns, name);
             c < |record.schema.columns| && record.schema.columns[c].notNull && !record.schema.columns[c].isPrimaryKey
    requires HasStopped(record, Update(table, [(name, NullLiteral)], None), who, rows, rows', e, sofar) && !NoRoom(e)
    ensures e == Exec(NotNullViolation(name)) && sofar == [] && k in rows && rows' == rows - {k}
  {
    hide RowsOk, Replay, UpdateStops, KeysOfClause, TargetsOk, EvaluatesOn, SeekSound, Seekable;
    var schema, c := record.schema, FindColumn(record.schema.columns, name);
    var com := Update(table, [(name, NullLiteral)], None);
    SchemaOfRows(schema, rows);
    var targets, keys :| UpdateStopped(record, com, who, rows, rows', targets, keys, e, sofar);
    assert NameError(schema, name) == None && ClauseOf(record, com, who) == None;
    assert targets == [(c, NullLiteral)];
    NullRefused(schema, rows, keys, targets, who, e, sofar, c);
    NothingReplayed(schema, rows);
    k := keys[0];
  }

  lemma NothingReplayed(schema: TableSchema, rows: map<Key, Row>)
    ensures Replay(schema, rows, []) == rows
  {
  }

  lemma NullRefused(schema: TableSchema, rows: map<Key, Row>, keys: seq<Key>, targets: seq<(nat, Expr)>, who: Caller,
                    e: StatementError, sofar: seq<ChangeEvent>, c: nat)
    requires RowsOk(schema, rows) && TargetsOk(schema, targets) && targets == [(c, NullLiteral)]
    requires c < |schema.columns| && schema.columns[c].notNull && !NoRoom(e)
    requires UpdateStops(schema, rows, keys, targets, who, e, sofar)
    ensures e == Exec(NotNullViolation(schema.columns[c].name)) && sofar == [] && keys != [] && keys[0] in rows
  {
    hide CheckRow, RowKey, Replay, RowError;
    forall k | k in rows
      ensures UpdateError(schema, rows[k], targets, who) == Some(Exec(NotNullViolation(schema.columns[c].name)))
    {
      var row := rows[k];
      assert Assign(row, targets[..0], schema.columns, who) == NewRow(row);
      assert Assign(row, targets, schema.columns, who) == NewRow(row[c := Null]);
      NullFound(schema.columns, row, c, 0);
      RowErrorOf(schema.columns, row[c := Null]);
    }
    FirstUpdated(schema, rows, keys, targets, who, e, sofar);
  }

  /** A row with an event had nothing wrong with it. */
  lemma FirstUpdated(schema: TableSchema, rows: map<Key, Row>, keys: seq<Key>, targets: seq<(nat, Expr)>, who: Caller,
                     e: StatementError, sofar: seq<ChangeEvent>)
    requires RowsOk(schema, rows) && TargetsOk(schema, targets)
    requires UpdateStops(schema, rows, keys, targets, who, e, sofar)
    ensures keys != [] && keys[0] in rows
    ensures sofar == [] || UpdateError(schema, rows[keys[0]], targets, who) == None
  {
    hide RowsOk, TargetsOk, Replay, UpdateError, UpdateFails;
    assert sofar != [] ==> keys[..|sofar|][0] == keys[0];
  }

  lemma RowErrorOf(columns: seq<Column>, row: Row)
    requires |row| == |columns|
    ensures CheckRow(columns, row, 0).Some? ==> RowError(columns, row) == CheckRow(columns, row, 0)
  {
  }

  lemma {:induction false} NullFound(columns: seq<Column>, row: Row, c: nat, i: nat)
    requires |row| == |columns| && i <= c < |columns| && columns[c].notNull && CheckRow(columns, row, i) == None
    ensures CheckRow(columns, row[c := Null], i) == Some(NotNullViolation(columns[c].name))
    decreases c - i
  {
    if i < c {
      NullFound(columns, row, c, i + 1);
    }
  }

  /** COMMIT after a statement that failed: the published events account for what it has left exactly when no UPDATE
      was refused a row. */
  lemma CommittedAfterStop(declared: map<string, TableRecord>, catalog: map<string, TableRecord>, c: Command,
                           who: Caller, start: Database, published: seq<ChangeEvent>, pending: seq<ChangeEvent>,
                           w: World, left: World, e: StatementError, events: seq<ChangeEvent>)
    requires StoppedIn(catalog, c, who, w, left, e, events) && Named(declared, catalog)
    requires Feed(declared, start, published + pending) == w.rows
    ensures Feed(declared, start, published + (pending + events)) == left.rows <==> !Silent(c, e)
  {
    hide StoppedIn, Feed, Silent;
    assert published + (pending + events) == published + pending + events;
    FeedConcat(declared, start, published + pending, events);
    StoppedFeeds(declared, catalog, c, who, w, left, e, events);
  }

  lemma RanFeeds(declared: map<string, TableRecord>, catalog: map<string, TableRecord>, c: Command, who: Caller,
                 w: World, w': World, r: Reply, events: seq<ChangeEvent>)
    requires Ran(declared, catalog, c, who, w, w', r, events) && r.Ok? && SaneIn(catalog, c, who, w)
    ensures Feed(declared, w.rows, events) == w'.rows
  {
    hide Effect, Feed, FittingIn, SaneIn, AssuredIn;
  }

  lemma RanTable(declared: map<string, TableRecord>, catalog: map<string, TableRecord>, c: Command, who: Caller,
                 w: World, w': World, r: Reply, events: seq<ChangeEvent>)
    requires Ran(declared, catalog, c, who, w, w', r, events) && r.Ok?
    ensures c.table in catalog
  {
    hide SaneIn, AssuredIn, TookEffect;
  }

  lemma NoTable(declared: map<string, TableRecord>, catalog: map<string, TableRecord>, c: Command, who: Caller,
                w: World)
    requires c.table !in catalog
    ensures Ran(declared, catalog, c, who, w, w, NoSuchTable(c.table), [])
  {
  }

  lemma RanNot(declared: map<string, TableRecord>, catalog: map<string, TableRecord>, c: Command, who: Caller, w: World,
               left: World, f': seq<Rooted>, rows': map<Key, Row>, e: StatementError, events: seq<ChangeEvent>)
    requires c.table in catalog && c.table in w.rows && c.table in w.forests && !AssuredIn(catalog, c, who, w)
    requires left == World(w.forests[c.table := f'], w.rows[c.table := rows'])
    requires RowsOk(catalog[c.table].schema, w.rows[c.table])
    requires HasStopped(catalog[c.table], c, who, w.rows[c.table], rows', e, events)
    requires RoomFor(c, w.forests[c.table]) && SaneIn(catalog, c, who, w) && FittingIn(catalog, c, who, w) ==>
               !NoRoom(e)
    ensures Ran(declared, catalog, c, who, w, left, Statement(e), events)
  {
    hide AssuredIn, SaneIn, FittingIn, HasStopped, RowsOk, AllFixed;
  }

  lemma RanWell(declared: map<string, TableRecord>, catalog: map<string, TableRecord>, c: Command, who: Caller,
                w: World, w': World, r: Reply, events: seq<ChangeEvent>)
    requires c.table in catalog && r == Ok(|events|)
    requires c.table in w.rows && c.table in w'.rows
    requires Effect(catalog[c.table], c, who, w.rows[c.table], w'.rows[c.table], events)
    requires SaneIn(catalog, c, who, w) ==> TookEffect(declared, catalog, c, who, w, w', events)
    ensures Ran(declared, catalog, c, who, w, w', r, events)
  {
    hide SaneIn, AssuredIn, TookEffect, Effect;
  }

  lemma IsIn(catalog: map<string, TableRecord>, c: Command, who: Caller, w: World)
    requires c.table in catalog && c.table in w.rows && c.table in w.forests
    requires RowsOk(catalog[c.table].schema, w.rows[c.table])
    ensures SaneIn(catalog, c, who, w) <==> SaneCommand(catalog[c.table], c, who, w.rows[c.table])
    ensures AssuredIn(catalog, c, who, w) <==> Assured(catalog[c.table], c, who, w.forests[c.table], w.rows[c.table])
    ensures FittingIn(catalog, c, who, w) <==>
              FittingCommand(catalog[c.table], c, who, w.forests[c.table], w.rows[c.table])
  {
    hide RowsOk, SaneCommand, Assured, FittingCommand;
  }

  lemma EffectTaken(declared: map<string, TableRecord>, catalog: map<string, TableRecord>, c: Command, who: Caller,
               w: World, w': World, events: seq<ChangeEvent>, f': seq<Rooted>, rows': map<Key, Row>)
    requires c.table in catalog && c.table in w.rows && c.table in w.forests
    requires w' == World(w.forests[c.table := f'], w.rows[c.table := rows'])
    requires Effect(catalog[c.table], c, who, w.rows[c.table], rows', events)
    requires Feed(declared, w.rows, events) == w.rows[c.table := rows']
    requires FittingIn(catalog, c, who, w) ==> SameDisciplines(w.forests[c.table], f')
    ensures TookEffect(declared, catalog, c, who, w, w', events)
  {
    hide Effect, Feed, FittingIn, SameDisciplines;
  }

  lemma StandingIs(m: map<PageNo, Page>, m': map<PageNo, Page>, schema: TableSchema, indexes: seq<IndexSchema>,
                   f: seq<Rooted>, schema': TableSchema, indexes': seq<IndexSchema>, f': seq<Rooted>,
                   rows': map<Key, Row>)
    requires Upright(m, m', schema, indexes, f, schema', indexes', f') && Agree(schema', indexes', f', rows')
    ensures Standing(m, m', schema, indexes, f, schema', indexes', f', rows')
  {
    hide Upright, Agree;
  }

  /** What a statement has done: its whole effect, in trees that agree; or why it stopped, and what it left.  One that
      nothing stands in the way of is not stopped, and one that is stopped for want of room had none. */
  ghost predicate HasRun(m: map<PageNo, Page>, m': map<PageNo, Page>, record: TableRecord, c: Command, who: Caller,
                         f: seq<Rooted>, rows: map<Key, Row>, s: StatementResult, f': seq<Rooted>,
                         rows': map<Key, Row>)
    requires RowsOk(record.schema, rows)
  {
    && (s.Modified? ==> s.count == |s.events| && Effect(record, c, who, rows, rows', s.events))
    && (s.Modified? && SaneCommand(record, c, who, rows) ==>
          && Standing(m, m', record.schema, record.indexes, f, s.schema, s.indexes, f', rows')
          && rows' == Replay(record.schema, rows, s.events) && OnTable(record.schema.name, s.events))
    && (s.Modified? && FittingCommand(record, c, who, f, rows) ==> SameDisciplines(f, f'))
    && (s.Aborted? ==> HasStopped(record, c, who, rows, rows', s.error, s.sofar))
    && (s.Aborted? && !NoRoom(s.error) && SaneCommand(record, c, who, rows) ==>
          Stranded(m, m', record.schema, record.indexes, f, f', rows'))
    && (s.Aborted? && RoomFor(c, f) && SaneCommand(record, c, who, rows) && FittingCommand(record, c, who, f, rows) ==>
          !NoRoom(s.error))
    && (Assured(record, c, who, f, rows) ==> s.Modified?)
    && (s.Aborted? && ForRoom(s.error) ==> OutOfRoom(m, record, c, who, f, rows, s.error, s.sofar))
  }

  lemma RunFacts(m: map<PageNo, Page>, m': map<PageNo, Page>, record: TableRecord, c: Command, who: Caller,
                 f: seq<Rooted>, rows: map<Key, Row>, s: StatementResult, f': seq<Rooted>, rows': map<Key, Row>)
    requires RowsOk(record.schema, rows) && HasRun(m, m', record, c, who, f, rows, s, f', rows')
    ensures s.Modified? ==> s.count == |s.events| && Effect(record, c, who, rows, rows', s.events)
    ensures s.Modified? && SaneCommand(record, c, who, rows) ==>
              && Standing(m, m', record.schema, record.indexes, f, s.schema, s.indexes, f', rows')
              && rows' == Replay(record.schema, rows, s.events) && OnTable(record.schema.name, s.events)
    ensures s.Modified? && FittingCommand(record, c, who, f, rows) ==> SameDisciplines(f, f')
    ensures s.Aborted? ==> HasStopped(record, c, who, rows, rows', s.error, s.sofar)
    ensures s.Aborted? && !NoRoom(s.error) && SaneCommand(record, c, who, rows) ==>
              Stranded(m, m', record.schema, record.indexes, f, f', rows')
    ensures s.Aborted? && RoomFor(c, f) && SaneCommand(record, c, who, rows)
            && FittingCommand(record, c, who, f, rows) ==>
              !NoRoom(s.error)
    ensures Assured(record, c, who, f, rows) ==> s.Modified?
  {
    hide RowsOk, Effect, SaneCommand, FittingCommand, Standing, SameDisciplines, HasStopped, Stranded, Assured,
      OutOfRoom, Replay, OnTable, RoomFor;
  }

  lemma InsertRan(record: TableRecord, c: Command, who: Caller, m: map<PageNo, Page>, m': map<PageNo, Page>,
                  f: seq<Rooted>, rows: map<Key, Row>, s: StatementResult, f': seq<Rooted>, rows': map<Key, Row>)
    requires c.Insert? && RowsOk(record.schema, rows) && SchemaOk(record.schema)
    requires var schema, indexes, rs := record.schema, record.indexes, c.rows;
             var policies := PoliciesFor(schema, record.policies, who);
             && (s.Modified? ==>
                   && Upright(m, m', schema, indexes, f, s.schema, s.indexes, f')
                   && rows' == Replay(schema, rows, s.events) && s.events == InsertEvents(schema.name, rs)
                   && s.count == |rs| && (AllAccepted(schema, indexes, f, rs) ==> SameDisciplines(f, f'))
                   && AllAdmitted(schema, record.policies, rs, who))
             && (s.Modified? && AllSane(schema, rs) ==>
                   Agree(s.schema, s.indexes, f', rows') && Inserts(schema, policies, who, rows, rows', rs))
             && (s.Aborted? && AllSplit(f) && AllSane(schema, rs) && AllAccepted(schema, indexes, f, rs) ==>
                   (policies == Some([]) || RefusesSome(schema, policies, who, rows, rs)) && !NoRoom(s.error))
             && (s.Aborted? ==>
                   && rows' == Replay(schema, rows, s.sofar)
                   && if policies == Some([]) then s == Aborted(PolicyViolation, [])
                      else InsertStops(schema, policies, who, rows, rs, s.error, s.sofar))
             && (s.Aborted? && ForRoom(s.error) ==>
                   |s.sofar| < |rs| && RanOut(m, schema, indexes, f, rows, rs, |s.sofar|, s.error))
             && (s.Aborted? && !NoRoom(s.error) && AllSane(schema, rs) ==>
                   Stranded(m, m', schema, indexes, f, f', rows'))
    ensures HasRun(m, m', record, c, who, f, rows, s, f', rows')
  {
    hide RowsOk, Upright, Agree, AllSane, AllAccepted, AllAdmitted, Inserts, RefusesSome, InsertStops, RanOut, Stranded,
      Replay, Effect, HasStopped, OutOfRoom, Standing, SameDisciplines, SaneCommand, FittingCommand, Assured, RoomFor,
      AllSplit, PoliciesFor;
    InsertCase(record, c, who, f, rows);
    if s.Modified? {
      EffectOfInsert(record, c, who, rows, rows', s.events);
      if AllSane(record.schema, c.rows) {
        StandingIs(m, m', record.schema, record.indexes, f, s.schema, s.indexes, f', rows');
      }
    } else {
      InsertHasStopped(record, c, who, rows, rows', s.error, s.sofar);
      if ForRoom(s.error) {
        InsertOutOfRoom(m, record, c, who, f, rows, s.error, s.sofar);
      }
    }
  }

  lemma DeleteRan(record: TableRecord, c: Command, who: Caller, m: map<PageNo, Page>, m': map<PageNo, Page>,
                  f: seq<Rooted>, rows: map<Key, Row>, keys: seq<Key>, s: StatementResult, f': seq<Rooted>,
                  rows': map<Key, Row>)
    requires c.Delete? && RowsOk(record.schema, rows) && SchemaOk(record.schema)
    requires var schema, indexes := record.schema, record.indexes;
             var clause := Secured(schema, record.policies, ForDelete, c.where, who);
             && (s.Modified? ==>
                   && Standing(m, m', schema, indexes, f, s.schema, s.indexes, f', rows')
                   && rows' == Replay(schema, rows, s.events) && s.count == |s.events|
                   && OnTable(schema.name, s.events) && DeleteEvents(schema.name, rows, keys, s.events)
                   && SameDisciplines(f, f') && Finds(keys, schema, indexes, rows, clause, who))
             && (s.Modified? && Selects(schema, indexes, rows, clause, who) ==>
                   KeysOfClause(keys, schema, rows, clause, who) && rows' == AfterDelete(schema, rows, clause, who))
             && (AllFixed(f) && Plannable(schema, rows, clause, who) ==> s.Modified?)
             && (s.Aborted? ==> rows' == Replay(schema, rows, s.sofar) && (AllFixed(f) ==> !NoRoom(s.error)))
             && (s.Aborted? && !NoRoom(s.error) ==>
                   && s.error.Plan? && s.sofar == [] && !Plannable(schema, rows, clause, who)
                   && PlanFails(schema, indexes, rows, clause, who, s.error.plan)
                   && Stranded(m, m', schema, indexes, f, f', rows'))
             && (s.Aborted? && NoRoom(s.error) ==>
                   && DeleteStops(schema, rows, keys, s.error, s.sofar)
                   && Finds(keys, schema, indexes, rows, clause, who)
                   && DeleteRanOut(m, schema, indexes, f, rows, keys, s.sofar)
                   && (Selects(schema, indexes, rows, clause, who) ==> KeysOfClause(keys, schema, rows, clause, who)))
    ensures HasRun(m, m', record, c, who, f, rows, s, f', rows')
  {
    DeleteCase(record, c, who, f, rows);
    hide RowsOk, Standing, Replay, OnTable, DeleteEvents, SameDisciplines, Finds, Selects, KeysOfClause, AfterDelete,
      AllFixed, Plannable, PlanFails, Stranded, DeleteStops, DeleteRanOut, Effect, HasStopped, OutOfRoom, Assured,
      SaneCommand, FittingCommand, Secured, ClauseOf;
    if s.Modified? {
      EffectOfDelete(record, c, who, rows, rows', keys, s.events);
    } else {
      DeleteHasStopped(record, c, who, rows, rows', keys, s.error, s.sofar);
      DeleteOutOfRoom(m, record, c, who, f, rows, keys, s.error, s.sofar);
    }
  }

  lemma InsertCase(record: TableRecord, c: Command, who: Caller, f: seq<Rooted>, rows: map<Key, Row>)
    requires c.Insert? && RowsOk(record.schema, rows)
    ensures SaneCommand(record, c, who, rows) <==> AllSane(record.schema, c.rows)
    ensures RoomFor(c, f) <==> AllSplit(f)
    ensures FittingCommand(record, c, who, f, rows) <==> AllAccepted(record.schema, record.indexes, f, c.rows)
    ensures SchemaOk(record.schema)
    ensures Assured(record, c, who, f, rows) ==>
              && AllSplit(f) && AllSane(record.schema, c.rows) && AllAccepted(record.schema, record.indexes, f, c.rows)
              && PoliciesFor(record.schema, record.policies, who) != Some([])
              && !RefusesSome(record.schema, PoliciesFor(record.schema, record.policies, who), who, rows, c.rows)
  {
    SchemaOfRows(record.schema, rows);
    hide RowsOk, AllSane, AllAccepted, RefusesSome, AllSplit;
  }

  lemma UpdateCase(record: TableRecord, c: Command, who: Caller, f: seq<Rooted>, rows: map<Key, Row>,
                   targets: seq<(nat, Expr)>)
    requires c.Update? && RowsOk(record.schema, rows)
    ensures SchemaOk(record.schema)
            && ClauseOf(record, c, who) == Secured(record.schema, record.policies, ForUpdate, c.where, who)
    ensures Resolved(record.schema, c.assignments, targets) ==>
              && (SaneCommand(record, c, who, rows) ==>
                 SaneUpdate(record.schema, rows, targets, ClauseOf(record, c, who), who))
              && (FittingCommand(record, c, who, f, rows) ==>
                    FittingUpdate(record.schema, record.indexes, f, rows, targets, ClauseOf(record, c, who), who))
              && (Assured(record, c, who, f, rows) ==>
                    !Unassignable(record.schema, rows, targets, ClauseOf(record, c, who), who))
    ensures Assured(record, c, who, f, rows) ==>
              && AllFixed(f) && SaneCommand(record, c, who, rows) && FittingCommand(record, c, who, f, rows)
              && Plannable(record.schema, rows, ClauseOf(record, c, who), who)
              && (|targets| < |c.assignments| ==> NameError(record.schema, c.assignments[|targets|].0) == None)
  {
    SchemaOfRows(record.schema, rows);
    hide RowsOk, SaneUpdate, FittingUpdate, Unassignable, AllFixed, Resolved, Plannable, Secured;
  }

  lemma UpdateRan(record: TableRecord, c: Command, who: Caller, m: map<PageNo, Page>, m': map<PageNo, Page>,
                  f: seq<Rooted>, rows: map<Key, Row>, targets: seq<(nat, Expr)>, keys: seq<Key>, s: StatementResult,
                  f': seq<Rooted>, rows': map<Key, Row>)
    requires c.Update? && RowsOk(record.schema, rows)
    requires AssignedFirst(record.schema, c.assignments, targets) && TargetsOk(record.schema, targets)
    requires var clause := Secured(record.schema, record.policies, ForUpdate, c.where, who);
             |targets| == |c.assignments| ==>
               && Resolved(record.schema, c.assignments, targets)
               && UpdateResult(m, m', record.schema, record.indexes, f, rows, f', rows', keys, targets, clause, who, s)
    requires |targets| != |c.assignments| ==>
               && s.Aborted? && NameError(record.schema, c.assignments[|targets|].0) == Some(s.error) && s.sofar == []
               && rows' == rows && Stranded(m, m', record.schema, record.indexes, f, f', rows)
    requires |targets| == |c.assignments| && s.Aborted? && ForRoom(s.error) ==>
               UpdateRanOut(m, record.schema, record.indexes, f, rows, keys, targets, who, s.error, s.sofar)
    ensures HasRun(m, m', record, c, who, f, rows, s, f', rows')
  {
    hide RowsOk, TargetsOk, Resolved, Upright, Agree, SaneUpdate, FittingUpdate, SaneCommand,
      FittingCommand, Assured, AllFixed, Plannable, KeysOfClause, UpdateStops, UpdateEvents, RowsLeft, Stranded, Replay,
      OnTable, SameDisciplines, SelectedKeys, AfterUpdate, ClauseOf, Secured, HasStopped, Effect, NameError, Standing,
      UpdateRanOut, OutOfRoom;
    UpdateCase(record, c, who, f, rows, targets);
    if |targets| != |c.assignments| {
      NamesWrong(record.schema, c.assignments[|targets|].0, rows, keys);
    }
    if s.Modified? {
      EffectOfUpdate(record, c, who, rows, rows', targets, keys, s.events);
      if SaneCommand(record, c, who, rows) {
        StandingIs(m, m', record.schema, record.indexes, f, s.schema, s.indexes, f', rows');
      }
    } else {
      UpdateHasStopped(record, c, who, rows, rows', targets, keys, s.error, s.sofar);
      UpdateOutOfRoom(m, record, c, who, f, rows, targets, keys, s.error, s.sofar);
      UpdateGoesOn(record, c, who, f, rows, targets, keys, s.error, s.sofar);
      AssuredRoom(record, c, who, f, rows);
    }
  }

  lemma NamesWrong(schema: TableSchema, name: string, rows: map<Key, Row>, keys: seq<Key>)
    ensures NameError(schema, name).Some? ==>
              var e := NameError(schema, name).value;
              !e.Exec? && !NoRoom(e) && RowsLeft(schema, rows, keys, e, []) == rows
  {
  }

  lemma AssuredRoom(record: TableRecord, c: Command, who: Caller, f: seq<Rooted>, rows: map<Key, Row>)
    requires RowsOk(record.schema, rows)
    ensures Assured(record, c, who, f, rows) ==>
              RoomFor(c, f) && SaneCommand(record, c, who, rows) && FittingCommand(record, c, who, f, rows)
  {
    hide RowsOk, RoomFor, SaneCommand, FittingCommand;
  }

  lemma DeleteCase(record: TableRecord, c: Command, who: Caller, f: seq<Rooted>, rows: map<Key, Row>)
    requires c.Delete? && RowsOk(record.schema, rows)
    ensures SchemaOk(record.schema)
            && ClauseOf(record, c, who) == Secured(record.schema, record.policies, ForDelete, c.where, who)
    ensures SaneCommand(record, c, who, rows) && FittingCommand(record, c, who, f, rows)
    ensures Assured(record, c, who, f, rows) ==>
            AllFixed(f) && Plannable(record.schema, rows, ClauseOf(record, c, who), who)
  {
    SchemaOfRows(record.schema, rows);
    hide RowsOk, AllFixed, Plannable, Secured;
  }

  // ----- Sessions

  datatype Action = BeginTx | CommitTx | RollbackTx | Run(command: Command, who: Caller)

  /** Catalog and world, and what a transaction goes back to; the events that wait for COMMIT, and those published. */
  datatype State =
    | Idle(catalog: map<string, TableRecord>, world: World, pending: seq<ChangeEvent>, published: seq<ChangeEvent>)
    | Within(savedCatalog: map<string, TableRecord>, saved: World, catalog: map<string, TableRecord>, world: World,
             pending: seq<ChangeEvent>, published: seq<ChangeEvent>)

  ghost function StateOf(engine: Engine): State
    reads engine
  {
    if engine.inTransaction then
      Within(engine.snapshot.catalog, engine.saved, engine.catalog, engine.world, engine.transactionEvents,
          engine.published)
    else Idle(engine.catalog, engine.world, engine.transactionEvents, engine.published)
  }

  /** What waits is published, if anyone listens. */
  ghost function Flushed(listening: bool, catalog: map<string, TableRecord>, world: World, pending: seq<ChangeEvent>,
                         published: seq<ChangeEvent>): State {
    if listening then Idle(catalog, world, [], published + pending) else Idle(catalog, world, pending, published)
  }

  /** What a rollback leaves. */
  ghost function RolledBack(s: State): State {
    if s.Within? then Idle(s.savedCatalog, s.saved, [], s.published) else Idle(s.catalog, s.world, [], s.published)
  }

  ghost predicate SameRecord(declared: TableRecord, record: TableRecord) {
    SameButRoots(declared.schema, record.schema, declared.indexes, record.indexes)
        && record.policies == declared.policies
  }

  /** The catalog is, but for the roots, the one that was declared. */
  ghost predicate AsDeclared(declared: map<string, TableRecord>, catalog: map<string, TableRecord>) {
    catalog.Keys == declared.Keys && forall n :: n in catalog ==> SameRecord(declared[n], catalog[n])
  }

  /** One step of a client that answers a failure inside a transaction with ROLLBACK.  A statement fails only if
      something stood in its way, and the reply says what, at the row where it was met. */
  ghost predicate StepOk(declared: map<string, TableRecord>, listening: bool, s: State, a: Action, reply: Reply,
                         events: seq<ChangeEvent>, s': State) {
    match a
    case BeginTx =>
      if s.Within? then reply == NestedTransactionNotSupported && s' == s
      else reply == Ok(0) && s' == Within(s.catalog, s.world, s.catalog, s.world, [], s.published)
    case CommitTx =>
      if s.Idle? then reply == NoTransactionInProgress && s' == s
      else reply == Ok(0) && s' == Flushed(listening, s.catalog, s.world, s.pending, s.published)
    case RollbackTx =>
      if s.Idle? then reply == NoTransactionInProgress && s' == s else reply == Ok(0) && s' == RolledBack(s)
    case Run(c, who) =>
      if c.table !in s.catalog then s' == RolledBack(s) && reply == NoSuchTable(c.table) && events == []
      else if !reply.Ok? then
        && s' == RolledBack(s) && !AssuredIn(s.catalog, c, who, s.world) && reply.Statement?
        && exists left :: StoppedIn(s.catalog, c, who, s.world, left, reply.error, events)
      else
        && |events| == reply.count
        && TookEffect(declared, s.catalog, c, who, s.world, s'.world, events) && AsDeclared(declared, s'.catalog)
        && s' == if s.Within? then
                   Within(s.savedCatalog, s.saved, s'.catalog, s'.world, s.pending + events, s.published)
                 else Flushed(listening, s'.catalog, s'.world, s.pending + events, s.published)
  }

  ghost predicate Steps(declared: map<string, TableRecord>, listening: bool, states: seq<State>, script: seq<Action>,
                        replies: seq<Reply>, log: seq<seq<ChangeEvent>>) {
    && |replies| == |log| == |script| && |states| == |script| + 1
    && forall i :: 0 <= i < |script| ==>
       StepOk(declared, listening, states[i], script[i], replies[i], log[i], states[i + 1])
  }

  /** The action ends a transaction that is open before it. */
  predicate Ends(a: Action, reply: Reply) {
    a.CommitTx? || a.RollbackTx? || (a.Run? && !reply.Ok?)
  }

  /** A transaction that is open before the script ends with COMMIT. */
  predicate CommitsNext(script: seq<Action>, replies: seq<Reply>)
    requires |replies| == |script|
  {
    script != [] && if Ends(script[0], replies[0]) then script[0].CommitTx? else CommitsNext(script[1..], replies[1..])
  }

  /** The events of the committed statements, in order: of those outside a transaction, and of those whose
      transaction ends with COMMIT. */
  function CommittedEvents(script: seq<Action>, replies: seq<Reply>, log: seq<seq<ChangeEvent>>, within: bool)
    : seq<ChangeEvent>
    requires |replies| == |log| == |script|
  {
    if script == [] then [] else
      var committed := !within || CommitsNext(script[1..], replies[1..]);
      var within' := script[0].BeginTx? || (within && !Ends(script[0], replies[0]));
      (if script[0].Run? && replies[0].Ok? && committed then log[0] else [])
      + CommittedEvents(script[1..], replies[1..], log[1..], within')
  }

  lemma StepPublishes(declared: map<string, TableRecord>, s: State, a: Action, reply: Reply, events: seq<ChangeEvent>,
                      s': State)
    requires StepOk(declared, true, s, a, reply, events, s') && (s.Idle? ==> s.pending == [])
    ensures var written := if a.Run? && reply.Ok? then events else [];
            && (s'.Within? <==> a.BeginTx? || (s.Within? && !Ends(a, reply)))
            && s'.pending == (if s'.Idle? || s.Idle? then [] else s.pending + written)
            && s'.published == s.published + (if s.Idle? then written else if a.CommitTx? then s.pending else [])
            && (Ends(a, reply) ==> written == [])
            && (a.CommitTx? ==> Ends(a, reply)) && (a.BeginTx? ==> !Ends(a, reply))
  {
    hide TookEffect, AssuredIn, AsDeclared, StoppedIn;
    assert [] + events == events;
  }

  lemma NothingCommitted(script: seq<Action>, replies: seq<Reply>, log: seq<seq<ChangeEvent>>, within: bool)
    requires |replies| == |log| == |script| == 0
    ensures CommittedEvents(script, replies, log, within) == [] && !CommitsNext(script, replies)
  {
  }

  lemma CommittedStep(script: seq<Action>, replies: seq<Reply>, log: seq<seq<ChangeEvent>>, within: bool)
    requires |replies| == |log| == |script| > 0
    ensures var (a, reply, rest) := (script[0], replies[0], CommitsNext(script[1..], replies[1..]));
            && CommittedEvents(script, replies, log, within)
               == (if a.Run? && reply.Ok? && (!within || rest) then log[0] else [])
                  + CommittedEvents(script[1..], replies[1..], log[1..], a.BeginTx? || (within && !Ends(a, reply)))
            && CommitsNext(script, replies) == if Ends(a, reply) then a.CommitTx? else rest
  {
    hide Ends;
  }

  lemma Shifted(p: seq<ChangeEvent>, a: seq<ChangeEvent>, b: seq<ChangeEvent>, t: seq<ChangeEvent>)
    ensures p + (a + b) + t == p + a + (b + t) && p + b + [] + t == p + [] + (b + t)
    ensures p + a + [] + t == p + a + ([] + t) && p + [] + [] + t == p + [] + ([] + t)
  {
  }

  /** What is published in a run is exactly that; nothing of a transaction that is rolled back. */
  lemma {:induction false} PublishedIsCommitted(declared: map<string, TableRecord>, states: seq<State>,
                                                script: seq<Action>, replies: seq<Reply>, log: seq<seq<ChangeEvent>>)
    requires Steps(declared, true, states, script, replies, log) && (states[0].Idle? ==> states[0].pending == [])
    ensures states[|script|].published
         == states[0].published
            + (if states[0].Within? && CommitsNext(script, replies) then states[0].pending else [])
            + CommittedEvents(script, replies, log, states[0].Within?)
    decreases |script|
  {
    hide StepOk, Ends, CommittedEvents, CommitsNext;
    if script == [] {
      NothingCommitted(script, replies, log, states[0].Within?);
    } else {
      var s, s' := states[0], states[1];
      assert StepOk(declared, true, states[0], script[0], replies[0], log[0], states[0 + 1]);
      StepPublishes(declared, s, script[0], replies[0], log[0], s');
      forall i | 0 <= i < |script| - 1
        ensures StepOk(declared, true, states[1..][i], script[1..][i], replies[1..][i], log[1..][i], states[1..][i + 1])
      {
        assert StepOk(declared, true, states[i + 1], script[i + 1], replies[i + 1], log[i + 1], states[i + 1 + 1]);
      }
      PublishedIsCommitted(declared, states[1..], script[1..], replies[1..], log[1..]);
      CommittedStep(script, replies, log, s.Within?);
      var written := if script[0].Run? && replies[0].Ok? then log[0] else [];
      var tail := CommittedEvents(script[1..], replies[1..], log[1..], s'.Within?);
      assert states[1..][|script| - 1] == states[|script|];
      Shifted(s.published, s.pending, written, tail);
    }
  }

  /** A transaction that is rolled back leaves catalog, world and published events as they were. */
  lemma {:induction false} RolledBackSilent(declared: map<string, TableRecord>, listening: bool, states: seq<State>,
                                            script: seq<Action>, replies: seq<Reply>, log: seq<seq<ChangeEvent>>,
                                            i: nat)
    requires Steps(declared, listening, states, script, replies, log) && states[0].Within? && i < |script|
    requires forall j :: 0 <= j < i ==> !Ends(script[j], replies[j])
    requires Ends(script[i], replies[i]) && !script[i].CommitTx?
    ensures states[i + 1] == Idle(states[0].savedCatalog, states[0].saved, [], states[0].published)
  {
    hide TookEffect, AssuredIn, AsDeclared, StoppedIn;
    var n := 0;
    while n < i
      invariant 0 <= n <= i && states[n].Within?
      invariant states[n].savedCatalog == states[0].savedCatalog && states[n].saved == states[0].saved
      invariant states[n].published == states[0].published
    {
      assert StepOk(declared, listening, states[n], script[n], replies[n], log[n], states[n + 1]);
      n := n + 1;
    }
    assert StepOk(declared, listening, states[i], script[i], replies[i], log[i], states[i + 1]);
  }

  /** Commands that write values of the right types whatever the table holds. */
  ghost predicate AlwaysSane(schema: TableSchema, c: Command, who: Caller) {
    SchemaOk(schema) ==>
      match c
      case Insert(_, rs) => AllSane(schema, rs)
      case Update(_, assignments, _) =>
        forall targets, row :: Resolved(schema, assignments, targets) && RowOk(schema, row) ==>
          SaneOn(schema, row, targets, who)
      case Delete(_, _) => true
  }

  lemma AlwaysSaneIn(declared: map<string, TableRecord>, m: map<PageNo, Page>, catalog: map<string, TableRecord>,
                     w: World, c: Command, who: Caller)
    requires WorldOk(declared, m, catalog, w) && c.table in catalog
    requires c.table in declared && AlwaysSane(declared[c.table].schema, c, who)
    ensures SaneIn(catalog, c, who, w)
  {
    hide WorldOk, CheckRow, Assign, Plannable, Truthy;
    WorldTable(declared, m, catalog, w, c.table);
    var schema, schema', rows := declared[c.table].schema, catalog[c.table].schema, w.rows[c.table];
    assert SchemaOk(schema);
    if c.Update? {
      forall targets | Resolved(schema', c.assignments, targets)
        ensures SaneUpdate(schema', rows, targets, ClauseOf(catalog[c.table], c, who), who)
      {
        assert Resolved(schema, c.assignments, targets);
        forall k | k in rows ensures SaneOn(schema', rows[k], targets, who) {
          RowMoved(schema', schema, rows[k]);
          ReassignedMoved(schema, schema', rows[k], targets, who);
        }
      }
    }
  }

  ghost predicate SaneAction(declared: map<string, TableRecord>, a: Action) {
    a.Run? && a.command.table in declared ==> AlwaysSane(declared[a.command.table].schema, a.command, a.who)
  }

  /** One action of the session. */
  method Act(engine: Engine, a: Action) returns (reply: Reply, ghost events: seq<ChangeEvent>)
    requires engine.Valid() && !engine.broken && SaneAction(engine.declared, a)
    modifies engine, engine.pager
    ensures engine.Valid() && !engine.broken
    ensures StepOk(engine.declared, engine.hasListener, old(StateOf(engine)), a, reply, events, StateOf(engine))
  {
    hide *;
    engine.Opened();
    StateIs(engine);
    ghost var s := StateOf(engine);
    events := [];
    match a {
      case BeginTx =>
        reply := engine.Begin();
        StateIs(engine);
        BeginStep(engine.declared, engine.hasListener, s, reply, StateOf(engine));
      case CommitTx =>
        reply := engine.Commit();
        StateIs(engine);
        CommitStep(engine.declared, engine.hasListener, s, reply, StateOf(engine));
      case RollbackTx =>
        reply := engine.Rollback();
        StateIs(engine);
        RollbackStep(engine.declared, engine.hasListener, s, reply, StateOf(engine));
      case Run(command, who) =>
        reply, events := ActRun(engine, command, who);
    }
  }

  lemma BeginStep(declared: map<string, TableRecord>, listening: bool, s: State, reply: Reply, s': State)
    requires if s.Within? then reply == NestedTransactionNotSupported && s' == s
             else reply == Ok(0) && s' == Within(s.catalog, s.world, s.catalog, s.world, [], s.published)
    ensures StepOk(declared, listening, s, BeginTx, reply, [], s')
  {
  }

  lemma CommitStep(declared: map<string, TableRecord>, listening: bool, s: State, reply: Reply, s': State)
    requires if s.Idle? then reply == NoTransactionInProgress && s' == s
             else
               && reply == Ok(0)
               && s' == if listening then Idle(s.catalog, s.world, [], s.published + s.pending)
                        else Idle(s.catalog, s.world, s.pending, s.published)
    ensures StepOk(declared, listening, s, CommitTx, reply, [], s')
  {
  }

  lemma RollbackStep(declared: map<string, TableRecord>, listening: bool, s: State, reply: Reply, s': State)
    requires if s.Idle? then reply == NoTransactionInProgress && s' == s
             else reply == Ok(0) && s' == Idle(s.savedCatalog, s.saved, [], s.published)
    ensures StepOk(declared, listening, s, RollbackTx, reply, [], s')
  {
  }

  /** A statement, and ROLLBACK if it failed within a transaction. */
  method ActRun(engine: Engine, c: Command, who: Caller) returns (reply: Reply, ghost events: seq<ChangeEvent>)
    requires engine.Valid() && !engine.broken && !engine.lost && SaneAction(engine.declared, Run(c, who))
    modifies engine, engine.pager
    ensures engine.Valid() && !engine.broken
    ensures StepOk(engine.declared, engine.hasListener, old(StateOf(engine)), Run(c, who), reply, events,
            StateOf(engine))
  {
    hide *;
    ghost var w, catalog, s := engine.world, engine.catalog, StateOf(engine);
    RunIsSane(engine, c, who);
    StateIs(engine);
    engine.Opened();
    ghost var left;
    reply, events, left := engine.Execute(c, who);
    ghost var w', catalog' := engine.world, engine.catalog;
    StateIs(engine);
    if reply.Ok? {
      RanTable(engine.declared, catalog, c, who, w, left, reply, events);
      engine.Opened();
      CatalogAsDeclared(engine.declared, engine.pager.pages, catalog', w');
    } else if engine.inTransaction {
      var _ := engine.Rollback();
      StateIs(engine);
    }
    RunStep(engine.declared, engine.hasListener, s, c, who, reply, events, StateOf(engine), left, w', catalog');
  }

  lemma StateIs(engine: Engine)
    ensures StateOf(engine)
         == if engine.inTransaction then
              Within(engine.snapshot.catalog, engine.saved, engine.catalog, engine.world, engine.transactionEvents,
                  engine.published)
            else Idle(engine.catalog, engine.world, engine.transactionEvents, engine.published)
  {
  }

  lemma RunStep(declared: map<string, TableRecord>, listening: bool, s: State, c: Command, who: Caller, reply: Reply,
                events: seq<ChangeEvent>, s': State, left: World, w': World, catalog': map<string, TableRecord>)
    requires Ran(declared, s.catalog, c, who, s.world, left, reply, events) && (reply.Ok? ==> w' == left)
    requires c.table in s.catalog ==> SaneIn(s.catalog, c, who, s.world)
    requires listening && s.Idle? ==> s.pending == []
    requires reply.Ok? ==>
               && AsDeclared(declared, catalog')
               && s' == if s.Within? then Within(s.savedCatalog, s.saved, catalog', w', s.pending + events, s.published)
                        else if listening then Idle(catalog', w', [], s.published + events)
                        else Idle(catalog', w', s.pending + events, s.published)
    requires !reply.Ok? ==>
               s' == if s.Within? then Idle(s.savedCatalog, s.saved, [], s.published)
                   else Idle(s.catalog, s.world, [], s.published)
    ensures StepOk(declared, listening, s, Run(c, who), reply, events, s')
  {
    hide SaneIn, AssuredIn, TookEffect, AsDeclared, StoppedIn;
    assert [] + events == events;
  }

  lemma CatalogAsDeclared(declared: map<string, TableRecord>, m: map<PageNo, Page>, catalog: map<string, TableRecord>,
                          w: World)
    requires WorldOk(declared, m, catalog, w)
    ensures AsDeclared(declared, catalog)
  {
    hide AllSeparate, Planted, Agree, SameButRoots;
    forall n | n in catalog ensures SameRecord(declared[n], catalog[n]) {
      assert TableOk(m, declared[n], catalog[n], w.forests[n], w.rows[n]);
    }
  }

  lemma RunIsSane(engine: Engine, c: Command, who: Caller)
    requires engine.Valid() && !engine.broken && SaneAction(engine.declared, Run(c, who))
    ensures c.table in engine.catalog ==> SaneIn(engine.catalog, c, who, engine.world)
  {
    hide WorldOk, Feed, StoreOk, AlwaysSane, SaneIn;
    TablesDeclared(engine.declared, engine.pager.pages, engine.catalog, engine.world);
    if c.table in engine.catalog {
      AlwaysSaneIn(engine.declared, engine.pager.pages, engine.catalog, engine.world, c, who);
    }
  }

  lemma TablesDeclared(declared: map<string, TableRecord>, m: map<PageNo, Page>, catalog: map<string, TableRecord>,
                       w: World)
    requires WorldOk(declared, m, catalog, w)
    ensures catalog.Keys == declared.Keys
  {
    hide TableOk, AllSeparate;
  }

  /** Any script at all.  Every reply is the one of the step, what is published are the events of the committed
      statements in order, and replaying them gives the committed rows. */
  method Session(engine: Engine, script: seq<Action>)
    returns (replies: seq<Reply>, ghost log: seq<seq<ChangeEvent>>, ghost states: seq<State>)
    requires engine.Valid() && !engine.broken && forall i :: 0 <= i < |script| ==>
             SaneAction(engine.declared, script[i])
    modifies engine, engine.pager
    ensures engine.Valid() && !engine.broken
    ensures Steps(engine.declared, engine.hasListener, states, script, replies, log)
    ensures states[0] == old(StateOf(engine)) && states[|script|] == StateOf(engine)
    ensures engine.hasListener ==>
              && engine.published
                 == old(engine.published)
                    + (if old(engine.inTransaction) && CommitsNext(script, replies)
                       then old(engine.transactionEvents) else [])
                    + CommittedEvents(script, replies, log, old(engine.inTransaction))
              && Feed(engine.declared, engine.start, engine.published) == engine.Committed()
  {
    assert engine.hasListener && !engine.inTransaction ==> engine.transactionEvents == [];
    hide Engine.Valid, WorldOk, Feed, StepOk, SaneAction, Steps, CommittedEvents, CommitsNext, StateOf;
    replies, log, states := [], [], [StateOf(engine)];
    NoSteps(engine.declared, engine.hasListener, states, script);
    var i := 0;
    while i < |script|
      invariant 0 <= i <= |script| && |replies| == |log| == i && |states| == i + 1
      invariant engine.Valid() && !engine.broken
      invariant states[0] == old(StateOf(engine)) && states[i] == StateOf(engine)
      invariant Steps(engine.declared, engine.hasListener, states, script[..i], replies, log)
    {
      var reply, events := Act(engine, script[i]);
      MoreSteps(engine.declared, engine.hasListener, states, script, i, replies, log, reply, events, StateOf(engine));
      replies, log, states := replies + [reply], log + [events], states + [StateOf(engine)];
      i := i + 1;
    }
    assert script[..i] == script;
    if engine.hasListener {
      PublishedIsCommitted(engine.declared, states, script, replies, log);
      FeedStands(engine);
    }
  }

  lemma NoSteps(declared: map<string, TableRecord>, listening: bool, states: seq<State>, script: seq<Action>)
    requires |states| == 1
    ensures Steps(declared, listening, states, script[..0], [], [])
  {
  }

  lemma MoreSteps(declared: map<string, TableRecord>, listening: bool, states: seq<State>, script: seq<Action>, i: nat,
                  replies: seq<Reply>, log: seq<seq<ChangeEvent>>, reply: Reply, events: seq<ChangeEvent>, s': State)
    requires i < |script| && Steps(declared, listening, states, script[..i], replies, log)
    requires StepOk(declared, listening, states[i], script[i], reply, events, s')
    ensures Steps(declared, listening, states + [s'], script[..i + 1], replies + [reply], log + [events])
  {
    hide StepOk;
    forall j | 0 <= j < i + 1
      ensures StepOk(declared, listening, (states + [s'])[j], script[..i + 1][j], (replies + [reply])[j],
                     (log + [events])[j], (states + [s'])[j + 1])
    {
      assert j < i ==> StepOk(declared, listening, states[j], script[..i][j], replies[j], log[j], states[j + 1]);
    }
  }

  lemma FeedStands(engine: Engine)
    requires engine.Valid() && !engine.broken && engine.hasListener
    ensures Feed(engine.declared, engine.start, engine.published) == engine.Committed()
  {
  }
}
