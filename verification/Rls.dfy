/** Row-level security: policies rewritten into the WHERE clause, and the plan for the rewritten clause. */
module RowSecurity {
  import opened Bytes
  import opened Storage
  import opened Values
  import opened Rows
  import opened Tables
  import opened Exprs
  import opened Streams
  import opened Listings
  import opened Planner

  datatype PolicyCmd = ForSelect | ForInsert | ForUpdate | ForDelete | ForAll

  datatype Policy = Policy(name: string, table: string, cmd: PolicyCmd, usingExpr: Option<Expr>,
      withCheck: Option<Expr>)

  /** The policies for a command, in the order of the catalog. */
  function Matching(policies: seq<Policy>, cmd: PolicyCmd): (r: seq<Policy>)
    ensures forall p :: p in r <==> p in policies && (p.cmd == cmd || p.cmd == ForAll)
  {
    if policies == [] then [] else
      (if policies[0].cmd == cmd || policies[0].cmd == ForAll then [policies[0]] else []) + Matching(policies[1..], cmd)
  }

  /** The USING clauses joined by OR. */
  function CombinedUsing(policies: seq<Policy>): Option<Expr> {
    if policies == [] then None else
      var before, last := CombinedUsing(policies[..|policies| - 1]), policies[|policies| - 1].usingExpr;
      if last.None? then before
      else if before.None? then last
      else Some(BinaryOp(Or, before.value, last.value))
  }

  const DENY := BinaryOp(Eq, IntLiteral(1), IntLiteral(0))

  function Secured(schema: TableSchema, policies: seq<Policy>, cmd: PolicyCmd, where: Option<Expr>,
                   who: Caller): Option<Expr> {
    var matching := Matching(policies, cmd);
    if !schema.rlsEnabled || who.isAdmin then where
    else if matching == [] then Some(DENY)
    else
      var using := CombinedUsing(matching);
      if where.None? then using else if using.None? then where else Some(BinaryOp(And, where.value, using.value))
  }

  method ApplyRlsFilter(schema: TableSchema, policies: seq<Policy>, cmd: PolicyCmd, where: Option<Expr>, who: Caller)
    returns (r: Option<Expr>)
    ensures r == Secured(schema, policies, cmd, where, who)
  {
    if !schema.rlsEnabled || who.isAdmin {
      return where;
    }
    var matching := Matching(policies, cmd);
    if matching == [] {
      return Some(BinaryOp(Eq, IntLiteral(1), IntLiteral(0)));
    }
    var combined: Option<Expr> := None;
    var i := 0;
    while i < |matching|
      invariant 0 <= i <= |matching| && combined == CombinedUsing(matching[..i])
    {
      var p := matching[i];
      if p.usingExpr.Some? {
        combined := if combined.Some? then Some(BinaryOp(Or, combined.value, p.usingExpr.value)) else p.usingExpr;
      }
      i := i + 1;
      assert matching[..i][..i - 1] == matching[..i - 1];
    }
    assert matching[..i] == matching;
    match (where, combined) {
      case (Some(w), Some(p)) => return Some(BinaryOp(And, w, p));
      case (None, _) => return combined;
      case (Some(_), None) => return where;
    }
  }

  /** An absent clause lets every row through. */
  predicate Passes(clause: Option<Expr>, columns: seq<Column>, row: Row, who: Caller) {
    clause.None? || Truthy(clause.value, columns, row, who)
  }

  ghost predicate UsingEvaluates(policies: seq<Policy>, columns: seq<Column>, row: Row, who: Caller) {
    forall i :: 0 <= i < |policies| && policies[i].usingExpr.Some? ==>
      Evaluates(policies[i].usingExpr.value, columns, row, who)
  }

  /** Some policy lets the row through; a policy without USING does so only when no other one has USING. */
  ghost predicate Allowed(policies: seq<Policy>, columns: seq<Column>, row: Row, who: Caller) {
    && policies != []
    && ((forall i :: 0 <= i < |policies| ==> policies[i].usingExpr.None?)
        || (exists i :: 0 <= i < |policies| && policies[i].usingExpr.Some?
                        && Truthy(policies[i].usingExpr.value, columns, row, who)))
  }

  /** The row is the caller's to see. */
  ghost predicate Permitted(schema: TableSchema, policies: seq<Policy>, cmd: PolicyCmd, row: Row, who: Caller) {
    !schema.rlsEnabled || who.isAdmin || Allowed(Matching(policies, cmd), schema.columns, row, who)
  }

  /** A policy for the command, or for all commands. */
  predicate IsFor(p: Policy, cmd: PolicyCmd) {
    p.cmd == cmd || p.cmd == ForAll
  }

  /** Who sees a row under security: everyone when it is off, administrators, and those whom some USING of a policy for
      the command is true for, or who have such a policy while none of them has USING. */
  lemma PermittedMeans(schema: TableSchema, policies: seq<Policy>, cmd: PolicyCmd, row: Row, who: Caller)
    ensures !schema.rlsEnabled || who.isAdmin ==> Permitted(schema, policies, cmd, row, who)
    ensures schema.rlsEnabled && !who.isAdmin ==>
              (Permitted(schema, policies, cmd, row, who) <==>
                 || (exists p :: p in policies && IsFor(p, cmd) && p.usingExpr.Some?
                                 && Eval(p.usingExpr.value, schema.columns, row, who) == Val(Boolean(true)))
                 || ((exists p :: p in policies && IsFor(p, cmd))
                     && forall p :: p in policies && IsFor(p, cmd) ==> p.usingExpr.None?))
  {
    hide Eval;
    var matching := Matching(policies, cmd);
    forall p ensures p in matching <==> p in policies && IsFor(p, cmd) {
    }
    forall p | p in matching ensures exists i :: 0 <= i < |matching| && matching[i] == p {
    }
    assert matching != [] ==> matching[0] in matching;
    assert forall i :: 0 <= i < |matching| ==> matching[i] in matching;
  }

  lemma {:induction false} CombinedEvaluates(policies: seq<Policy>, columns: seq<Column>, row: Row, who: Caller)
    requires CombinedUsing(policies).Some? ==> Evaluates(CombinedUsing(policies).value, columns, row, who)
    ensures UsingEvaluates(policies, columns, row, who)
    decreases |policies|
  {
    hide Evaluates;
    if policies != [] {
      var front, last := policies[..|policies| - 1], policies[|policies| - 1];
      var before := CombinedUsing(front);
      if before.Some? && last.usingExpr.Some? {
        OrMeans(before.value, last.usingExpr.value, columns, row, who);
      }
      CombinedEvaluates(front, columns, row, who);
      forall i | 0 <= i < |policies| && policies[i].usingExpr.Some?
        ensures Evaluates(policies[i].usingExpr.value, columns, row, who)
      {
        assert i < |front| ==> policies[i] == front[i];
      }
    }
  }

  /** A row that passes the rewritten clause is permitted and satisfies the user's clause, whatever the clauses do on
      other rows. */
  lemma SecuredPasses(schema: TableSchema, policies: seq<Policy>, cmd: PolicyCmd, where: Option<Expr>, row: Row,
                      who: Caller)
    requires Passes(Secured(schema, policies, cmd, where, who), schema.columns, row, who)
    ensures Passes(where, schema.columns, row, who) && Permitted(schema, policies, cmd, row, who)
  {
    hide Matching, CombinedUsing, Eval;
    var matching := Matching(policies, cmd);
    if schema.rlsEnabled && !who.isAdmin {
      if matching == [] {
        DenyMeans(schema.columns, row, who);
      } else {
        var using := CombinedUsing(matching);
        if where.Some? && using.Some? {
          AndMeans(where.value, using.value, schema.columns, row, who);
        }
        CombinedEvaluates(matching, schema.columns, row, who);
        SecuredMeans(schema, policies, cmd, where, row, who);
      }
    }
  }

  lemma {:induction false} CombinedMeans(policies: seq<Policy>, columns: seq<Column>, row: Row, who: Caller)
    requires UsingEvaluates(policies, columns, row, who)
    ensures CombinedUsing(policies).None? <==> forall i :: 0 <= i < |policies| ==> policies[i].usingExpr.None?
    ensures CombinedUsing(policies).Some? ==>
              && Evaluates(CombinedUsing(policies).value, columns, row, who)
              && (Truthy(CombinedUsing(policies).value, columns, row, who) <==>
                    exists i :: 0 <= i < |policies| && policies[i].usingExpr.Some?
                                && Truthy(policies[i].usingExpr.value, columns, row, who))
    decreases |policies|
  {
    hide Evaluates, Truthy;
    if policies != [] {
      var front, last := policies[..|policies| - 1], policies[|policies| - 1];
      CombinedMeans(front, columns, row, who);
      var before := CombinedUsing(front);
      if before.Some? && last.usingExpr.Some? {
        OrMeans(before.value, last.usingExpr.value, columns, row, who);
      }
      if exists i :: 0 <= i < |front| && front[i].usingExpr.Some?
          && Truthy(front[i].usingExpr.value, columns, row, who) {
        var i :| 0 <= i < |front| && front[i].usingExpr.Some? && Truthy(front[i].usingExpr.value, columns, row, who);
        assert policies[i] == front[i];
      }
      if before.Some? {
        var i :| 0 <= i < |front| && front[i].usingExpr.Some?;
        assert policies[i] == front[i];
      }
    }
  }

  lemma DenyMeans(columns: seq<Column>, row: Row, who: Caller)
    ensures Evaluates(DENY, columns, row, who) && !Truthy(DENY, columns, row, who)
  {
    assert Eval(IntLiteral(1), columns, row, who) == Val(Integer(1));
    assert Eval(IntLiteral(0), columns, row, who) == Val(Integer(0));
  }

  /** The rewritten clause holds of exactly the rows that satisfy the user's clause and are permitted. */
  lemma SecuredMeans(schema: TableSchema, policies: seq<Policy>, cmd: PolicyCmd, where: Option<Expr>, row: Row,
                     who: Caller)
    requires where.Some? ==> Evaluates(where.value, schema.columns, row, who)
    requires UsingEvaluates(Matching(policies, cmd), schema.columns, row, who)
    ensures var secured := Secured(schema, policies, cmd, where, who);
            && (secured.Some? ==> Evaluates(secured.value, schema.columns, row, who))
            && (Passes(secured, schema.columns, row, who) <==>
                  Passes(where, schema.columns, row, who) && Permitted(schema, policies, cmd, row, who))
  {
    hide Evaluates, Truthy, Matching, CombinedUsing;
    var matching := Matching(policies, cmd);
    if schema.rlsEnabled && !who.isAdmin {
      if matching == [] {
        DenyMeans(schema.columns, row, who);
      } else {
        CombinedMeans(matching, schema.columns, row, who);
        var using := CombinedUsing(matching);
        if where.Some? && using.Some? {
          AndMeans(where.value, using.value, schema.columns, row, who);
        }
      }
    }
  }

  /** Rows of a list that satisfy the clause and are permitted. */
  ghost function Visible(rs: seq<Row>, schema: TableSchema, policies: seq<Policy>, cmd: PolicyCmd,
      where: Option<Expr>, who: Caller): seq<Row> {
    if rs == [] then [] else
      (if Passes(where, schema.columns, rs[0], who) && Permitted(schema, policies, cmd, rs[0], who)
       then [rs[0]] else [])
      + Visible(rs[1..], schema, policies, cmd, where, who)
  }

  ghost predicate AllEvaluated(rs: seq<Row>, schema: TableSchema, policies: seq<Policy>, cmd: PolicyCmd,
                               where: Option<Expr>, who: Caller) {
    forall i :: 0 <= i < |rs| ==>
      && (where.Some? ==> Evaluates(where.value, schema.columns, rs[i], who))
      && UsingEvaluates(Matching(policies, cmd), schema.columns, rs[i], who)
  }

  lemma {:induction false} SecuredSelects(rs: seq<Row>, schema: TableSchema, policies: seq<Policy>, cmd: PolicyCmd,
      where: Option<Expr>, who: Caller)
    requires AllEvaluated(rs, schema, policies, cmd, where, who)
    ensures var secured := Secured(schema, policies, cmd, where, who);
            (if secured.None? then rs else Where(rs, schema.columns, secured.value, who))
            == Visible(rs, schema, policies, cmd, where, who)
  {
    hide Evaluates, Truthy, Matching, Secured, Permitted, UsingEvaluates;
    if rs != [] {
      SecuredSelects(rs[1..], schema, policies, cmd, where, who);
      SecuredMeans(schema, policies, cmd, where, rs[0], who);
      assert rs == [rs[0]] + rs[1..];
    }
  }

  /** Whatever seek or scan is chosen for it, the rewritten clause yields the visible rows, in key order. */
  lemma SecuredPlan(schema: TableSchema, policies: seq<Policy>, cmd: PolicyCmd, where: Option<Expr>, who: Caller,
                    table: Rooted, rows: map<Key, Row>)
    requires forall k :: k in TableKeys(table) ==> k in rows
    requires AllEvaluated(AllRows(table, rows), schema, policies, cmd, where, who)
    ensures Wanted(schema, table, rows, Secured(schema, policies, cmd, where, who), who)
         == Visible(AllRows(table, rows), schema, policies, cmd, where, who)
  {
    SecuredSelects(AllRows(table, rows), schema, policies, cmd, where, who);
  }
}
