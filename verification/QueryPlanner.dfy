/**
 The query planner of crates/query-planner: which filters, limit and flags a
 query gets, and the WHERE clause the filters are rendered to.
 */
module QueryPlanner {
  import opened Wrappers
  import opened SqlLiteral

  datatype Operation = Select | Insert | Update | Delete

  datatype Operator = Eq | IsNull | IsNotNull

  datatype FilterValue = Text(value: string) | Null

  datatype Filter = Filter(column: string, operator: Operator, value: FilterValue)

  datatype Flag = SudoBypass | RawQuery | LimitGuardrailApplied

  datatype PlannerError = StrictTenancyViolation(table: string) | InvalidTableName(table: string)

  datatype Plan = Plan(table: string, operation: Operation, tenantId: Option<string>, tenancyColumn: string,
                       includeDeleted: bool, limit: Option<nat>, offset: Option<nat>,
                       filters: seq<Filter>, flags: seq<Flag>)

  /** `alphanumeric` stands for Unicode's classification of characters. */
  datatype Config = Config(tenancyColumn: string, strict: bool, defaultLimit: nat, alphanumeric: char -> bool)

  predicate ValidTable(config: Config, table: string) {
    table != "" && forall i :: 0 <= i < |table| ==> config.alphanumeric(table[i]) || table[i] == '_'
  }

  // ---------- Planning ----------

  function TenantFilter(column: string, tenantId: string): Filter {
    Filter(column, Eq, Text(tenantId))
  }

  const SOFT_DELETE := Filter("deleted_at", IsNull, Null)

  /** The tenant's filter when a tenant is active, then the soft-delete filter of a SELECT. */
  function InjectedFilters(column: string, tenantId: Option<string>, operation: Operation): seq<Filter> {
    (if tenantId.Some? then [TenantFilter(column, tenantId.value)] else [])
    + (if operation == Select then [SOFT_DELETE] else [])
  }

  method MakePlan(config: Config, table: string, operation: Operation, tenantId: Option<string>,
                  limit: Option<nat>, offset: Option<nat>) returns (result: Result<Plan, PlannerError>)
    ensures result == Err(InvalidTableName(table))
        <==> table == "" || exists i :: 0 <= i < |table| && !config.alphanumeric(table[i]) && table[i] != '_'
    ensures result == Err(StrictTenancyViolation(table))
        <==> ValidTable(config, table) && tenantId.None? && config.strict
    ensures result.Ok? <==> ValidTable(config, table) && (tenantId.Some? || !config.strict)
    ensures result.Ok? ==> var p := result.value;
              && p.table == table && p.operation == operation && p.tenantId == tenantId && p.offset == offset
              && p.tenancyColumn == config.tenancyColumn && !p.includeDeleted
              && p.filters == InjectedFilters(config.tenancyColumn, tenantId, operation)
              && (p.limit.Some? <==> operation == Select)
              && (p.limit.Some? ==> p.limit.value == if limit.Some? then limit.value else config.defaultLimit)
              && p.flags == if operation == Select && limit.None? then [LimitGuardrailApplied] else []
  {
    if !ValidTable(config, table) {
      return Err(InvalidTableName(table));
    }
    var filters: seq<Filter> := [];
    var flags: seq<Flag> := [];
    match tenantId {
      case Some(tid) =>
        filters := filters + [TenantFilter(config.tenancyColumn, tid)];
      case None =>
        if config.strict {
          return Err(StrictTenancyViolation(table));
        }
    }
    if operation == Select {
      filters := filters + [SOFT_DELETE];
    }
    var effectiveLimit := None;
    if operation == Select {
      if limit.None? {
        flags := flags + [LimitGuardrailApplied];
        effectiveLimit := Some(config.defaultLimit);
      } else {
        effectiveLimit := limit;
      }
    }
    result := Ok(Plan(table, operation, tenantId, config.tenancyColumn, false, effectiveLimit, offset, filters, flags));
  }

  function PlanSudo(config: Config, table: string, operation: Operation, limit: Option<nat>, offset: Option<nat>)
    : (result: Result<Plan, PlannerError>)
    ensures result.Err?
        <==> table == "" || exists i :: 0 <= i < |table| && !config.alphanumeric(table[i]) && table[i] != '_'
    ensures result.Err? ==> result == Err(InvalidTableName(table))
    ensures result.Ok? ==> var p := result.value;
              && ToWhereClause(p.filters) == "" && p.includeDeleted && p.tenantId.None?
              && p.table == table && p.operation == operation && p.limit == limit && p.offset == offset
              && p.flags == [SudoBypass]
  {
    if !ValidTable(config, table) then Err(InvalidTableName(table))
    else Ok(Plan(table, operation, None, config.tenancyColumn, true, limit, offset, [], [SudoBypass]))
  }

  // ---------- Rendering ----------

  /** A text value with no comparison, or a comparison with no text, renders to nothing. */
  function RenderFilter(f: Filter): string {
    match f.operator
    case Eq => if f.value.Text? then f.column + (" = '" + (Escape(f.value.value) + "'")) else ""
    case IsNull => f.column + " IS NULL"
    case IsNotNull => f.column + " IS NOT NULL"
  }

  function JoinAnd(clauses: seq<string>): string {
    if clauses == [] then ""
    else if |clauses| == 1 then clauses[0]
    else clauses[0] + (" AND " + JoinAnd(clauses[1..]))
  }

  function RenderAll(filters: seq<Filter>): seq<string> {
    if filters == [] then []
    else (if RenderFilter(filters[0]) != "" then [RenderFilter(filters[0])] else []) + RenderAll(filters[1..])
  }

  function ToWhereClause(filters: seq<Filter>): string {
    JoinAnd(RenderAll(filters))
  }

  lemma RenderSingle(f: Filter)
    requires RenderFilter(f) != ""
    ensures RenderAll([f]) == [RenderFilter(f)] && ToWhereClause([f]) == RenderFilter(f)
  {
    assert [f][1..] == [];
  }

  lemma RenderPair(f: Filter, g: Filter)
    requires RenderFilter(f) != "" && RenderFilter(g) != ""
    ensures ToWhereClause([f, g]) == RenderFilter(f) + (" AND " + RenderFilter(g))
  {
    assert [f, g][1..] == [g];
    RenderSingle(g);
    assert ([RenderFilter(f)] + [RenderFilter(g)])[1..] == [RenderFilter(g)];
  }

  /** The clauses a plan can have, as text. */
  lemma RenderedClause(column: string, tenantId: string, op: Operation)
    ensures ToWhereClause(InjectedFilters(column, Some(tenantId), op))
         == column + (" = '" + (Escape(tenantId) + "'"))
            + if op == Select then " AND " + "deleted_at IS NULL" else ""
    ensures ToWhereClause(InjectedFilters(column, None, op)) == if op == Select then "deleted_at IS NULL" else ""
  {
    var tenant := TenantFilter(column, tenantId);
    assert RenderFilter(SOFT_DELETE) == "deleted_at IS NULL";
    RenderSingle(SOFT_DELETE);
    RenderSingle(tenant);
    RenderPair(tenant, SOFT_DELETE);
    assert [tenant] + [SOFT_DELETE] == [tenant, SOFT_DELETE] && [] + [SOFT_DELETE] == [SOFT_DELETE];
    assert [tenant] + [] == [tenant];
  }

  // ---------- Reading the clause back ----------

  /** The length of the text before the first space. */
  function WordLength(s: string): (k: nat)
    ensures k <= |s|
    ensures k < |s| ==> s[k] == ' '
  {
    if s == "" || s[0] == ' ' then 0 else 1 + WordLength(s[1..])
  }

  datatype Parsed = Parsed(filter: Filter, rest: string)

  /** After a column: a comparison with a literal, `IS NULL` or `IS NOT NULL`. */
  function ParseTest(column: string, tail: string): (r: Option<Parsed>)
    ensures r.Some? ==> |r.value.rest| < |tail|
  {
    if StartsWith(tail, " = '") then
      match Lex(tail[4..])
      case None => None
      case Some(l) => Some(Parsed(Filter(column, Eq, Text(l.value)), l.rest))
    else if StartsWith(tail, " IS NULL") then Some(Parsed(Filter(column, IsNull, Null), tail[8..]))
    else if StartsWith(tail, " IS NOT NULL") then Some(Parsed(Filter(column, IsNotNull, Null), tail[12..]))
    else None
  }

  function ParseFilter(s: string): (r: Option<Parsed>)
    ensures r.Some? ==> |r.value.rest| < |s|
  {
    var k := WordLength(s);
    ParseTest(s[..k], s[k..])
  }

  /** A conjunction of filters. */
  function ParseClause(s: string): Option<seq<Filter>>
    decreases |s|
  {
    match ParseFilter(s)
    case None => None
    case Some(p) =>
      if p.rest == "" then Some([p.filter])
      else if !StartsWith(p.rest, " AND ") then None
      else
        match ParseClause(p.rest[5..])
        case None => None
        case Some(more) => Some([p.filter] + more)
  }

  /** A filter the planner can render: a one-word column, and a value exactly for a comparison. */
  predicate Renderable(f: Filter) {
    ' ' !in f.column && (f.operator == Eq <==> f.value.Text?)
  }

  lemma {:induction false} WordLengthOf(word: string, rest: string)
    requires ' ' !in word && rest != "" && rest[0] == ' '
    ensures WordLength(word + rest) == |word|
  {
    if word == "" {
      assert word + rest == rest;
    } else {
      assert (word + rest)[1..] == word[1..] + rest;
      WordLengthOf(word[1..], rest);
    }
  }

  /** The text of a filter after its column. */
  function Test(f: Filter): string
    requires Renderable(f)
  {
    match f.operator
    case Eq => " = '" + (Escape(f.value.value) + "'")
    case IsNull => " IS NULL"
    case IsNotNull => " IS NOT NULL"
  }

  lemma ParseEq(column: string, value: string, rest: string)
    requires rest == "" || rest[0] == ' '
    ensures ParseTest(column, " = '" + (Escape(value) + ("'" + rest)))
         == Some(Parsed(Filter(column, Eq, Text(value)), rest))
  {
    var literal := Escape(value) + ("'" + rest);
    assert (" = '" + literal)[..4] == " = '" && (" = '" + literal)[4..] == literal;
    LexEscaped(value, rest);
  }

  lemma ParseIsNull(column: string, rest: string)
    ensures ParseTest(column, " IS NULL" + rest) == Some(Parsed(Filter(column, IsNull, Null), rest))
  {
    var tail := " IS NULL" + rest;
    assert tail[1] == 'I' && tail[..8] == " IS NULL" && tail[8..] == rest;
  }

  lemma ParseIsNotNull(column: string, rest: string)
    ensures ParseTest(column, " IS NOT NULL" + rest) == Some(Parsed(Filter(column, IsNotNull, Null), rest))
  {
    var tail := " IS NOT NULL" + rest;
    assert tail[1] == 'I' && tail[5] == 'O' && " IS NULL"[5] == 'U';
    assert tail[..12] == " IS NOT NULL" && tail[12..] == rest;
  }

  lemma ParseTestOf(f: Filter, rest: string)
    requires Renderable(f) && (rest == "" || rest[0] == ' ')
    ensures ParseTest(f.column, Test(f) + rest) == Some(Parsed(f, rest))
  {
    match f.operator
    case Eq =>
      Assoc(" = '", Escape(f.value.value) + "'", rest);
      Assoc(Escape(f.value.value), "'", rest);
      ParseEq(f.column, f.value.value, rest);
    case IsNull => ParseIsNull(f.column, rest);
    case IsNotNull => ParseIsNotNull(f.column, rest);
  }

  lemma ParseRendered(f: Filter, rest: string)
    requires Renderable(f) && (rest == "" || rest[0] == ' ')
    ensures ParseFilter(RenderFilter(f) + rest) == Some(Parsed(f, rest))
  {
    var tail := Test(f) + rest;
    Assoc(f.column, Test(f), rest);
    WordLengthOf(f.column, tail);
    assert (f.column + tail)[..|f.column|] == f.column && (f.column + tail)[|f.column|..] == tail;
    ParseTestOf(f, rest);
  }

  lemma {:induction false} RenderAllRenderable(filters: seq<Filter>)
    requires forall f :: f in filters ==> Renderable(f)
    ensures |RenderAll(filters)| == |filters|
    ensures forall i :: 0 <= i < |filters| ==> RenderAll(filters)[i] == RenderFilter(filters[i])
  {
    if filters != [] {
      RenderAllRenderable(filters[1..]);
      assert filters[0] in filters;
    }
  }

  lemma RenderMore(first: Filter, more: seq<Filter>)
    requires Renderable(first) && more != [] && forall f :: f in more ==> Renderable(f)
    ensures ToWhereClause([first] + more) == RenderFilter(first) + (" AND " + ToWhereClause(more))
  {
    RenderAllRenderable(more);
    assert ([first] + more)[1..] == more;
    assert RenderAll([first] + more) == [RenderFilter(first)] + RenderAll(more);
    assert ([RenderFilter(first)] + RenderAll(more))[1..] == RenderAll(more);
  }

  lemma RenderOne(f: Filter)
    requires Renderable(f)
    ensures ToWhereClause([f]) == RenderFilter(f)
  {
    assert [f][1..] == [];
    assert RenderAll([f]) == [RenderFilter(f)];
  }

  lemma ParseMore(first: Filter, clause: string, more: seq<Filter>)
    requires Renderable(first) && ParseClause(clause) == Some(more)
    ensures ParseClause(RenderFilter(first) + (" AND " + clause)) == Some([first] + more)
  {
    var rest := " AND " + clause;
    ParseRendered(first, rest);
    assert rest[..5] == " AND " && rest[5..] == clause;
  }

  /** Reading the rendered clause back gives the filters, whatever the values are. */
  lemma {:induction false} ClauseRoundTrip(filters: seq<Filter>)
    requires filters != [] && forall f :: f in filters ==> Renderable(f)
    ensures ParseClause(ToWhereClause(filters)) == Some(filters)
    decreases |filters|
  {
    var first, more := filters[0], filters[1..];
    assert filters == [first] + more;
    assert Renderable(first);
    if more == [] {
      assert filters == [first];
      RenderOne(first);
      ParseRendered(first, "");
      assert RenderFilter(first) + "" == RenderFilter(first);
    } else {
      ClauseRoundTrip(more);
      RenderMore(first, more);
      ParseMore(first, ToWhereClause(more), more);
    }
  }

  // ---------- What the clause accepts ----------

  /** A row's column values; an absent column is NULL. */
  type Row = map<string, string>

  predicate Holds(f: Filter, row: Row) {
    match f.operator
    case Eq => f.value.Text? && f.column in row && row[f.column] == f.value.value
    case IsNull => f.column !in row
    case IsNotNull => f.column in row
  }

  /** Does the row satisfy the clause, read back from its text? An empty clause accepts every row. */
  predicate Accepts(clause: string, row: Row) {
    clause == "" ||
    match ParseClause(clause)
    case None => false
    case Some(filters) => forall f :: f in filters ==> Holds(f, row)
  }

  /**
   For every tenant id, quotes and keywords included, and every planned query,
   the text of its clause accepts exactly the tenant's rows, and for a SELECT
   only those not deleted.
   */
  lemma ClauseEnforcesTenancy(plan: Plan, row: Row)
    requires ' ' !in plan.tenancyColumn && (plan.tenantId.Some? || plan.operation == Select)
    requires plan.filters == InjectedFilters(plan.tenancyColumn, plan.tenantId, plan.operation)
    ensures ParseClause(ToWhereClause(plan.filters)) == Some(plan.filters)
    ensures Accepts(ToWhereClause(plan.filters), row) <==>
              && (plan.tenantId.Some? ==> plan.tenancyColumn in row && row[plan.tenancyColumn] == plan.tenantId.value)
              && (plan.operation == Select ==> "deleted_at" !in row)
  {
    if plan.tenantId.Some? {
      assert TenantFilter(plan.tenancyColumn, plan.tenantId.value) in plan.filters;
    }
    if plan.operation == Select {
      assert SOFT_DELETE in plan.filters;
    }
    ClauseRoundTrip(plan.filters);
    assert ParseClause("").None?;
  }
}
