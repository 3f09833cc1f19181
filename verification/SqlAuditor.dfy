/** The audit: checks, scope injection and the limit; and what the rewritten query means. */
module SqlAuditor {
  import opened Common
  import opened SqlSyntax
  import opened SqlSemantics

  const DEFAULT_LIMIT := 100
  const MAX_LIMIT := 500
  const PROJECT_OVERRIDE_CONFIG_TABLES := {"metric_catalog"}
  const SENSITIVE_FIELD_NAMES := {
    "identity_card", "id_card", "id_card_no", "phone", "mobile", "bank_card", "password", "token",
    "secret", "api_key", "health_detail", "health_details", "face_image", "raw_video"}

  datatype ScopeType = CompanyScope | ProjectScope
  datatype DataScope = TenantData | OrgData
  datatype User = User(tenantId: string, companyId: string, orgPath: string,
                       scopeType: ScopeType, dataScope: DataScope, projectIds: seq<string>)

  /** The field whitelist of each table. */
  type Schema = map<string, set<string>>

  datatype Reason =
    | ParseFailed | MultipleStatements | OnlySelect
    | TableNotAllowed(table: string) | StarNotAllowed
    | AmbiguousField(field: string) | SensitiveField(field: string) | FieldNotAllowed(table: string, field: string)
    | TenantOverride | CompanyOverride | ProjectOverride

  datatype AuditResult = Rejected(reason: Reason) | Accepted(query: Select, scopeInjected: bool)

  // ----- the checks, as functions of the parsed statement

  /** Later FROM entries win, as in the dictionary the auditor builds. */
  function Aliases(from: seq<Table>): map<string, string> {
    if from == [] then map[]
    else Aliases(Front(from))[Last(from).Qualifier() := Last(from).name]
  }

  function ResolveTable(c: Expr, from: seq<Table>, aliases: map<string, string>): Option<string>
    requires c.Column?
  {
    match c.qualifier
    case Some(q) => Some(if q in aliases then aliases[q] else q)
    case None => if |from| == 1 then Some(from[0].name) else None
  }

  function FieldProblem(node: Expr, from: seq<Table>, aliases: map<string, string>, schema: Schema): Option<Reason> {
    if !node.Column? then None
    else
      match ResolveTable(node, from, aliases)
      case None => Some(AmbiguousField(node.name))
      case Some(t) =>
        if node.name in SENSITIVE_FIELD_NAMES then Some(SensitiveField(node.name))
        else if t !in schema || node.name !in schema[t] then Some(FieldNotAllowed(t, node.name))
        else None
  }

  function FirstFieldProblem(nodes: seq<Expr>, from: seq<Table>, aliases: map<string, string>,
                             schema: Schema): Option<Reason> {
    if nodes == [] then None
    else
      var p := FieldProblem(nodes[0], from, aliases, schema);
      if p.Some? then p else FirstFieldProblem(nodes[1..], from, aliases, schema)
  }

  function FirstForeignTable(from: seq<Table>, schema: Schema): Option<string> {
    if from == [] then None
    else if from[0].name !in schema then Some(from[0].name)
    else FirstForeignTable(from[1..], schema)
  }

  predicate ForeignLiteral(column: Expr, value: Expr, field: string, allowed: set<string>) {
    column.Column? && column.name == field && value.Literal? && value.text !in allowed
  }

  predicate EqualsOverride(node: Expr, field: string, allowed: set<string>) {
    node.Equals? && (ForeignLiteral(node.left, node.right, field, allowed)
                     || ForeignLiteral(node.right, node.left, field, allowed))
  }

  predicate InListOverride(node: Expr, field: string, allowed: set<string>) {
    node.InList? && exists v :: v in node.choices && ForeignLiteral(node.item, v, field, allowed)
  }

  predicate HasOverride(nodes: seq<Expr>, field: string, allowed: set<string>) {
    exists n :: n in nodes && EqualsOverride(n, field, allowed)
  }

  predicate HasProjectOverride(nodes: seq<Expr>, projectIds: seq<string>) {
    projectIds != [] && exists n :: n in nodes && ProjectOverrideNode(n, projectIds)
  }

  predicate ProjectOverrideNode(n: Expr, projectIds: seq<string>) {
    EqualsOverride(n, "project_id", Elements(projectIds)) || InListOverride(n, "project_id", Elements(projectIds))
  }

  function FindProblem(q: Select, user: User, schema: Schema): Option<Reason> {
    var nodes := QueryNodes(q);
    var foreign := FirstForeignTable(q.from, schema);
    var field := FirstFieldProblem(nodes, q.from, Aliases(q.from), schema);
    if foreign.Some? then Some(TableNotAllowed(foreign.value))
    else if Star in nodes then Some(StarNotAllowed)
    else if field.Some? then field
    else if HasOverride(nodes, "tenant_id", {user.tenantId}) then Some(TenantOverride)
    else if HasOverride(nodes, "company_id", {user.companyId}) then Some(CompanyOverride)
    else if user.scopeType == ProjectScope && HasProjectOverride(nodes, user.projectIds) then Some(ProjectOverride)
    else None
  }

  // ----- the rewrite

  function Literals(texts: seq<string>): seq<Expr> {
    if texts == [] then [] else [Literal(texts[0])] + Literals(texts[1..])
  }

  function CompanyPart(user: User, fields: set<string>, qualifier: string): seq<Expr> {
    if "company_id" in fields then [Equals(Column(Some(qualifier), "company_id"), Literal(user.companyId))]
    else if "tenant_id" in fields then [Equals(Column(Some(qualifier), "tenant_id"), Literal(user.companyId))]
    else []
  }

  function ProjectPart(user: User, fields: set<string>, t: Table): seq<Expr> {
    var column := Column(Some(t.Qualifier()), "project_id");
    if user.scopeType == ProjectScope && user.projectIds != [] && "project_id" in fields then
      if t.name in PROJECT_OVERRIDE_CONFIG_TABLES then
        [Or(IsNull(column), InList(column, Literals(user.projectIds)))]
      else [InList(column, Literals(user.projectIds))]
    else if user.dataScope == OrgData && "org_path" in fields then
      [Like(Column(Some(t.Qualifier()), "org_path"), Literal(user.orgPath + "%"))]
    else []
  }

  function TableParts(user: User, schema: Schema, t: Table): seq<Expr> {
    var fields := if t.name in schema then schema[t.name] else {};
    CompanyPart(user, fields, t.Qualifier()) + ProjectPart(user, fields, t)
  }

  function ScopeParts(user: User, schema: Schema, from: seq<Table>): seq<Expr> {
    if from == [] then [] else ScopeParts(user, schema, Front(from)) + TableParts(user, schema, Last(from))
  }

  function Conjoin(parts: seq<Expr>): Expr
    requires parts != []
  {
    if |parts| == 1 then parts[0] else And(Conjoin(Front(parts)), Last(parts))
  }

  function AppendWhere(q: Select, condition: Expr): Select {
    q.(where := Some(if q.where.Some? then And(q.where.value, condition) else condition))
  }

  function ClampLimit(limit: Limit): Limit {
    match limit
    case AtMost(n) => if n > MAX_LIMIT then AtMost(MAX_LIMIT) else limit
    case _ => AtMost(DEFAULT_LIMIT)
  }

  function Rewrite(q: Select, user: User, schema: Schema): Select {
    var parts := ScopeParts(user, schema, q.from);
    var scoped := if parts == [] then q else AppendWhere(q, Conjoin(parts));
    scoped.(limit := ClampLimit(scoped.limit))
  }

  function AuditQuery(q: Select, user: User, schema: Schema): AuditResult {
    var problem := FindProblem(q, user, schema);
    if problem.Some? then Rejected(problem.value)
    else Accepted(Rewrite(q, user, schema), ScopeParts(user, schema, q.from) != [])
  }

  function Audit(parsed: Parsed, user: User, schema: Schema): AuditResult {
    match parsed
    case ParseFailure => Rejected(ParseFailed)
    case Statements(list) =>
      if |list| != 1 then Rejected(MultipleStatements)
      else match list[0]
           case OtherStatement => Rejected(OnlySelect)
           case SelectStatement(q) => AuditQuery(q, user, schema)
  }

  /** `audit_sql`, step by step on a copy of the statement. */
  method AuditSql(parsed: Parsed, user: User, schema: Schema) returns (result: AuditResult)
    ensures result == Audit(parsed, user, schema)
  {
    if parsed.ParseFailure? {
      return Rejected(ParseFailed);
    }
    if |parsed.list| != 1 {
      return Rejected(MultipleStatements);
    }
    if parsed.list[0].OtherStatement? {
      return Rejected(OnlySelect);
    }
    var q := parsed.list[0].query;
    var problem := CheckQuery(q, user, schema);
    if problem.Some? {
      return Rejected(problem.value);
    }

    var scoped := q;
    var parts: seq<Expr> := [];
    for i := 0 to |q.from|
      invariant parts == ScopeParts(user, schema, q.from[..i])
    {
      assert Front(q.from[..i + 1]) == q.from[..i];
      parts := parts + TableParts(user, schema, q.from[i]);
    }
    assert q.from[..|q.from|] == q.from;
    if parts != [] {
      scoped := AppendWhere(scoped, Conjoin(parts));
    }
    scoped := scoped.(limit := ClampLimit(scoped.limit));
    return Accepted(scoped, parts != []);
  }

  method CheckQuery(q: Select, user: User, schema: Schema) returns (problem: Option<Reason>)
    ensures problem == FindProblem(q, user, schema)
  {
    var aliases: map<string, string> := map[];
    for i := 0 to |q.from|
      invariant aliases == Aliases(q.from[..i])
    {
      assert Front(q.from[..i + 1]) == q.from[..i];
      aliases := aliases[q.from[i].Qualifier() := q.from[i].name];
    }
    assert q.from[..|q.from|] == q.from;
    for i := 0 to |q.from|
      invariant FirstForeignTable(q.from, schema) == FirstForeignTable(q.from[i..], schema)
    {
      if q.from[i].name !in schema {
        return Some(TableNotAllowed(q.from[i].name));
      }
    }
    var nodes := QueryNodes(q);
    if Star in nodes {
      return Some(StarNotAllowed);
    }
    for i := 0 to |nodes|
      invariant FirstFieldProblem(nodes, q.from, aliases, schema)
             == FirstFieldProblem(nodes[i..], q.from, aliases, schema)
    {
      problem := FieldProblem(nodes[i], q.from, aliases, schema);
      if problem.Some? {
        return;
      }
    }
    if HasOverride(nodes, "tenant_id", {user.tenantId}) {
      return Some(TenantOverride);
    }
    if HasOverride(nodes, "company_id", {user.companyId}) {
      return Some(CompanyOverride);
    }
    if user.scopeType == ProjectScope && HasProjectOverride(nodes, user.projectIds) {
      return Some(ProjectOverride);
    }
    return None;
  }

  // ----- what a user may see, said about rows and not about SQL

  /** The row belongs to the user's company and to the user's projects or organisation. */
  predicate InScope(user: User, schema: Schema, table: string, row: Row) {
    InCompany(user, schema, table, row) && InProjects(user, schema, table, row)
  }

  predicate InCompany(user: User, schema: Schema, table: string, row: Row) {
    table in schema ==>
      if "company_id" in schema[table] then Field(row, "company_id") == Text(user.companyId)
      else "tenant_id" in schema[table] ==> Field(row, "tenant_id") == Text(user.companyId)
  }

  predicate InProjects(user: User, schema: Schema, table: string, row: Row) {
    table in schema ==>
      if user.scopeType == ProjectScope && user.projectIds != [] && "project_id" in schema[table] then
        var project := Field(row, "project_id");
        (project == Null && table in PROJECT_OVERRIDE_CONFIG_TABLES)
        || (project.Text? && project.s in user.projectIds)
      else user.dataScope == OrgData && "org_path" in schema[table] ==>
        var path := Field(row, "org_path");
        path.Text? && LikeMatches(path.s, user.orgPath + "%")
  }

  function ScopeOf(user: User, schema: Schema, table: string): Row -> bool {
    row => InScope(user, schema, table, row)
  }

  function JointScope(user: User, schema: Schema, from: seq<Table>): Env -> bool {
    env => EnvInScope(user, schema, from, env)
  }

  function Restrict(db: Database, user: User, schema: Schema): Database {
    map t | t in db :: KeepIf(db[t], ScopeOf(user, schema, t))
  }

  predicate EnvInScope(user: User, schema: Schema, from: seq<Table>, env: Env) {
    |env| == |from| && forall i :: 0 <= i < |from| ==> InScope(user, schema, from[i].name, env[i])
  }

  // ----- the injected condition says exactly that every joined row is in scope

  lemma {:induction false} EvalLiterals(texts: seq<string>, from: seq<Table>, env: Env, interp: Interp)
    requires |env| == |from|
    ensures forall v :: v in EvalAll(Literals(texts), from, env, interp) <==> v.Text? && v.s in texts
  {
    if texts != [] {
      EvalLiterals(texts[1..], from, env, interp);
      assert Literals(texts)[1..] == Literals(texts[1..]);
      assert texts == [texts[0]] + texts[1..];
    }
  }

  lemma CompanyPartMeaning(user: User, schema: Schema, from: seq<Table>, env: Env, i: nat, interp: Interp)
    requires |env| == |from| && i < |from| && DistinctQualifiers(from) && from[i].name in schema
    ensures AllHold(CompanyPart(user, schema[from[i].name], from[i].Qualifier()), from, env, interp)
       <==> InCompany(user, schema, from[i].name, env[i])
  {
    LookupAt(from, env, i, "company_id");
    LookupAt(from, env, i, "tenant_id");
    var parts := CompanyPart(user, schema[from[i].name], from[i].Qualifier());
    if parts != [] {
      AllHoldOne(parts[0], from, env, interp);
      assert Eval(parts[0].right, from, env, interp) == Text(user.companyId);
      assert Eval(parts[0], from, env, interp)
          == EqualsValue(Eval(parts[0].left, from, env, interp), Text(user.companyId));
    }
  }

  lemma ProjectPartMeaning(user: User, schema: Schema, from: seq<Table>, env: Env, i: nat, interp: Interp)
    requires |env| == |from| && i < |from| && DistinctQualifiers(from) && from[i].name in schema
    ensures AllHold(ProjectPart(user, schema[from[i].name], from[i]), from, env, interp)
       <==> InProjects(user, schema, from[i].name, env[i])
  {
    LookupAt(from, env, i, "project_id");
    LookupAt(from, env, i, "org_path");
    EvalLiterals(user.projectIds, from, env, interp);
    var parts := ProjectPart(user, schema[from[i].name], from[i]);
    if parts != [] {
      AllHoldOne(parts[0], from, env, interp);
      if parts[0].Or? {
        var l := Eval(parts[0].left, from, env, interp);
        var r := Eval(parts[0].right, from, env, interp);
        var column := Column(Some(from[i].Qualifier()), "project_id");
        assert parts[0].left == IsNull(column) && parts[0].right == InList(column, Literals(user.projectIds));
        assert Eval(column, from, env, interp) == Field(env[i], "project_id");
        assert l == Flag(Field(env[i], "project_id") == Null);
        assert r == InValue(Field(env[i], "project_id"), EvalAll(Literals(user.projectIds), from, env, interp));
        assert Holds(parts[0], from, env, interp) <==> TruthOf(l, interp) == Yes || TruthOf(r, interp) == Yes;
      } else if parts[0].Like? {
        assert Eval(parts[0].pattern, from, env, interp) == Text(user.orgPath + "%");
        assert Eval(parts[0], from, env, interp)
            == LikeValue(Field(env[i], "org_path"), Text(user.orgPath + "%"));
      } else {
        assert Eval(parts[0], from, env, interp)
            == InValue(Field(env[i], "project_id"), EvalAll(Literals(user.projectIds), from, env, interp));
      }
    }
  }

  lemma AllHoldOne(e: Expr, from: seq<Table>, env: Env, interp: Interp)
    requires |env| == |from|
    ensures AllHold([e], from, env, interp) <==> Holds(e, from, env, interp)
  {
    assert e in [e];
  }

  lemma AllHoldConcat(a: seq<Expr>, b: seq<Expr>, from: seq<Table>, env: Env, interp: Interp)
    requires |env| == |from|
    ensures AllHold(a + b, from, env, interp) <==> AllHold(a, from, env, interp) && AllHold(b, from, env, interp)
  {
    if AllHold(a + b, from, env, interp) {
      forall e | e in a || e in b ensures Holds(e, from, env, interp) {
        assert e in a + b;
      }
    }
  }

  lemma TablePartsMeaning(user: User, schema: Schema, from: seq<Table>, env: Env, i: nat, interp: Interp)
    requires |env| == |from| && i < |from| && DistinctQualifiers(from) && from[i].name in schema
    ensures AllHold(TableParts(user, schema, from[i]), from, env, interp)
       <==> InScope(user, schema, from[i].name, env[i])
  {
    var t := from[i];
    CompanyPartMeaning(user, schema, from, env, i, interp);
    ProjectPartMeaning(user, schema, from, env, i, interp);
    AllHoldConcat(CompanyPart(user, schema[t.name], t.Qualifier()), ProjectPart(user, schema[t.name], t),
                  from, env, interp);
  }

  ghost predicate FirstInScope(user: User, schema: Schema, from: seq<Table>, env: Env, n: nat)
    requires n <= |from| == |env|
  {
    forall i :: 0 <= i < n ==> InScope(user, schema, from[i].name, env[i])
  }

  lemma {:induction false} ScopePartsMeaning(user: User, schema: Schema, from: seq<Table>, env: Env, n: nat,
                                             interp: Interp)
    requires |env| == |from| && n <= |from| && DistinctQualifiers(from)
    requires forall t :: t in from ==> t.name in schema
    ensures AllHold(ScopeParts(user, schema, from[..n]), from, env, interp)
       <==> FirstInScope(user, schema, from, env, n)
  {
    if n > 0 {
      assert Front(from[..n]) == from[..n - 1] && Last(from[..n]) == from[n - 1];
      ScopePartsMeaning(user, schema, from, env, n - 1, interp);
      TablePartsMeaning(user, schema, from, env, n - 1, interp);
      AllHoldConcat(ScopeParts(user, schema, from[..n - 1]), TableParts(user, schema, from[n - 1]), from, env, interp);
    }
  }

  lemma {:induction false} ConjoinMeaning(parts: seq<Expr>, from: seq<Table>, env: Env, interp: Interp)
    requires |env| == |from| && parts != []
    ensures Holds(Conjoin(parts), from, env, interp) <==> AllHold(parts, from, env, interp)
  {
    if |parts| == 1 {
      AllHoldOne(parts[0], from, env, interp);
      assert parts == [parts[0]];
    } else {
      AndHolds(Conjoin(Front(parts)), Last(parts), from, env, interp);
      ConjoinMeaning(Front(parts), from, env, interp);
      AllHoldConcat(Front(parts), [Last(parts)], from, env, interp);
      AllHoldOne(Last(parts), from, env, interp);
      assert parts == Front(parts) + [Last(parts)];
    }
  }

  lemma AppendWhereSelects(q: Select, condition: Expr, env: Env, interp: Interp)
    requires |env| == |q.from|
    ensures Selected(AppendWhere(q, condition), env, interp)
       <==> Selected(q, env, interp) && Holds(condition, q.from, env, interp)
  {
    if q.where.Some? {
      AndHolds(q.where.value, condition, q.from, env, interp);
    }
  }

  lemma AndHolds(a: Expr, b: Expr, from: seq<Table>, env: Env, interp: Interp)
    requires |env| == |from|
    ensures Holds(And(a, b), from, env, interp) <==> Holds(a, from, env, interp) && Holds(b, from, env, interp)
  {
    var x, y := TruthOf(Eval(a, from, env, interp), interp), TruthOf(Eval(b, from, env, interp), interp);
    assert Eval(And(a, b), from, env, interp) == OfTruth(AndTruth(x, y));
  }

  lemma RewriteSelects(q: Select, user: User, schema: Schema, env: Env, interp: Interp)
    requires DistinctQualifiers(q.from) && |env| == |q.from|
    requires forall t :: t in q.from ==> t.name in schema
    ensures Selected(Rewrite(q, user, schema), env, interp)
       <==> EnvInScope(user, schema, q.from, env) && Selected(q, env, interp)
  {
    var parts := ScopeParts(user, schema, q.from);
    assert q.from[..|q.from|] == q.from;
    ScopePartsMeaning(user, schema, q.from, env, |q.from|, interp);
    var r := Rewrite(q, user, schema);
    if parts == [] {
      assert Selected(r, env, interp) <==> Selected(q, env, interp);
    } else {
      var scoped := AppendWhere(q, Conjoin(parts));
      ConjoinMeaning(parts, q.from, env, interp);
      AppendWhereSelects(q, Conjoin(parts), env, interp);
      assert Selected(r, env, interp) <==> Selected(scoped, env, interp);
    }
  }

  // ----- filtering the product is taking the product of the filtered tables

  lemma {:induction false} KeepPrependRow(row: Row, envs: seq<Env>, user: User, schema: Schema, from: seq<Table>)
    requires from != []
    ensures KeepIf(PrependRow(row, envs), JointScope(user, schema, from))
         == if InScope(user, schema, from[0].name, row)
            then PrependRow(row, KeepIf(envs, JointScope(user, schema, from[1..])))
            else []
  {
    if envs != [] {
      KeepPrependRow(row, envs[1..], user, schema, from);
      EnvInScopeCons(user, schema, from, row, envs[0]);
      var keep, keepRest := JointScope(user, schema, from), JointScope(user, schema, from[1..]);
      assert PrependRow(row, envs)[1..] == PrependRow(row, envs[1..]);
      assert KeepIf(PrependRow(row, envs), keep)
          == (if keep([row] + envs[0]) then [[row] + envs[0]] else []) + KeepIf(PrependRow(row, envs[1..]), keep);
      if keepRest(envs[0]) {
        assert KeepIf(envs, keepRest)[1..] == KeepIf(envs[1..], keepRest);
      } else {
        assert KeepIf(envs, keepRest) == KeepIf(envs[1..], keepRest);
      }
    }
  }

  lemma EnvInScopeCons(user: User, schema: Schema, from: seq<Table>, row: Row, env: Env)
    requires from != []
    ensures EnvInScope(user, schema, from, [row] + env)
       <==> InScope(user, schema, from[0].name, row) && EnvInScope(user, schema, from[1..], env)
  {
    var whole := [row] + env;
    if |env| == |from| - 1 {
      assert forall i :: 0 <= i < |env| ==> whole[i + 1] == env[i] && from[i + 1] == from[1..][i];
      if InScope(user, schema, from[0].name, row) && EnvInScope(user, schema, from[1..], env) {
        forall i | 0 <= i < |from| ensures InScope(user, schema, from[i].name, whole[i]) {
          if i > 0 {
            assert InScope(user, schema, from[1..][i - 1].name, env[i - 1]);
          }
        }
      }
      if EnvInScope(user, schema, from, whole) {
        assert whole[0] == row;
        forall i | 0 <= i < |env| ensures InScope(user, schema, from[1..][i].name, env[i]) {
          assert InScope(user, schema, from[i + 1].name, whole[i + 1]);
        }
      }
    }
  }

  lemma {:induction false} KeepPrependRows(rows: seq<Row>, envs: seq<Env>, user: User, schema: Schema, from: seq<Table>)
    requires from != []
    ensures KeepIf(PrependRows(rows, envs), JointScope(user, schema, from))
         == PrependRows(KeepIf(rows, ScopeOf(user, schema, from[0].name)),
                        KeepIf(envs, JointScope(user, schema, from[1..])))
  {
    if rows != [] {
      KeepPrependRows(rows[1..], envs, user, schema, from);
      KeepPrependRow(rows[0], envs, user, schema, from);
      KeepIfConcat(PrependRow(rows[0], envs), PrependRows(rows[1..], envs),
                   JointScope(user, schema, from));
      var keep := ScopeOf(user, schema, from[0].name);
      if keep(rows[0]) {
        assert KeepIf(rows, keep)[1..] == KeepIf(rows[1..], keep);
      } else {
        assert KeepIf(rows, keep) == KeepIf(rows[1..], keep);
      }
    }
  }

  lemma {:induction false} ProductOfRestricted(from: seq<Table>, db: Database, user: User, schema: Schema)
    ensures KeepIf(Product(from, db), JointScope(user, schema, from))
         == Product(from, Restrict(db, user, schema))
  {
    if from == [] {
      assert KeepIf([[]], JointScope(user, schema, from)) == [[]];
    } else {
      ProductOfRestricted(from[1..], db, user, schema);
      KeepPrependRows(TableRows(db, from[0].name), Product(from[1..], db), user, schema, from);
    }
  }

  // ----- the rewritten query is the original query on the restricted database

  lemma {:induction false} PartColumnsBound(user: User, schema: Schema, from: seq<Table>, n: nat)
    requires n <= |from|
    ensures forall p, c :: p in ScopeParts(user, schema, from[..n]) && c in Nodes(p) && c.Column? ==> Bound(c, from)
  {
    if n > 0 {
      assert Front(from[..n]) == from[..n - 1];
      PartColumnsBound(user, schema, from, n - 1);
      forall p, c | p in TableParts(user, schema, from[n - 1]) && c in Nodes(p) && c.Column?
        ensures Bound(c, from)
      {
        PartNodes(user, schema, from[n - 1], p, c);
        assert from[n - 1] in from;
      }
    }
  }

  /** The fields a table with this whitelist is scoped through. */
  function ScopeFields(user: User, fields: set<string>): set<string> {
    (if "company_id" in fields then {"company_id"} else if "tenant_id" in fields then {"tenant_id"} else {})
    + if user.scopeType == ProjectScope && user.projectIds != [] && "project_id" in fields then {"project_id"}
      else if user.dataScope == OrgData && "org_path" in fields then {"org_path"}
      else {}
  }

  /** What the nodes of an injected predicate can be. */
  ghost predicate InjectedNode(user: User, schema: Schema, t: Table, node: Expr) {
    match node
    case Column(q, name) =>
      q == Some(t.Qualifier()) && t.name in schema && name in ScopeFields(user, schema[t.name])
    case Literal(_) => true
    case Equals(l, r) =>
      && r == Literal(user.companyId) && l.Column?
      && (l.name == "company_id" || (l.name == "tenant_id" && UsesTenantStandIn(schema, t)))
    case InList(x, cs) => user.projectIds != [] && x.Column? && cs == Literals(user.projectIds)
    case IsNull(_) => true
    case Like(_, _) => true
    case Or(_, _) => true
    case _ => false
  }

  const SCOPE_FIELDS := {"company_id", "tenant_id", "project_id", "org_path"}

  /** A table scoped through `tenant_id` compares that column with the user's company. */
  predicate UsesTenantStandIn(schema: Schema, t: Table) {
    t.name in schema && "company_id" !in schema[t.name] && "tenant_id" in schema[t.name]
  }

  lemma PartNodes(user: User, schema: Schema, t: Table, p: Expr, node: Expr)
    requires p in TableParts(user, schema, t) && node in Nodes(p)
    ensures InjectedNode(user, schema, t, node)
  {
    assert t.name in schema;
    if p in CompanyPart(user, schema[t.name], t.Qualifier()) {
      assert Nodes(p) == [p] + ([p.left] + [p.right]);
    } else {
      ProjectPartNodes(user, schema, t, p, node);
    }
  }

  lemma ProjectPartNodes(user: User, schema: Schema, t: Table, p: Expr, node: Expr)
    requires t.name in schema && p in ProjectPart(user, schema[t.name], t) && node in Nodes(p)
    ensures InjectedNode(user, schema, t, node)
  {
    var column := Column(Some(t.Qualifier()), "project_id");
    if p.Like? {
      assert Nodes(p) == [p] + ([p.item] + [p.pattern]);
    } else if p.InList? {
      ProjectListNodes(user, column, node);
    } else {
      assert Nodes(p) == [p] + (Nodes(p.left) + Nodes(p.right));
      if node in Nodes(p.right) {
        ProjectListNodes(user, column, node);
      } else {
        assert Nodes(p.left) == [p.left] + [column];
      }
    }
  }

  lemma ProjectListNodes(user: User, column: Expr, node: Expr)
    requires column.Column? && node in Nodes(InList(column, Literals(user.projectIds)))
    ensures node == InList(column, Literals(user.projectIds)) || node == column || node.Literal?
  {
    LiteralNodes(user.projectIds);
    assert Nodes(column) == [column];
  }

  lemma {:induction false} LiteralNodes(texts: seq<string>)
    ensures forall n :: n in NodesOfAll(Literals(texts)) ==> n.Literal?
    ensures forall n :: n in Literals(texts) <==> n.Literal? && n.text in texts
  {
    if texts != [] {
      LiteralNodes(texts[1..]);
      assert Literals(texts)[1..] == Literals(texts[1..]);
      assert Nodes(Literals(texts)[0]) == [Literal(texts[0])];
      assert texts == [texts[0]] + texts[1..];
    }
  }

  /** Below the conjunctions, the injected condition consists of the injected predicates. */
  lemma {:induction false} ConjoinNodes(parts: seq<Expr>, node: Expr)
    requires parts != [] && node in Nodes(Conjoin(parts)) && !node.And?
    ensures exists p :: p in parts && node in Nodes(p)
  {
    if |parts| == 1 {
      assert parts[0] in parts;
    } else if node in Nodes(Last(parts)) {
      assert Last(parts) in parts;
    } else {
      ConjoinNodes(Front(parts), node);
    }
  }

  lemma {:induction false} RewriteNodes(q: Select, user: User, schema: Schema, node: Expr)
    requires !node.And?
    ensures node in QueryNodes(Rewrite(q, user, schema)) ==>
              node in QueryNodes(q) || InjectedInto(q, user, schema, node)
    ensures node in QueryNodes(q) ==> node in QueryNodes(Rewrite(q, user, schema))
  {
    var parts := ScopeParts(user, schema, q.from);
    var r := Rewrite(q, user, schema);
    if parts == [] {
      assert QueryNodes(r) == QueryNodes(q);
    } else {
      var condition := Conjoin(parts);
      AppendWhereNodes(q, condition, node);
      assert QueryNodes(r) == QueryNodes(AppendWhere(q, condition));
      if node in Nodes(condition) {
        ConjoinNodes(parts, node);
      }
    }
  }

  ghost predicate InjectedInto(q: Select, user: User, schema: Schema, node: Expr) {
    exists p :: p in ScopeParts(user, schema, q.from) && node in Nodes(p)
  }

  lemma AppendWhereNodes(q: Select, condition: Expr, node: Expr)
    requires !node.And?
    ensures node in QueryNodes(AppendWhere(q, condition)) <==> node in QueryNodes(q) || node in Nodes(condition)
  {
    var before := NodesOfAll(q.items) + NodesOfAll(q.on);
    var after := AppendWhere(q, condition);
    match q.where {
      case None => assert QueryNodes(after) == before + Nodes(condition) && QueryNodes(q) == before;
      case Some(w) =>
        assert Nodes(And(w, condition)) == [And(w, condition)] + (Nodes(w) + Nodes(condition));
        assert QueryNodes(after) == before + Nodes(And(w, condition)) && QueryNodes(q) == before + Nodes(w);
    }
  }

  lemma RewriteWellFormed(q: Select, user: User, schema: Schema, db: Database)
    ensures WellFormed(Rewrite(q, user, schema), db) <==> WellFormed(q, Restrict(db, user, schema))
  {
    var r := Rewrite(q, user, schema);
    assert q.from[..|q.from|] == q.from;
    PartColumnsBound(user, schema, q.from, |q.from|);
    forall c: Expr | c.Column? {
      RewriteNodes(q, user, schema, c);
    }
  }

  lemma {:induction false} NoForeignTable(from: seq<Table>, schema: Schema)
    ensures FirstForeignTable(from, schema).None? <==> forall t :: t in from ==> t.name in schema
  {
    if from != [] {
      NoForeignTable(from[1..], schema);
      assert from == [from[0]] + from[1..];
      assert from[0] in from;
    }
  }

  /** Running the rewritten query on any database is running the original query on the part of
      the database in the user's scope; one is refused by the database exactly when the other is. */
  lemma RewriteRestricts(q: Select, user: User, schema: Schema, db: Database, interp: Interp)
    requires AuditQuery(q, user, schema).Accepted?
    ensures Run(AuditQuery(q, user, schema).query, db, interp) == Run(q, Restrict(db, user, schema), interp)
  {
    RewriteWellFormed(q, user, schema, db);
    NoForeignTable(q.from, schema);
    if DistinctQualifiers(q.from) {
      RewriteJoins(q, user, schema, db, interp);
    }
  }

  lemma RewriteJoins(q: Select, user: User, schema: Schema, db: Database, interp: Interp)
    requires DistinctQualifiers(q.from)
    requires forall t :: t in q.from ==> t.name in schema
    ensures JoinedRows(Rewrite(q, user, schema), db, interp) == JoinedRows(q, Restrict(db, user, schema), interp)
  {
    var r := Rewrite(q, user, schema);
    var inner, outer := JointScope(user, schema, q.from), SelectedBy(q, interp);
    var envs := Product(q.from, db);
    ProductShape(q.from, db);
    forall env | env in envs ensures SelectedBy(r, interp)(env) == Both(inner, outer)(env) {
      RewriteSelects(q, user, schema, env, interp);
    }
    KeepIfCongruent(envs, SelectedBy(r, interp), Both(inner, outer));
    KeepIfTwice(envs, inner, outer);
    ProductOfRestricted(q.from, db, user, schema);
  }

  /** Two databases that agree inside the scope cannot be told apart. */
  lemma ScopeDeterminesAnswer<R>(q: Select, user: User, schema: Schema, db1: Database, db2: Database,
                                 interp: Interp, tail: (seq<Expr>, seq<Table>, seq<Env>) -> seq<R>)
    requires AuditQuery(q, user, schema).Accepted?
    requires Restrict(db1, user, schema) == Restrict(db2, user, schema)
    ensures Answer(AuditQuery(q, user, schema).query, db1, interp, tail)
         == Answer(AuditQuery(q, user, schema).query, db2, interp, tail)
  {
    RewriteRestricts(q, user, schema, db1, interp);
    RewriteRestricts(q, user, schema, db2, interp);
  }

  /** The returned page: the records after the offset of the answer over the visible rows, as many
      as there are up to the limit in force, which is never above 500. */
  lemma {:induction false} AnswerIsBoundedPage<R(!new)>(q: Select, user: User, schema: Schema, db: Database,
                               interp: Interp, tail: (seq<Expr>, seq<Table>, seq<Env>) -> seq<R>)
    requires AuditQuery(q, user, schema).Accepted?
    ensures match Run(q, Restrict(db, user, schema), interp)
            case None => Answer(AuditQuery(q, user, schema).query, db, interp, tail) == None
            case Some(visible) =>
              var most := match q.limit case AtMost(n) => if n <= 500 then n else 500 case _ => 100;
              exists page ::
                && Answer(AuditQuery(q, user, schema).query, db, interp, tail) == Some(page)
                && CutFrom(page, tail(q.items, q.from, visible), q.offset, most)
  {
    RewriteRestricts(q, user, schema, db, interp);
    var visible := Run(q, Restrict(db, user, schema), interp);
    if visible.Some? {
      var all := tail(q.items, q.from, visible.value);
      PageIsCut(all, q.offset, ClampLimit(q.limit).count);
      assert Answer(AuditQuery(q, user, schema).query, db, interp, tail)
          == Some(Page(all, q.offset, ClampLimit(q.limit)));
    }
  }

  /** `page` is the stretch of `all` that starts at `offset`: `most` records if there are so many,
      otherwise all the rest. */
  ghost predicate CutFrom<R(!new)>(page: seq<R>, all: seq<R>, offset: nat, most: nat) {
    var left := if |all| <= offset then 0 else |all| - offset;
    && |page| == (if left <= most then left else most)
    && forall i :: 0 <= i < |page| ==> page[i] == all[offset + i]
  }

  lemma PageIsCut<R(!new)>(all: seq<R>, offset: nat, most: nat)
    ensures CutFrom(Page(all, offset, AtMost(most)), all, offset, most)
  {
  }

  /** Every row that takes part in the answer belongs to the user's company, in a schema where
      every listed table carries `company_id`. */
  lemma JoinedRowsInCompany(q: Select, user: User, schema: Schema, db: Database, interp: Interp)
    requires AuditQuery(q, user, schema).Accepted?
    requires forall t :: t in schema ==> "company_id" in schema[t]
    ensures var run := Run(AuditQuery(q, user, schema).query, db, interp);
            run.Some? ==> forall env, i :: env in run.value && 0 <= i < |env| ==>
              Field(env[i], "company_id") == Text(user.companyId)
  {
    var r := Rewrite(q, user, schema);
    if WellFormed(r, db) {
      NoForeignTable(q.from, schema);
      ProductShape(q.from, db);
      KeptElements(Product(q.from, db), SelectedBy(r, interp));
      forall env, i | env in JoinedRows(r, db, interp) && 0 <= i < |env|
        ensures Field(env[i], "company_id") == Text(user.companyId)
      {
        RewriteSelects(q, user, schema, env, interp);
        assert InScope(user, schema, q.from[i].name, env[i]);
        assert q.from[i] in q.from;
      }
    }
  }

  // ----- auditing the rewritten query again

  lemma {:induction false} NoFieldProblem(nodes: seq<Expr>, from: seq<Table>, aliases: map<string, string>,
                                          schema: Schema)
    ensures FirstFieldProblem(nodes, from, aliases, schema).None?
       <==> forall n :: n in nodes ==> FieldProblem(n, from, aliases, schema).None?
  {
    if nodes != [] {
      NoFieldProblem(nodes[1..], from, aliases, schema);
      assert nodes == [nodes[0]] + nodes[1..];
      assert nodes[0] in nodes;
    }
  }

  lemma {:induction false} AliasOf(from: seq<Table>, i: nat)
    requires DistinctQualifiers(from) && i < |from|
    ensures from[i].Qualifier() in Aliases(from) && Aliases(from)[from[i].Qualifier()] == from[i].name
  {
    if i < |from| - 1 {
      AliasOf(Front(from), i);
    }
  }

  lemma {:induction false} PartOwner(user: User, schema: Schema, from: seq<Table>, p: Expr) returns (i: nat)
    requires p in ScopeParts(user, schema, from)
    ensures i < |from| && p in TableParts(user, schema, from[i])
  {
    if p in TableParts(user, schema, Last(from)) {
      i := |from| - 1;
    } else {
      i := PartOwner(user, schema, Front(from), p);
    }
  }

  lemma ScopeFieldIsPublic(name: string)
    requires name in SCOPE_FIELDS
    ensures name !in SENSITIVE_FIELD_NAMES
  {
    assert forall f :: f in SENSITIVE_FIELD_NAMES ==> f != "company_id";
    assert forall f :: f in SENSITIVE_FIELD_NAMES ==> f != "tenant_id";
    assert forall f :: f in SENSITIVE_FIELD_NAMES ==> f != "project_id";
    assert forall f :: f in SENSITIVE_FIELD_NAMES ==> f != "org_path";
  }

  /** The scope fields of every FROM entry are whitelisted in the table its qualifier resolves to. */
  predicate ScopeFieldsResolve(user: User, schema: Schema, from: seq<Table>) {
    var aliases := Aliases(from);
    forall t :: t in from && t.name in schema && t.Qualifier() in aliases && aliases[t.Qualifier()] in schema ==>
      ScopeFields(user, schema[t.name]) <= schema[aliases[t.Qualifier()]]
  }

  lemma {:induction false} AliasTarget(from: seq<Table>, t: Table)
    requires t in from
    ensures t.Qualifier() in Aliases(from) && exists u :: u in from && u.name == Aliases(from)[t.Qualifier()]
  {
    var last := Last(from);
    if t.Qualifier() == last.Qualifier() {
      assert last in from;
    } else {
      assert t in Front(from);
      AliasTarget(Front(from), t);
      var u :| u in Front(from) && u.name == Aliases(Front(from))[t.Qualifier()];
      assert u in from;
    }
  }

  lemma InjectedColumnAllowed(user: User, schema: Schema, from: seq<Table>, t: Table, node: Expr)
    requires t in from && InjectedNode(user, schema, t, node) && ScopeFieldsResolve(user, schema, from)
    requires forall u :: u in from ==> u.name in schema
    ensures FieldProblem(node, from, Aliases(from), schema).None?
  {
    if node.Column? {
      AliasTarget(from, t);
      ScopeFieldIsPublic(node.name);
    }
  }

  lemma InjectedNodeOverridesNothing(user: User, schema: Schema, t: Table, node: Expr)
    requires InjectedNode(user, schema, t, node)
    requires user.tenantId == user.companyId || !UsesTenantStandIn(schema, t)
    ensures !EqualsOverride(node, "tenant_id", {user.tenantId})
    ensures !EqualsOverride(node, "company_id", {user.companyId})
    ensures !ProjectOverrideNode(node, user.projectIds)
  {
    if node.InList? {
      LiteralNodes(user.projectIds);
    }
  }

  lemma {:induction false} PartOfScope(user: User, schema: Schema, from: seq<Table>, i: nat, p: Expr)
    requires i < |from| && p in TableParts(user, schema, from[i])
    ensures p in ScopeParts(user, schema, from)
  {
    if i < |from| - 1 {
      PartOfScope(user, schema, Front(from), i, p);
    }
  }

  lemma {:induction false} ConjoinContains(parts: seq<Expr>, p: Expr, node: Expr)
    requires p in parts && node in Nodes(p)
    ensures node in Nodes(Conjoin(parts))
  {
    if |parts| == 1 {
      assert p == parts[0];
    } else if p != Last(parts) {
      assert p in Front(parts);
      ConjoinContains(Front(parts), p, node);
    }
  }

  /** A node that no check objects to. */
  predicate CleanNode(user: User, schema: Schema, from: seq<Table>, node: Expr) {
    && node != Star
    && FieldProblem(node, from, Aliases(from), schema).None?
    && !EqualsOverride(node, "tenant_id", {user.tenantId})
    && !EqualsOverride(node, "company_id", {user.companyId})
    && (user.scopeType == ProjectScope && user.projectIds != [] ==> !ProjectOverrideNode(node, user.projectIds))
  }

  lemma AcceptedIffClean(q: Select, user: User, schema: Schema)
    ensures AuditQuery(q, user, schema).Accepted? <==>
              && (forall t :: t in q.from ==> t.name in schema)
              && (forall n :: n in QueryNodes(q) ==> CleanNode(user, schema, q.from, n))
  {
    NoForeignTable(q.from, schema);
    NoFieldProblem(QueryNodes(q), q.from, Aliases(q.from), schema);
  }

  ghost predicate StandInHarmless(q: Select, user: User, schema: Schema) {
    user.tenantId == user.companyId || forall t :: t in q.from ==> !UsesTenantStandIn(schema, t)
  }

  lemma InjectedNodeClean(q: Select, user: User, schema: Schema, node: Expr)
    requires StandInHarmless(q, user, schema) && ScopeFieldsResolve(user, schema, q.from)
    requires forall t :: t in q.from ==> t.name in schema
    requires InjectedInto(q, user, schema, node)
    ensures CleanNode(user, schema, q.from, node)
  {
    var p :| p in ScopeParts(user, schema, q.from) && node in Nodes(p);
    var i := PartOwner(user, schema, q.from, p);
    PartNodes(user, schema, q.from[i], p, node);
    InjectedColumnAllowed(user, schema, q.from, q.from[i], node);
    InjectedNodeOverridesNothing(user, schema, q.from[i], node);
  }

  /** An injected node that the checks object to makes the auditor reject its own output. */
  lemma UncleanPartRejected(q: Select, user: User, schema: Schema, p: Expr, node: Expr)
    requires p in ScopeParts(user, schema, q.from) && node in Nodes(p) && !node.And?
    requires !CleanNode(user, schema, q.from, node)
    ensures !AuditQuery(Rewrite(q, user, schema), user, schema).Accepted?
  {
    var r := Rewrite(q, user, schema);
    var parts := ScopeParts(user, schema, q.from);
    ConjoinContains(parts, p, node);
    AppendWhereNodes(q, Conjoin(parts), node);
    assert QueryNodes(r) == QueryNodes(AppendWhere(q, Conjoin(parts)));
    AcceptedIffClean(r, user, schema);
  }

  lemma StandInRejected(q: Select, user: User, schema: Schema)
    requires !StandInHarmless(q, user, schema)
    ensures !AuditQuery(Rewrite(q, user, schema), user, schema).Accepted?
  {
    var t :| t in q.from && UsesTenantStandIn(schema, t);
    var p := StandInPart(q, user, schema, t);
    assert p in Nodes(p);
    UncleanPartRejected(q, user, schema, p, p);
  }

  lemma StandInPart(q: Select, user: User, schema: Schema, t: Table) returns (p: Expr)
    requires t in q.from && UsesTenantStandIn(schema, t) && user.tenantId != user.companyId
    ensures p in ScopeParts(user, schema, q.from) && p.Equals? && EqualsOverride(p, "tenant_id", {user.tenantId})
  {
    var i :| 0 <= i < |q.from| && q.from[i] == t;
    p := Equals(Column(Some(t.Qualifier()), "tenant_id"), Literal(user.companyId));
    assert CompanyPart(user, schema[t.name], t.Qualifier()) == [p];
    PartOfScope(user, schema, q.from, i, p);
  }

  /** Every scope field of a table occurs as a column of one of its injected predicates. */
  lemma ScopeFieldInjected(user: User, schema: Schema, t: Table, name: string) returns (p: Expr)
    requires t.name in schema && name in ScopeFields(user, schema[t.name])
    ensures p in TableParts(user, schema, t) && Column(Some(t.Qualifier()), name) in Nodes(p)
  {
    var column := Column(Some(t.Qualifier()), name);
    assert Nodes(column) == [column];
    if name == "company_id" || name == "tenant_id" {
      p := Equals(column, Literal(user.companyId));
      assert Nodes(p) == [p] + ([column] + [p.right]);
      assert CompanyPart(user, schema[t.name], t.Qualifier()) == [p];
    } else {
      p := ProjectPart(user, schema[t.name], t)[0];
      if p.Like? {
        assert Nodes(p) == [p] + ([column] + [p.pattern]);
      } else if p.InList? {
        assert Nodes(p) == [p] + ([column] + NodesOfAll(p.choices));
      } else {
        assert Nodes(p.left) == [p.left] + [column];
        assert Nodes(p) == [p] + (Nodes(p.left) + Nodes(p.right));
      }
    }
  }

  lemma UnresolvedFieldRejected(q: Select, user: User, schema: Schema, t: Table, name: string)
    requires t in q.from && t.name in schema && name in ScopeFields(user, schema[t.name])
    requires t.Qualifier() in Aliases(q.from) && Aliases(q.from)[t.Qualifier()] in schema
    requires name !in schema[Aliases(q.from)[t.Qualifier()]]
    ensures !AuditQuery(Rewrite(q, user, schema), user, schema).Accepted?
  {
    var p := ScopeFieldInjected(user, schema, t, name);
    var i :| 0 <= i < |q.from| && q.from[i] == t;
    PartOfScope(user, schema, q.from, i, p);
    var column := Column(Some(t.Qualifier()), name);
    assert FieldProblem(column, q.from, Aliases(q.from), schema).Some?;
    UncleanPartRejected(q, user, schema, p, column);
  }

  lemma UnresolvedRejected(q: Select, user: User, schema: Schema)
    requires !ScopeFieldsResolve(user, schema, q.from)
    ensures !AuditQuery(Rewrite(q, user, schema), user, schema).Accepted?
  {
    var aliases := Aliases(q.from);
    var t :| t in q.from && t.name in schema && t.Qualifier() in aliases && aliases[t.Qualifier()] in schema
             && !(ScopeFields(user, schema[t.name]) <= schema[aliases[t.Qualifier()]]);
    var name :| name in ScopeFields(user, schema[t.name]) && name !in schema[aliases[t.Qualifier()]];
    UnresolvedFieldRejected(q, user, schema, t, name);
  }

  /** The auditor accepts its own output exactly when two things hold of the query: no table is
      scoped through `tenant_id` or the user's tenant and company ids coincide, and the scope
      fields resolve. */
  lemma ReauditAcceptance(q: Select, user: User, schema: Schema)
    requires AuditQuery(q, user, schema).Accepted?
    ensures AuditQuery(AuditQuery(q, user, schema).query, user, schema).Accepted?
       <==> StandInHarmless(q, user, schema) && ScopeFieldsResolve(user, schema, q.from)
  {
    if !StandInHarmless(q, user, schema) {
      StandInRejected(q, user, schema);
    } else if !ScopeFieldsResolve(user, schema, q.from) {
      UnresolvedRejected(q, user, schema);
    } else {
      CleanRewriteAccepted(q, user, schema);
    }
  }

  lemma CleanRewriteAccepted(q: Select, user: User, schema: Schema)
    requires AuditQuery(q, user, schema).Accepted?
    requires StandInHarmless(q, user, schema) && ScopeFieldsResolve(user, schema, q.from)
    ensures AuditQuery(Rewrite(q, user, schema), user, schema).Accepted?
  {
    var r := Rewrite(q, user, schema);
    AcceptedIffClean(q, user, schema);
    forall n | n in QueryNodes(r) ensures CleanNode(user, schema, r.from, n) {
      if !n.And? {
        RewriteNodes(q, user, schema, n);
        if n !in QueryNodes(q) {
          InjectedNodeClean(q, user, schema, n);
        }
      }
    }
    AcceptedIffClean(r, user, schema);
  }

  /** With the whitelist of this auditor, where every table carries `company_id`, a query whose
      FROM entries have different qualifiers is accepted again, always. */
  lemma CompanyTablesReauditAccepted(q: Select, user: User, schema: Schema)
    requires AuditQuery(q, user, schema).Accepted? && DistinctQualifiers(q.from)
    requires forall t :: t in schema ==> "company_id" in schema[t]
    ensures AuditQuery(AuditQuery(q, user, schema).query, user, schema).Accepted?
  {
    forall t | t in q.from ensures t.Qualifier() in Aliases(q.from) && Aliases(q.from)[t.Qualifier()] == t.name {
      var i :| 0 <= i < |q.from| && q.from[i] == t;
      AliasOf(q.from, i);
    }
    ReauditAcceptance(q, user, schema);
  }

  /** Auditing twice changes nothing: same joined rows on every database, same limit. */
  lemma ReauditKeepsMeaning(q: Select, user: User, schema: Schema, db: Database, interp: Interp)
    requires AuditQuery(q, user, schema).Accepted?
    requires AuditQuery(AuditQuery(q, user, schema).query, user, schema).Accepted?
    ensures var once := AuditQuery(q, user, schema).query;
            var twice := AuditQuery(once, user, schema).query;
            Run(twice, db, interp) == Run(once, db, interp) && twice.limit == once.limit
  {
    var once := AuditQuery(q, user, schema).query;
    RewriteRestricts(once, user, schema, db, interp);
    RewriteRestricts(q, user, schema, Restrict(db, user, schema), interp);
    RewriteRestricts(q, user, schema, db, interp);
    RestrictTwice(db, user, schema);
  }

  lemma RestrictTwice(db: Database, user: User, schema: Schema)
    ensures Restrict(Restrict(db, user, schema), user, schema) == Restrict(db, user, schema)
  {
    forall t | t in db ensures KeepIf(KeepIf(db[t], ScopeOf(user, schema, t)), ScopeOf(user, schema, t))
                            == KeepIf(db[t], ScopeOf(user, schema, t)) {
      var keep := ScopeOf(user, schema, t);
      KeepIfTwice(db[t], keep, keep);
      KeepIfCongruent(db[t], Both(keep, keep), keep);
    }
  }
}
