/** What it means for the auditor to accept or to reject, said about the shapes of the nodes that
    occur in the statement and not about the checks. */
module SqlAcceptance {
  import opened Common
  import opened SqlSyntax
  import opened SqlAuditor

  // ----- where a node occurs

  /** `n` is `e` or stands somewhere inside it. */
  ghost predicate Occurs(n: Expr, e: Expr) {
    n == e
    || match e
       case Equals(l, r) => Occurs(n, l) || Occurs(n, r)
       case And(l, r) => Occurs(n, l) || Occurs(n, r)
       case Or(l, r) => Occurs(n, l) || Occurs(n, r)
       case Not(x) => Occurs(n, x)
       case IsNull(x) => Occurs(n, x)
       case Like(x, p) => Occurs(n, x) || Occurs(n, p)
       case InList(x, cs) => Occurs(n, x) || exists i :: 0 <= i < |cs| && Occurs(n, cs[i])
       case Call(_, args) => exists i :: 0 <= i < |args| && Occurs(n, args[i])
       case _ => false
  }

  ghost predicate OccursIn(n: Expr, q: Select) {
    || (exists i :: 0 <= i < |q.items| && Occurs(n, q.items[i]))
    || (exists i :: 0 <= i < |q.on| && Occurs(n, q.on[i]))
    || (q.where.Some? && Occurs(n, q.where.value))
  }

  lemma {:induction false} NodesOccur(n: Expr, e: Expr)
    ensures n in Nodes(e) <==> Occurs(n, e)
    decreases e, 0
  {
    match e {
      case Equals(l, r) => NodesOccur(n, l); NodesOccur(n, r);
      case And(l, r) => NodesOccur(n, l); NodesOccur(n, r);
      case Or(l, r) => NodesOccur(n, l); NodesOccur(n, r);
      case Not(x) => NodesOccur(n, x);
      case IsNull(x) => NodesOccur(n, x);
      case Like(x, p) => NodesOccur(n, x); NodesOccur(n, p);
      case InList(x, cs) => NodesOccur(n, x); AllNodesOccur(n, cs);
      case Call(_, args) => AllNodesOccur(n, args);
      case _ =>
    }
  }

  lemma {:induction false} AllNodesOccur(n: Expr, es: seq<Expr>)
    ensures n in NodesOfAll(es) <==> exists i :: 0 <= i < |es| && Occurs(n, es[i])
    decreases es, 1
  {
    if es != [] {
      NodesOccur(n, es[0]);
      AllNodesOccur(n, es[1..]);
      if i :| 0 <= i < |es[1..]| && Occurs(n, es[1..][i]) {
        assert Occurs(n, es[i + 1]);
      }
      if i :| 0 <= i < |es| && Occurs(n, es[i]) {
        assert i > 0 ==> es[1..][i - 1] == es[i];
      }
    }
  }

  lemma QueryNodesOccur(n: Expr, q: Select)
    ensures n in QueryNodes(q) <==> OccursIn(n, q)
  {
    AllNodesOccur(n, q.items);
    AllNodesOccur(n, q.on);
    if q.where.Some? {
      NodesOccur(n, q.where.value);
    }
  }

  // ----- what the conditions on an accepted statement are

  /** The name by which a FROM entry is referred to. */
  ghost predicate NamedAs(t: Table, qualifier: string) {
    t.alias == Some(qualifier) || (t.alias.None? && t.name == qualifier)
  }

  /** The table a column belongs to: the only one when it is unqualified; otherwise the last FROM
      entry of that name, or the table so called when there is none. */
  ghost predicate BelongsTo(from: seq<Table>, qualifier: Option<string>, table: string) {
    match qualifier
    case None => |from| == 1 && from[0].name == table
    case Some(q) =>
      || (exists i :: 0 <= i < |from| && LastNamed(from, q, i) && from[i].name == table)
      || (table == q && forall i :: 0 <= i < |from| ==> !NamedAs(from[i], q))
  }

  ghost predicate LastNamed(from: seq<Table>, qualifier: string, i: nat) {
    i < |from| && NamedAs(from[i], qualifier) && forall j :: i < j < |from| ==> !NamedAs(from[j], qualifier)
  }

  /** `n` compares the field with the literal text, on either side. */
  ghost predicate EqualityOn(n: Expr, field: string, text: string) {
    || (exists q :: n == Equals(Column(q, field), Literal(text)))
    || (exists q :: n == Equals(Literal(text), Column(q, field)))
  }

  /** `n` offers the field the literal text among the choices of an `IN`. */
  ghost predicate ChoiceFor(n: Expr, field: string, text: string) {
    exists q, choices :: n == InList(Column(q, field), choices) && Literal(text) in choices
  }

  ghost predicate TablesListed(q: Select, schema: Schema) {
    forall i :: 0 <= i < |q.from| ==> q.from[i].name in schema
  }

  /** Every column is whitelisted in the table it belongs to and has no sensitive name. */
  ghost predicate ColumnsAllowed(q: Select, schema: Schema) {
    forall qualifier, name :: OccursIn(Column(qualifier, name), q) ==>
      name !in SENSITIVE_FIELD_NAMES
      && exists t :: BelongsTo(q.from, qualifier, t) && t in schema && name in schema[t]
  }

  /** Every comparison of the field with a literal names the user's own id. */
  ghost predicate ComparedOnlyWith(q: Select, field: string, own: string) {
    forall n, text :: OccursIn(n, q) && EqualityOn(n, field, text) ==> text == own
  }

  /** A user with projects compares `project_id` with those projects only, in `=` and in `IN`. */
  ghost predicate OwnProjectsOnly(q: Select, user: User) {
    user.scopeType == ProjectScope && user.projectIds != [] ==>
      forall n, text :: OccursIn(n, q) && (EqualityOn(n, "project_id", text) || ChoiceFor(n, "project_id", text)) ==>
        text in user.projectIds
  }

  ghost predicate Acceptable(q: Select, user: User, schema: Schema) {
    && TablesListed(q, schema) && !OccursIn(Star, q) && ColumnsAllowed(q, schema)
    && ComparedOnlyWith(q, "tenant_id", user.tenantId) && ComparedOnlyWith(q, "company_id", user.companyId)
    && OwnProjectsOnly(q, user)
  }

  // ----- the checks decide exactly these conditions

  lemma {:induction false} AliasMeaning(from: seq<Table>, q: string)
    ensures q in Aliases(from) <==> exists i :: 0 <= i < |from| && LastNamed(from, q, i)
    ensures forall i :: 0 <= i < |from| && LastNamed(from, q, i) ==> Aliases(from)[q] == from[i].name
    ensures q in Aliases(from) <==> exists i :: 0 <= i < |from| && NamedAs(from[i], q)
  {
    if from != [] {
      var before, last := Front(from), Last(from);
      AliasMeaning(before, q);
      if NamedAs(last, q) {
        assert LastNamed(from, q, |from| - 1);
      } else {
        forall i | 0 <= i < |before| ensures LastNamed(from, q, i) <==> LastNamed(before, q, i) {
          assert from[i] == before[i];
        }
        if q in Aliases(before) {
          var i :| 0 <= i < |before| && LastNamed(before, q, i);
          assert LastNamed(from, q, i);
        }
      }
    }
  }

  lemma ResolutionMeaning(from: seq<Table>, qualifier: Option<string>, name: string, t: string)
    ensures ResolveTable(Column(qualifier, name), from, Aliases(from)) == Some(t) <==> BelongsTo(from, qualifier, t)
  {
    match qualifier
    case None =>
    case Some(q) => AliasMeaning(from, q);
  }

  lemma ColumnMeaning(q: Select, schema: Schema, qualifier: Option<string>, name: string)
    ensures FieldProblem(Column(qualifier, name), q.from, Aliases(q.from), schema).None? <==>
              name !in SENSITIVE_FIELD_NAMES
              && exists t :: BelongsTo(q.from, qualifier, t) && t in schema && name in schema[t]
  {
    var c := Column(qualifier, name);
    var resolved := ResolveTable(c, q.from, Aliases(q.from));
    forall t ensures resolved == Some(t) <==> BelongsTo(q.from, qualifier, t) {
      ResolutionMeaning(q.from, qualifier, name, t);
    }
    if resolved.Some? {
      assert BelongsTo(q.from, qualifier, resolved.value);
    }
  }

  lemma EqualityMeaning(n: Expr, field: string, allowed: set<string>)
    ensures EqualsOverride(n, field, allowed) <==> exists text :: EqualityOn(n, field, text) && text !in allowed
  {
    if EqualsOverride(n, field, allowed) {
      if ForeignLiteral(n.left, n.right, field, allowed) {
        assert EqualityOn(n, field, n.right.text);
      } else {
        assert EqualityOn(n, field, n.left.text);
      }
    }
  }

  lemma ChoiceMeaning(n: Expr, field: string, allowed: set<string>)
    ensures InListOverride(n, field, allowed) <==> exists text :: ChoiceFor(n, field, text) && text !in allowed
  {
    if InListOverride(n, field, allowed) {
      var v :| v in n.choices && ForeignLiteral(n.item, v, field, allowed);
      assert ChoiceFor(n, field, v.text);
    }
  }

  lemma ComparisonMeaning(q: Select, field: string, own: string)
    ensures HasOverride(QueryNodes(q), field, {own}) <==> !ComparedOnlyWith(q, field, own)
  {
    forall n: Expr ensures n in QueryNodes(q) <==> OccursIn(n, q) {
      QueryNodesOccur(n, q);
    }
    forall n ensures EqualsOverride(n, field, {own}) <==> exists text :: EqualityOn(n, field, text) && text !in {own} {
      EqualityMeaning(n, field, {own});
    }
  }

  lemma ProjectMeaning(q: Select, user: User)
    ensures user.scopeType == ProjectScope && HasProjectOverride(QueryNodes(q), user.projectIds)
       <==> !OwnProjectsOnly(q, user)
  {
    var own := Elements(user.projectIds);
    forall n: Expr ensures n in QueryNodes(q) <==> OccursIn(n, q) {
      QueryNodesOccur(n, q);
    }
    forall n ensures ProjectOverrideNode(n, user.projectIds)
                <==> exists text ::
                       (EqualityOn(n, "project_id", text) || ChoiceFor(n, "project_id", text)) && text !in own
    {
      EqualityMeaning(n, "project_id", own);
      ChoiceMeaning(n, "project_id", own);
    }
  }

  lemma ColumnsMeaning(q: Select, schema: Schema)
    ensures FirstFieldProblem(QueryNodes(q), q.from, Aliases(q.from), schema).None? <==> ColumnsAllowed(q, schema)
  {
    NoFieldProblem(QueryNodes(q), q.from, Aliases(q.from), schema);
    forall qualifier, name
      ensures FieldProblem(Column(qualifier, name), q.from, Aliases(q.from), schema).None? <==>
                name !in SENSITIVE_FIELD_NAMES
                && exists t :: BelongsTo(q.from, qualifier, t) && t in schema && name in schema[t]
    {
      ColumnMeaning(q, schema, qualifier, name);
    }
    forall n: Expr ensures n in QueryNodes(q) <==> OccursIn(n, q) {
      QueryNodesOccur(n, q);
    }
  }

  /** A statement is accepted if and only if its tables are listed, it has no star, its columns are
      allowed, and it compares the tenant, the company and the projects with the user's own only. */
  lemma AcceptanceMeaning(q: Select, user: User, schema: Schema)
    ensures AuditQuery(q, user, schema).Accepted? <==> Acceptable(q, user, schema)
  {
    NoForeignTable(q.from, schema);
    QueryNodesOccur(Star, q);
    ColumnsMeaning(q, schema);
    ComparisonMeaning(q, "tenant_id", user.tenantId);
    ComparisonMeaning(q, "company_id", user.companyId);
    ProjectMeaning(q, user);
  }

  /** The whole audit accepts exactly one acceptable SELECT. */
  lemma AuditAcceptance(parsed: Parsed, user: User, schema: Schema)
    ensures Audit(parsed, user, schema).Accepted? <==>
              exists q :: parsed == Statements([SelectStatement(q)]) && Acceptable(q, user, schema)
  {
    if parsed.Statements? && |parsed.list| == 1 {
      assert parsed.list == [parsed.list[0]];
      if parsed.list[0].SelectStatement? {
        AcceptanceMeaning(parsed.list[0].query, user, schema);
      }
    }
  }

  /** What a reported reason tells: the conditions before it hold and its own does not. */
  ghost predicate Explains(reason: Reason, q: Select, user: User, schema: Schema) {
    match reason
    case TableNotAllowed(t) =>
      exists i ::
        && 0 <= i < |q.from| && q.from[i].name == t && t !in schema
        && forall j :: 0 <= j < i ==> q.from[j].name in schema
    case StarNotAllowed => TablesListed(q, schema) && OccursIn(Star, q)
    case AmbiguousField(f) =>
      && TablesListed(q, schema) && !OccursIn(Star, q) && OccursIn(Column(None, f), q) && |q.from| != 1
    case SensitiveField(f) =>
      && TablesListed(q, schema) && !OccursIn(Star, q) && f in SENSITIVE_FIELD_NAMES
      && exists qualifier :: OccursIn(Column(qualifier, f), q)
    case FieldNotAllowed(t, f) =>
      && TablesListed(q, schema) && !OccursIn(Star, q) && (t !in schema || f !in schema[t])
      && exists qualifier :: OccursIn(Column(qualifier, f), q) && BelongsTo(q.from, qualifier, t)
    case TenantOverride =>
      && TablesListed(q, schema) && !OccursIn(Star, q) && ColumnsAllowed(q, schema)
      && !ComparedOnlyWith(q, "tenant_id", user.tenantId)
    case CompanyOverride =>
      && TablesListed(q, schema) && !OccursIn(Star, q) && ColumnsAllowed(q, schema)
      && ComparedOnlyWith(q, "tenant_id", user.tenantId) && !ComparedOnlyWith(q, "company_id", user.companyId)
    case ProjectOverride =>
      && TablesListed(q, schema) && !OccursIn(Star, q) && ColumnsAllowed(q, schema)
      && ComparedOnlyWith(q, "tenant_id", user.tenantId) && ComparedOnlyWith(q, "company_id", user.companyId)
      && !OwnProjectsOnly(q, user)
    case _ => false
  }

  lemma {:induction false} FirstForeignMeaning(from: seq<Table>, schema: Schema) returns (i: nat)
    requires FirstForeignTable(from, schema).Some?
    ensures i < |from| && from[i].name == FirstForeignTable(from, schema).value && from[i].name !in schema
    ensures forall j :: 0 <= j < i ==> from[j].name in schema
  {
    if from[0].name !in schema {
      i := 0;
    } else {
      var k := FirstForeignMeaning(from[1..], schema);
      i := k + 1;
      assert forall j :: 0 < j < i ==> from[j] == from[1..][j - 1];
    }
  }

  lemma {:induction false} FieldProblemOrigin(nodes: seq<Expr>, from: seq<Table>, schema: Schema) returns (c: Expr)
    requires FirstFieldProblem(nodes, from, Aliases(from), schema).Some?
    ensures c in nodes
    ensures FieldProblem(c, from, Aliases(from), schema) == FirstFieldProblem(nodes, from, Aliases(from), schema)
  {
    if FieldProblem(nodes[0], from, Aliases(from), schema).Some? {
      c := nodes[0];
    } else {
      c := FieldProblemOrigin(nodes[1..], from, schema);
    }
  }

  lemma FieldReasonMeaning(q: Select, user: User, schema: Schema)
    requires TablesListed(q, schema) && !OccursIn(Star, q)
    requires FirstFieldProblem(QueryNodes(q), q.from, Aliases(q.from), schema).Some?
    ensures Explains(FirstFieldProblem(QueryNodes(q), q.from, Aliases(q.from), schema).value, q, user, schema)
  {
    var c := FieldProblemOrigin(QueryNodes(q), q.from, schema);
    QueryNodesOccur(c, q);
    assert c == Column(c.qualifier, c.name);
    var resolved := ResolveTable(c, q.from, Aliases(q.from));
    if resolved.Some? {
      ResolutionMeaning(q.from, c.qualifier, c.name, resolved.value);
    }
  }

  /** The verdict on a SELECT that is not accepted names a condition that fails, after all those
      checked before it hold. */
  lemma RejectionMeaning(q: Select, user: User, schema: Schema)
    requires !Acceptable(q, user, schema)
    ensures AuditQuery(q, user, schema).Rejected? && Explains(AuditQuery(q, user, schema).reason, q, user, schema)
  {
    AcceptanceMeaning(q, user, schema);
    NoForeignTable(q.from, schema);
    QueryNodesOccur(Star, q);
    ColumnsMeaning(q, schema);
    ComparisonMeaning(q, "tenant_id", user.tenantId);
    ComparisonMeaning(q, "company_id", user.companyId);
    ProjectMeaning(q, user);
    if FirstForeignTable(q.from, schema).Some? {
      var i := FirstForeignMeaning(q.from, schema);
    } else if !OccursIn(Star, q) && FirstFieldProblem(QueryNodes(q), q.from, Aliases(q.from), schema).Some? {
      FieldReasonMeaning(q, user, schema);
    }
  }

  /** A project outside the user's own in an `IN` list is refused, whatever else the list holds. */
  lemma ForeignProjectInListRefused(q: Select, user: User, schema: Schema, qualifier: Option<string>,
                                    choices: seq<Expr>, text: string)
    requires user.scopeType == ProjectScope && user.projectIds != [] && text !in user.projectIds
    requires OccursIn(InList(Column(qualifier, "project_id"), choices), q) && Literal(text) in choices
    ensures AuditQuery(q, user, schema).Rejected?
  {
    AcceptanceMeaning(q, user, schema);
    assert ChoiceFor(InList(Column(qualifier, "project_id"), choices), "project_id", text);
  }

  /** The rewrite touches the condition and the limit only, and the flag says whether it touched
      the condition. */
  lemma RewriteTouches(q: Select, user: User, schema: Schema)
    requires Acceptable(q, user, schema)
    ensures var result := AuditQuery(q, user, schema);
            && result.Accepted? && result.query == q.(where := result.query.where, limit := result.query.limit)
            && (result.scopeInjected <==> result.query.where != q.where)
  {
    AcceptanceMeaning(q, user, schema);
  }
}
