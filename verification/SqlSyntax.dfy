/** The NL2SQL auditor as a query transformation. A candidate SELECT is either rejected or
    rewritten by conjoining row-scope predicates and clamping LIMIT. Flat inner-join queries get a
    denotational semantics with three-valued logic, and the rewrite is proved to mean
    "run the original query on the part of the database the user may see". */
module SqlSyntax {
  import opened Common

  /** Names are folded to lower case, as the auditor folds them before every comparison. */
  datatype Expr =
    | Column(qualifier: Option<string>, name: string)
    | Literal(text: string)
    | Star
    | Equals(left: Expr, right: Expr)
    | And(left: Expr, right: Expr)
    | Or(left: Expr, right: Expr)
    | Not(item: Expr)
    | IsNull(item: Expr)
    | Like(item: Expr, pattern: Expr)
    | InList(item: Expr, choices: seq<Expr>)
    | Call(op: string, args: seq<Expr>)

  datatype Table = Table(name: string, alias: Option<string>)
  {
    function Qualifier(): string {
      match alias case Some(a) => a case None => name
    }
  }

  /** `Opaque` is a limit that is not an integer literal. */
  datatype Limit = Unlimited | AtMost(count: nat) | Opaque

  /** `items` holds every expression outside FROM, ON and WHERE. */
  datatype Select = Select(items: seq<Expr>, from: seq<Table>, on: seq<Expr>, where: Option<Expr>,
                           offset: nat, limit: Limit)

  datatype Statement = SelectStatement(query: Select) | OtherStatement

  datatype Parsed = ParseFailure | Statements(list: seq<Statement>)

  /** Every node of an expression tree. */
  function Nodes(e: Expr): seq<Expr> {
    [e] + match e
          case Column(_, _) => []
          case Literal(_) => []
          case Star => []
          case Equals(l, r) => Nodes(l) + Nodes(r)
          case And(l, r) => Nodes(l) + Nodes(r)
          case Or(l, r) => Nodes(l) + Nodes(r)
          case Not(x) => Nodes(x)
          case IsNull(x) => Nodes(x)
          case Like(x, p) => Nodes(x) + Nodes(p)
          case InList(x, cs) => Nodes(x) + NodesOfAll(cs)
          case Call(_, args) => NodesOfAll(args)
  }

  function NodesOfAll(es: seq<Expr>): seq<Expr> {
    if es == [] then [] else Nodes(es[0]) + NodesOfAll(es[1..])
  }

  function QueryNodes(q: Select): seq<Expr> {
    NodesOfAll(q.items) + NodesOfAll(q.on) + match q.where case Some(w) => Nodes(w) case None => []
  }
}
