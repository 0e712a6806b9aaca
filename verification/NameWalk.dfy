/**
 The walk over a statement: which references are resolved, and in which scopes.

 A scope only ever grows by the sources of its own block and is not kept after its block
 has been walked, so the walk passes scopes on as values.
 */
module NameWalk {

  import opened Options
  import opened NameScope

  // ---- statements, as far as the walk looks at them ----

  /** Which node of the syntax tree this is: every node that gives rise to a source has one. */
  type Site = nat

  datatype Expr =
    | Ref(ref: ColumnRef)
    | Star
    | SubqueryExpr(query: Body)
    | Compound(args: seq<Expr>)

  datatype Item = Item(expr: Expr, alias: Name)

  /** `rest` is WHERE, GROUP BY and HAVING in this order; a VALUES block is its rows in order. */
  datatype Body =
    | Clause(from: seq<TableExpr>, items: seq<Item>, rest: seq<Expr>)
    | SetOp(left: Query, right: Query, site: Site)
    | Parenthesized(inner: Query, site: Site)
    | Values(cells: seq<Expr>)
    | OtherBody

  /** `tail` is ORDER BY, then LIMIT and OFFSET. */
  datatype Query = Query(ctes: seq<Cte>, body: Body, tail: seq<Expr>)

  datatype Cte = Cte(name: Name, columns: seq<Name>, stmt: Statement, site: Site)

  datatype TableExpr =
    | Table(name: Name, site: Site)
    | Aliased(inner: TableExpr, alias: Name, columns: seq<Name>, site: Site)
    | Derived(select: Body, site: Site)
    | ParenTable(inner: TableExpr)
    | Join(left: TableExpr, right: TableExpr, cond: JoinCond)
    | OtherTable(site: Site)

  datatype JoinCond = NoCond | On(pred: Expr) | Using(names: seq<Name>)

  datatype Assignment = Assignment(names: seq<Name>, value: Expr)

  /** `filters` is WHERE, then the arbiter predicate; the site is that of `excluded`. */
  datatype Conflict = Conflict(names: seq<Name>, sets: seq<Assignment>, filters: seq<Expr>, site: Site)

  datatype Statement =
    | Select(query: Query)
    | Insert(ctes: seq<Cte>, target: TableExpr, names: seq<Name>, rows: seq<Query>, conflicts: seq<Conflict>,
             returning: seq<Expr>)
    | Update(ctes: seq<Cte>, target: TableExpr, from: seq<TableExpr>, sets: seq<Assignment>, filter: seq<Expr>,
             returning: seq<Expr>)
    | Delete(ctes: seq<Cte>, target: TableExpr, from: seq<TableExpr>, filter: seq<Expr>, returning: seq<Expr>)
    | OtherStatement

  // ---- what is known ----

  /**
   `table` is the catalog.  `view` says what is recorded as the columns of a node, given
   what the program finds; it may withhold them or make them up, node by node.
   */
  datatype Knowledge = Knowledge(
    fold: Folding,
    table: Name -> Option<seq<Name>>,
    view: (Site, Option<seq<Name>>) -> Option<seq<Name>>)

  /** The program records what it finds. */
  function AsFound(fold: Folding, table: Name -> Option<seq<Name>>): Knowledge {
    Knowledge(fold, table, (_, columns) => columns)
  }

  /** The source of a node for which the program finds these columns. */
  function Seen(k: Knowledge, site: Site, alias: Name, columns: Option<seq<Name>>): Source {
    Source(alias, k.view(site, columns))
  }

  function Unknown(k: Knowledge, site: Site, alias: Name): Source {
    Seen(k, site, alias, None)
  }

  function NameOf(item: Item): Option<Name> {
    if item.alias != "" then Some(item.alias)
    else if item.expr.Ref? then Some(item.expr.ref.name)
    else None
  }

  /** The names of a select list, or None as soon as one has no name. */
  function ItemNames(items: seq<Item>): Option<seq<Name>> {
    if items == [] then Some([])
    else match (NameOf(items[0]), ItemNames(items[1..]))
      case (Some(n), Some(rest)) => Some([n] + rest)
      case _ => None
  }

  function InferProjection(b: Body): Option<seq<Name>> {
    match b
    case Clause(_, items, _) => if items == [] then None else ItemNames(items)
    case SetOp(left, _, _) => InferProjection(left.body)
    case Parenthesized(inner, _) => InferProjection(inner.body)
    case _ => None
  }

  /** The item has an alias, which is its name, or is a column reference, named like the column. */
  predicate IsNamed(item: Item, n: Name) {
    if item.alias != "" then n == item.alias else item.expr.Ref? && item.expr.ref.name == n
  }

  /** A select list has names exactly when each item has one. */
  lemma {:induction false} ItemsNamed(items: seq<Item>, names: seq<Name>)
    ensures ItemNames(items) == Some(names) <==>
            |names| == |items| && forall i :: 0 <= i < |items| ==> IsNamed(items[i], names[i])
  {
    if items != [] && names != [] {
      ItemsNamed(items[1..], names[1..]);
      assert names == [names[0]] + names[1..];
      assert forall i :: 0 < i < |items| ==> items[i] == items[1..][i - 1];
      assert forall i :: 0 < i < |names| ==> names[i] == names[1..][i - 1];
    }
  }

  /** The block whose select list names the columns: the leftmost one of a set operation. */
  function Leftmost(b: Body): Body {
    match b
    case SetOp(left, _, _) => Leftmost(left.body)
    case Parenthesized(inner, _) => Leftmost(inner.body)
    case _ => b
  }

  /** What a block projects are the names of its leftmost select list, if there is one and each item has a name. */
  lemma {:induction false} ProjectionExactly(b: Body, names: seq<Name>)
    ensures InferProjection(b) == Some(names) <==>
            && Leftmost(b).Clause? && Leftmost(b).items != [] && |names| == |Leftmost(b).items|
            && forall i :: 0 <= i < |names| ==> IsNamed(Leftmost(b).items[i], names[i])
    decreases b
  {
    match b
    case Clause(_, items, _) => ItemsNamed(items, names);
    case SetOp(left, _, _) => ProjectionExactly(left.body, names);
    case Parenthesized(inner, _) => ProjectionExactly(inner.body, names);
    case _ =>
  }

  function ProjectedColumns(columns: seq<Name>, b: Option<Body>): Option<seq<Name>> {
    if columns != [] then Some(columns)
    else match b
      case None => None
      case Some(body) => InferProjection(body)
  }

  function BodyOf(stmt: Statement): Option<Body> {
    if stmt.Select? then Some(stmt.query.body) else None
  }

  function SourceForName(k: Knowledge, site: Site, alias: Name, name: Name, sc: Scope): Source {
    match LookupCte(sc, k.fold.lower(name))
    case Some(columns) => Seen(k, site, alias, columns)
    case None => Seen(k, site, alias, k.table(name))
  }

  function StripParens(te: TableExpr): (r: TableExpr)
    ensures r == te || r < te
  {
    if te.ParenTable? then StripParens(te.inner) else te
  }

  function TableNameOf(te: TableExpr): Option<Name> {
    match te
    case Table(name, _) => Some(name)
    case Aliased(inner, _, _, _) => TableNameOf(inner)
    case ParenTable(inner) => TableNameOf(inner)
    case _ => None
  }

  function TargetSource(k: Knowledge, te: TableExpr, sc: Scope): Source {
    match te
    case Aliased(inner, alias, _, site) =>
      (match TableNameOf(inner)
       case Some(name) => SourceForName(k, site, if alias == "" then name else alias, name, sc)
       case None => Unknown(k, site, alias))
    case Table(name, site) => SourceForName(k, site, name, name, sc)
    case ParenTable(inner) => TargetSource(k, inner, sc)
    case Derived(_, site) => Unknown(k, site, "")
    case OtherTable(site) => Unknown(k, site, "")
    case Join(_, _, _) => Source("", None)
  }

  // ---- the walk ----

  /** What a step reports and the scope it leaves. */
  datatype Walked = Walked(reports: seq<Report>, scope: Scope)

  function Nested(parent: Scope): Scope {
    Frame(parent, [], map[], {})
  }

  function WithSource(sc: Scope, s: Source): Scope
    requires sc.Frame?
  {
    sc.(sources := sc.sources + [s])
  }

  function Reported(r: Option<Report>): seq<Report> {
    if r.Some? then [r.value] else []
  }

  function ResolveNames(k: Knowledge, qualifier: Name, names: seq<Name>, sc: Scope): seq<Report> {
    if names == [] then []
    else Reported(Resolve(ColumnRef(qualifier, names[0]), sc, k.fold)) + ResolveNames(k, qualifier, names[1..], sc)
  }

  /** A target's column names are only checked when its columns are known. */
  function OnTarget(k: Knowledge, t: Source, names: seq<Name>, sc: Scope): seq<Report> {
    if t.columns.Some? then ResolveNames(k, t.alias, names, sc) else []
  }

  function UsingReport(k: Knowledge, name: Name, sc: Scope): seq<Report> {
    if ColumnExistsInScope(sc, name, k.fold) then []
    else [Report(k.fold.lower("." + name), UnknownColumn, name, AvailableColumns(sc, k.fold))]
  }

  function CheckUsing(k: Knowledge, names: seq<Name>, sc: Scope): seq<Report> {
    if names == [] then [] else UsingReport(k, names[0], sc) + CheckUsing(k, names[1..], sc)
  }

  function AliasSet(k: Knowledge, items: seq<Item>): set<Name> {
    set i | 0 <= i < |items| && items[i].alias != "" :: k.fold.lower(items[i].alias)
  }

  function WalkExpr(k: Knowledge, e: Expr, sc: Scope): seq<Report>
    decreases e
  {
    match e
    case Ref(ref) => Reported(Resolve(ref, sc, k.fold))
    case Star => []
    case SubqueryExpr(query) => WalkBody(k, query, Nested(sc)).reports
    case Compound(args) => WalkExprs(k, args, sc)
  }

  function WalkExprs(k: Knowledge, es: seq<Expr>, sc: Scope): seq<Report>
    decreases es
  {
    if es == [] then [] else WalkExpr(k, es[0], sc) + WalkExprs(k, es[1..], sc)
  }

  function WalkItems(k: Knowledge, items: seq<Item>, sc: Scope): seq<Report>
    decreases items
  {
    if items == [] then [] else WalkExpr(k, items[0].expr, sc) + WalkItems(k, items[1..], sc)
  }

  function WalkBody(k: Knowledge, b: Body, sc: Scope): (r: Walked)
    requires sc.Frame?
    ensures r.scope.Frame?
    decreases b
  {
    match b
    case Clause(from, items, rest) =>
      var tables := AddTables(k, from, sc);
      var inner := tables.scope.(aliases := tables.scope.aliases + AliasSet(k, items));
      Walked(tables.reports + WalkItems(k, items, inner) + WalkExprs(k, rest, inner), inner)
    case SetOp(left, right, site) =>
      Walked(WalkQuery(k, left, sc.parent) + WalkQuery(k, right, sc.parent), WithSource(sc, Unknown(k, site, "")))
    case Parenthesized(inner, site) => Walked(WalkQuery(k, inner, sc.parent), WithSource(sc, Unknown(k, site, "")))
    case Values(cells) => Walked(WalkExprs(k, cells, sc), sc)
    case OtherBody => Walked([], sc)
  }

  function WalkQuery(k: Knowledge, q: Query, parent: Scope): seq<Report>
    decreases q
  {
    var ctes := PushCtes(k, q.ctes, parent);
    var body := WalkBody(k, q.body, Nested(ctes.scope));
    ctes.reports + body.reports + WalkExprs(k, q.tail, body.scope)
  }

  /** The frame of a WITH clause; the CTE bodies are walked without any enclosing scope. */
  function PushCtes(k: Knowledge, ctes: seq<Cte>, parent: Scope): Walked
    decreases ctes, 1
  {
    if ctes == [] then Walked([], parent) else AddCtes(k, ctes, Nested(parent))
  }

  function AddCtes(k: Knowledge, ctes: seq<Cte>, frame: Scope): (r: Walked)
    requires frame.Frame?
    ensures r.scope.Frame?
    decreases ctes, 0
  {
    if ctes == [] then Walked([], frame)
    else
      var cte := ctes[0];
      var columns := k.view(cte.site, ProjectedColumns(cte.columns, BodyOf(cte.stmt)));
      var next := if cte.name == "" then frame else frame.(ctes := frame.ctes[k.fold.lower(cte.name) := columns]);
      var rest := AddCtes(k, ctes[1..], next);
      Walked(WalkStatement(k, cte.stmt) + rest.reports, rest.scope)
  }

  function AddTables(k: Knowledge, tes: seq<TableExpr>, sc: Scope): (r: Walked)
    requires sc.Frame?
    ensures r.scope.Frame?
    decreases tes
  {
    if tes == [] then Walked([], sc)
    else
      var first := AddTable(k, tes[0], sc);
      var rest := AddTables(k, tes[1..], first.scope);
      Walked(first.reports + rest.reports, rest.scope)
  }

  function AddTable(k: Knowledge, te: TableExpr, sc: Scope): (r: Walked)
    requires sc.Frame?
    ensures r.scope.Frame?
    decreases te
  {
    match te
    case Table(name, site) => Walked([], WithSource(sc, SourceForName(k, site, name, name, sc)))
    case Aliased(inner, alias, columns, site) =>
      (match StripParens(inner)
       case Table(name, _) =>
         Walked([], WithSource(sc, SourceForName(k, site, if alias == "" then name else alias, name, sc)))
       case Derived(select, _) =>
         Walked(WalkBody(k, select, Nested(sc.parent)).reports,
                WithSource(sc, Seen(k, site, alias, ProjectedColumns(columns, Some(select)))))
       case _ => Walked([], WithSource(sc, Unknown(k, site, alias))))
    case Derived(select, site) =>
      Walked(WalkBody(k, select, Nested(sc.parent)).reports, WithSource(sc, Unknown(k, site, "")))
    case ParenTable(inner) => AddTable(k, inner, sc)
    case Join(left, right, cond) =>
      var l := AddTable(k, left, sc);
      var r := AddTable(k, right, l.scope);
      Walked(l.reports + r.reports + JoinReports(k, cond, r.scope), r.scope)
    case OtherTable(site) => Walked([], WithSource(sc, Unknown(k, site, "")))
  }

  function JoinReports(k: Knowledge, cond: JoinCond, sc: Scope): seq<Report>
    decreases cond
  {
    match cond
    case NoCond => []
    case On(pred) => WalkExpr(k, pred, sc)
    case Using(names) => CheckUsing(k, names, sc)
  }

  function WalkAssignments(k: Knowledge, sets: seq<Assignment>, sc: Scope): seq<Report>
    decreases sets
  {
    if sets == [] then []
    else ResolveNames(k, "", sets[0].names, sc) + WalkExpr(k, sets[0].value, sc) + WalkAssignments(k, sets[1..], sc)
  }

  /** ON CONFLICT's assignments: names against the target, values with `excluded` in scope. */
  function WalkUpserts(k: Knowledge, sets: seq<Assignment>, target: Source, sc: Scope, inner: Scope): seq<Report>
    decreases sets
  {
    if sets == [] then []
    else
      OnTarget(k, target, sets[0].names, sc) + WalkExpr(k, sets[0].value, inner)
      + WalkUpserts(k, sets[1..], target, sc, inner)
  }

  function WalkConflict(k: Knowledge, c: Conflict, target: Source, sc: Scope): seq<Report>
    decreases c
  {
    var inner := WithSource(Nested(sc), Unknown(k, c.site, "excluded"));
    OnTarget(k, target, c.names, sc) + WalkUpserts(k, c.sets, target, sc, inner) + WalkExprs(k, c.filters, inner)
  }

  function WalkConflicts(k: Knowledge, cs: seq<Conflict>, target: Source, sc: Scope): seq<Report>
    decreases cs
  {
    if cs == [] then [] else WalkConflict(k, cs[0], target, sc) + WalkConflicts(k, cs[1..], target, sc)
  }

  function WalkQueries(k: Knowledge, qs: seq<Query>, parent: Scope): seq<Report>
    decreases qs
  {
    if qs == [] then [] else WalkQuery(k, qs[0], parent) + WalkQueries(k, qs[1..], parent)
  }

  function WalkStatement(k: Knowledge, stmt: Statement): seq<Report>
    decreases stmt
  {
    match stmt
    case Select(query) => WalkQuery(k, query, Outside)
    case Insert(ctes, into, names, rows, conflicts, returning) =>
      var with := PushCtes(k, ctes, Outside);
      var target := TargetSource(k, into, Nested(with.scope));
      var sc := WithSource(Nested(with.scope), target);
      with.reports + OnTarget(k, target, names, sc)
      + WalkQueries(k, rows, with.scope) + WalkConflicts(k, conflicts, target, sc) + WalkExprs(k, returning, sc)
    case Update(ctes, into, from, sets, filter, returning) =>
      var with := PushCtes(k, ctes, Outside);
      var tables := AddTables(k, from, WithSource(Nested(with.scope), TargetSource(k, into, Nested(with.scope))));
      with.reports + tables.reports + WalkAssignments(k, sets, tables.scope) + WalkExprs(k, filter, tables.scope)
      + WalkExprs(k, returning, tables.scope)
    case Delete(ctes, into, from, filter, returning) =>
      var with := PushCtes(k, ctes, Outside);
      var tables := AddTables(k, from, WithSource(Nested(with.scope), TargetSource(k, into, Nested(with.scope))));
      with.reports + tables.reports + WalkExprs(k, filter, tables.scope) + WalkExprs(k, returning, tables.scope)
    case OtherStatement => []
  }
}
