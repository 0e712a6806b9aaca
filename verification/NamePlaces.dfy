/**
 Which names a statement mentions, and what is visible where each of them stands.

 A place is a part of a statement with the scope it is read in.  `IsPart` lists, form by
 form, the parts a place has and the scope of each; a name is mentioned if a chain of
 parts leads to it.  The walk reports exactly what is wrong with the names mentioned.
 */
module NamePlaces {

  import opened Options
  import opened NameScope
  import opened NameWalk

  datatype Place =
    | AtStatement(stmt: Statement)
    | AtQuery(query: Query, parent: Scope)
    | AtBody(body: Body, scope: Scope)
    | AtTable(te: TableExpr, scope: Scope)    // the scope of what is left of it
    | AtExpr(expr: Expr, scope: Scope)
    | AtName(ref: ColumnRef, scope: Scope)
    | AtUsing(name: Name, scope: Scope)       // a column named by USING

  // ---- what is visible ----

  /** The tables of a table expression, from left to right. */
  function Leaves(te: TableExpr): seq<TableExpr> {
    match te
    case ParenTable(inner) => Leaves(inner)
    case Join(left, right, _) => Leaves(left) + Leaves(right)
    case _ => [te]
  }

  function AllLeaves(tes: seq<TableExpr>): seq<TableExpr> {
    if tes == [] then [] else Leaves(tes[0]) + AllLeaves(tes[1..])
  }

  /** What a table makes visible: a named one its CTE's or its catalog columns, a derived one what it projects. */
  function SourceOf(k: Knowledge, leaf: TableExpr, sc: Scope): Source {
    match leaf
    case Table(name, site) => Source(name, k.view(site, ColumnsOf(k, name, sc)))
    case Aliased(inner, alias, columns, site) =>
      (match StripParens(inner)
       case Table(name, _) => Source(if alias == "" then name else alias, k.view(site, ColumnsOf(k, name, sc)))
       case Derived(select, _) => Source(alias, k.view(site, ProjectedColumns(columns, Some(select))))
       case _ => Source(alias, k.view(site, None)))
    case Derived(_, site) => Source("", k.view(site, None))
    case OtherTable(site) => Source("", k.view(site, None))
    case _ => Source("", None)
  }

  function ColumnsOf(k: Knowledge, name: Name, sc: Scope): Option<seq<Name>> {
    match LookupCte(sc, k.fold.lower(name))
    case Some(columns) => columns
    case None => k.table(name)
  }

  function SourcesFor(k: Knowledge, leaves: seq<TableExpr>, sc: Scope): seq<Source> {
    seq(|leaves|, i requires 0 <= i < |leaves| => SourceOf(k, leaves[i], sc))
  }

  /** The scope with the tables added. */
  function Beside(k: Knowledge, leaves: seq<TableExpr>, sc: Scope): Scope
    requires sc.Frame?
  {
    sc.(sources := sc.sources + SourcesFor(k, leaves, sc))
  }

  /** What a block's clauses see: its tables, its select aliases, and what was around it. */
  function BlockScope(k: Knowledge, b: Body, sc: Scope): Scope
    requires sc.Frame?
  {
    match b
    case Clause(from, items, _) =>
      var tables := Beside(k, AllLeaves(from), sc);
      var named := set i | 0 <= i < |items| && items[i].alias != "" :: k.fold.lower(items[i].alias);
      tables.(aliases := tables.aliases + named)
    case SetOp(_, _, site) => sc.(sources := sc.sources + [Source("", k.view(site, None))])
    case Parenthesized(_, site) => sc.(sources := sc.sources + [Source("", k.view(site, None))])
    case _ => sc
  }

  /** The CTEs of a WITH clause; a later one hides an earlier one of the same name. */
  function CtesOf(k: Knowledge, ctes: seq<Cte>): map<Name, Option<seq<Name>>> {
    if ctes == [] then map[]
    else
      var cte := ctes[0];
      var columns := k.view(cte.site, ProjectedColumns(cte.columns, BodyOf(cte.stmt)));
      var named := if cte.name == "" then map[] else map[k.fold.lower(cte.name) := columns];
      named + CtesOf(k, ctes[1..])
  }

  function WithScope(k: Knowledge, ctes: seq<Cte>, parent: Scope): Scope {
    if ctes == [] then parent else Frame(parent, [], CtesOf(k, ctes), {})
  }

  /** The table a data-changing statement changes, if it is one with a name. */
  function TargetOf(k: Knowledge, into: TableExpr, sc: Scope): Source {
    match into
    case Table(name, site) => Source(name, k.view(site, ColumnsOf(k, name, sc)))
    case Aliased(inner, alias, _, site) =>
      (match TableNameOf(inner)
       case Some(name) => Source(if alias == "" then name else alias, k.view(site, ColumnsOf(k, name, sc)))
       case None => Source(alias, k.view(site, None)))
    case ParenTable(inner) => TargetOf(k, inner, sc)
    case Derived(_, site) => Source("", k.view(site, None))
    case OtherTable(site) => Source("", k.view(site, None))
    case Join(_, _, _) => Source("", None)
  }

  /** A frame of its own inside, with these sources. */
  function Inside(parent: Scope, sources: seq<Source>): Scope {
    Frame(parent, sources, map[], {})
  }

  // ---- parts ----

  /** One of the expressions, all read in the same scope. */
  ghost predicate OneOf(c: Place, es: seq<Expr>, sc: Scope) {
    exists i :: 0 <= i < |es| && c == AtExpr(es[i], sc)
  }

  /** One of the column names, qualified or not. */
  ghost predicate NameOneOf(c: Place, qualifier: Name, names: seq<Name>, sc: Scope) {
    exists i :: 0 <= i < |names| && c == AtName(ColumnRef(qualifier, names[i]), sc)
  }

  /** A table of a list sees the tables before it. */
  ghost predicate TableOneOf(k: Knowledge, c: Place, tes: seq<TableExpr>, sc: Scope)
    requires sc.Frame?
  {
    exists i :: 0 <= i < |tes| && c == AtTable(tes[i], Beside(k, AllLeaves(tes[..i]), sc))
  }

  /** CTEs are statements of their own; nothing around them is visible. */
  ghost predicate CteOneOf(c: Place, ctes: seq<Cte>) {
    exists i :: 0 <= i < |ctes| && c == AtStatement(ctes[i].stmt)
  }

  ghost predicate PartOfExpr(c: Place, e: Expr, sc: Scope) {
    match e
    case Ref(ref) => c == AtName(ref, sc)
    case Star => false
    case SubqueryExpr(query) => c == AtBody(query, Inside(sc, []))
    case Compound(args) => OneOf(c, args, sc)
  }

  /** Select list, WHERE, GROUP BY and HAVING see the block's scope; set operations and parentheses see around it. */
  ghost predicate PartOfBody(k: Knowledge, c: Place, b: Body, sc: Scope)
    requires sc.Frame?
  {
    match b
    case Clause(from, items, rest) =>
      || TableOneOf(k, c, from, sc)
      || (exists i :: 0 <= i < |items| && c == AtExpr(items[i].expr, BlockScope(k, b, sc)))
      || OneOf(c, rest, BlockScope(k, b, sc))
    case SetOp(left, right, _) => c == AtQuery(left, sc.parent) || c == AtQuery(right, sc.parent)
    case Parenthesized(inner, _) => c == AtQuery(inner, sc.parent)
    case Values(cells) => OneOf(c, cells, sc)
    case OtherBody => false
  }

  /** ORDER BY, LIMIT and OFFSET see what the block's clauses see. */
  ghost predicate PartOfQuery(k: Knowledge, c: Place, q: Query, parent: Scope) {
    var frame := Inside(WithScope(k, q.ctes, parent), []);
    CteOneOf(c, q.ctes) || c == AtBody(q.body, frame) || OneOf(c, q.tail, BlockScope(k, q.body, frame))
  }

  /** A derived table sees only what is around the block; a join condition sees both sides and what is left of them. */
  ghost predicate PartOfTable(k: Knowledge, c: Place, te: TableExpr, sc: Scope)
    requires sc.Frame?
  {
    match te
    case Aliased(inner, _, _, _) =>
      StripParens(inner).Derived? && c == AtBody(StripParens(inner).select, Inside(sc.parent, []))
    case Derived(select, _) => c == AtBody(select, Inside(sc.parent, []))
    case ParenTable(inner) => c == AtTable(inner, sc)
    case Join(left, right, cond) =>
      || c == AtTable(left, sc)
      || c == AtTable(right, Beside(k, Leaves(left), sc))
      || (cond.On? && c == AtExpr(cond.pred, Beside(k, Leaves(te), sc)))
      || (cond.Using? && exists i :: 0 <= i < |cond.names| && c == AtUsing(cond.names[i], Beside(k, Leaves(te), sc)))
    case _ => false
  }

  /** The conflict's columns are the target's; its values and filters also see `excluded`. */
  ghost predicate PartOfConflict(k: Knowledge, c: Place, conflict: Conflict, target: Source, sc: Scope) {
    var inner := Inside(sc, [Source("excluded", k.view(conflict.site, None))]);
    || (target.columns.Some? && NameOneOf(c, target.alias, conflict.names, sc))
    || (exists i :: 0 <= i < |conflict.sets| && target.columns.Some? &&
          NameOneOf(c, target.alias, conflict.sets[i].names, sc))
    || (exists i :: 0 <= i < |conflict.sets| && c == AtExpr(conflict.sets[i].value, inner))
    || OneOf(c, conflict.filters, inner)
  }

  ghost predicate PartOfStatement(k: Knowledge, c: Place, s: Statement) {
    match s
    case Select(query) => c == AtQuery(query, Outside)
    case Insert(ctes, into, names, rows, conflicts, returning) =>
      var with := WithScope(k, ctes, Outside);
      var target := TargetOf(k, into, Inside(with, []));
      var sc := Inside(with, [target]);
      || CteOneOf(c, ctes)
      || (target.columns.Some? && NameOneOf(c, target.alias, names, sc))
      || (exists i :: 0 <= i < |rows| && c == AtQuery(rows[i], with))
      || (exists i :: 0 <= i < |conflicts| && PartOfConflict(k, c, conflicts[i], target, sc))
      || OneOf(c, returning, sc)
    case Update(ctes, into, from, sets, filter, returning) =>
      var with := WithScope(k, ctes, Outside);
      var start := Inside(with, [TargetOf(k, into, Inside(with, []))]);
      var sc := Beside(k, AllLeaves(from), start);
      || CteOneOf(c, ctes) || TableOneOf(k, c, from, start)
      || (exists i :: 0 <= i < |sets| && NameOneOf(c, "", sets[i].names, sc))
      || (exists i :: 0 <= i < |sets| && c == AtExpr(sets[i].value, sc))
      || OneOf(c, filter, sc) || OneOf(c, returning, sc)
    case Delete(ctes, into, from, filter, returning) =>
      var with := WithScope(k, ctes, Outside);
      var start := Inside(with, [TargetOf(k, into, Inside(with, []))]);
      var sc := Beside(k, AllLeaves(from), start);
      CteOneOf(c, ctes) || TableOneOf(k, c, from, start) || OneOf(c, filter, sc) || OneOf(c, returning, sc)
    case OtherStatement => false
  }

  /** c is a part of p, with the scope it is read in. */
  ghost predicate IsPart(k: Knowledge, c: Place, p: Place) {
    match p
    case AtStatement(s) => PartOfStatement(k, c, s)
    case AtQuery(q, parent) => PartOfQuery(k, c, q, parent)
    case AtBody(b, sc) => sc.Frame? && PartOfBody(k, c, b, sc)
    case AtTable(te, sc) => sc.Frame? && PartOfTable(k, c, te, sc)
    case AtExpr(e, sc) => PartOfExpr(c, e, sc)
    case AtName(_, _) => false
    case AtUsing(_, _) => false
  }

  /** A chain of parts, outermost first. */
  ghost predicate IsPath(k: Knowledge, path: seq<Place>) {
    path != [] && forall i :: 0 <= i < |path| - 1 ==> IsPart(k, path[i + 1], path[i])
  }

  /** A name, in a select list or a condition, after USING, or as a target, somewhere in p. */
  ghost predicate Mentions(k: Knowledge, p: Place, m: Place) {
    && (m.AtName? || m.AtUsing?)
    && exists path :: IsPath(k, path) && path[0] == p && path[|path| - 1] == m
  }

  // ---- what is wrong with a name ----

  function Complaint(k: Knowledge, m: Place): Option<Report> {
    match m
    case AtName(ref, sc) => Resolve(ref, sc, k.fold)
    case AtUsing(name, sc) =>
      if ColumnExistsInScope(sc, name, k.fold) then None
      else Some(Report(k.fold.lower("." + name), UnknownColumn, name, AvailableColumns(sc, k.fold)))
    case _ => None
  }

  /** What the walk reports at a place. */
  function ReportsAt(k: Knowledge, p: Place): seq<Report> {
    match p
    case AtStatement(s) => WalkStatement(k, s)
    case AtQuery(q, parent) => WalkQuery(k, q, parent)
    case AtBody(b, sc) => if sc.Frame? then WalkBody(k, b, sc).reports else []
    case AtTable(te, sc) => if sc.Frame? then AddTable(k, te, sc).reports else []
    case AtExpr(e, sc) => WalkExpr(k, e, sc)
    case AtName(_, _) => Reported(Complaint(k, p))
    case AtUsing(_, _) => Reported(Complaint(k, p))
  }
}
