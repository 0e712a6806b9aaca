/** The walk reports exactly what is wrong with the names a statement mentions. */
module NameMentions {

  import opened Options
  import opened NameScope
  import opened NameWalk
  import opened NamePlaces

  // ---- the walk's scopes are these ----

  lemma SameCtes(k: Knowledge, leaf: TableExpr, leaves: seq<TableExpr>, sc: Scope)
    requires sc.Frame?
    ensures SourceOf(k, leaf, Beside(k, leaves, sc)) == SourceOf(k, leaf, sc)
  {
  }

  lemma BesideThen(k: Knowledge, a: seq<TableExpr>, b: seq<TableExpr>, sc: Scope)
    requires sc.Frame?
    ensures Beside(k, b, Beside(k, a, sc)) == Beside(k, a + b, sc)
  {
    forall i | 0 <= i < |b| ensures SourceOf(k, b[i], Beside(k, a, sc)) == SourceOf(k, (a + b)[|a| + i], sc) {
      SameCtes(k, b[i], a, sc);
    }
    assert SourcesFor(k, a + b, sc) == SourcesFor(k, a, sc) + SourcesFor(k, b, Beside(k, a, sc));
  }

  lemma BesideOne(k: Knowledge, leaf: TableExpr, sc: Scope)
    requires sc.Frame?
    ensures Beside(k, [leaf], sc) == WithSource(sc, SourceOf(k, leaf, sc))
  {
    assert SourcesFor(k, [leaf], sc) == [SourceOf(k, leaf, sc)];
  }

  lemma BesideNone(k: Knowledge, sc: Scope)
    requires sc.Frame?
    ensures Beside(k, [], sc) == sc
  {
    assert sc.sources + SourcesFor(k, [], sc) == sc.sources;
  }

  lemma {:induction false} TableScope(k: Knowledge, te: TableExpr, sc: Scope)
    requires sc.Frame?
    ensures AddTable(k, te, sc).scope == Beside(k, Leaves(te), sc)
  {
    match te
    case ParenTable(inner) => TableScope(k, inner, sc);
    case Join(left, right, _) =>
      TableScope(k, left, sc);
      TableScope(k, right, Beside(k, Leaves(left), sc));
      BesideThen(k, Leaves(left), Leaves(right), sc);
    case _ => BesideOne(k, te, sc);
  }

  lemma {:induction false} TablesScope(k: Knowledge, tes: seq<TableExpr>, sc: Scope)
    requires sc.Frame?
    ensures AddTables(k, tes, sc).scope == Beside(k, AllLeaves(tes), sc)
  {
    if tes == [] {
      BesideNone(k, sc);
    } else {
      TableScope(k, tes[0], sc);
      TablesScope(k, tes[1..], Beside(k, Leaves(tes[0]), sc));
      BesideThen(k, Leaves(tes[0]), AllLeaves(tes[1..]), sc);
    }
  }

  lemma BodyScope(k: Knowledge, b: Body, sc: Scope)
    requires sc.Frame?
    ensures WalkBody(k, b, sc).scope == BlockScope(k, b, sc)
  {
    if b.Clause? { TablesScope(k, b.from, sc); }
  }

  lemma MapsThen<K, V>(a: map<K, V>, b: map<K, V>, c: map<K, V>)
    ensures (a + b) + c == a + (b + c)
  {
  }

  lemma PutThen<K, V>(a: map<K, V>, key: K, value: V)
    ensures a[key := value] == a + map[key := value]
    ensures a + map[] == a
  {
  }

  lemma {:induction false} CtesScope(k: Knowledge, ctes: seq<Cte>, frame: Scope)
    requires frame.Frame?
    ensures AddCtes(k, ctes, frame).scope == frame.(ctes := frame.ctes + CtesOf(k, ctes))
    decreases |ctes|
  {
    if ctes == [] {
      PutThen(frame.ctes, "", None);
    } else {
      var cte := ctes[0];
      var columns := k.view(cte.site, ProjectedColumns(cte.columns, BodyOf(cte.stmt)));
      var next := if cte.name == "" then frame else frame.(ctes := frame.ctes[k.fold.lower(cte.name) := columns]);
      var named := if cte.name == "" then map[] else map[k.fold.lower(cte.name) := columns];
      PutThen(frame.ctes, k.fold.lower(cte.name), columns);
      CtesScope(k, ctes[1..], next);
      MapsThen(frame.ctes, named, CtesOf(k, ctes[1..]));
    }
  }

  lemma PushScope(k: Knowledge, ctes: seq<Cte>, parent: Scope)
    ensures PushCtes(k, ctes, parent).scope == WithScope(k, ctes, parent)
  {
    if ctes != [] {
      CtesScope(k, ctes, Nested(parent));
      NoneBefore(CtesOf(k, ctes));
    }
  }

  lemma NoneBefore<K, V>(a: map<K, V>)
    ensures map[] + a == a
  {
  }

  lemma {:induction false} TargetScope(k: Knowledge, into: TableExpr, sc: Scope)
    ensures TargetSource(k, into, sc) == TargetOf(k, into, sc)
  {
    if into.ParenTable? { TargetScope(k, into.inner, sc); }
  }

  // ---- the walk's reports are those of the parts ----

  lemma {:induction false} ExprsReport(k: Knowledge, es: seq<Expr>, sc: Scope, r: Report)
    ensures r in WalkExprs(k, es, sc) <==> exists i :: 0 <= i < |es| && r in WalkExpr(k, es[i], sc)
    decreases |es|
  {
    if es != [] {
      ExprsReport(k, es[1..], sc, r);
      assert forall i :: 0 < i < |es| ==> es[i] == es[1..][i - 1];
      if i :| 0 <= i < |es| - 1 && r in WalkExpr(k, es[1..][i], sc) { assert r in WalkExpr(k, es[i + 1], sc); }
    }
  }

  lemma {:induction false} ItemsReport(k: Knowledge, items: seq<Item>, sc: Scope, r: Report)
    ensures r in WalkItems(k, items, sc) <==> exists i :: 0 <= i < |items| && r in WalkExpr(k, items[i].expr, sc)
    decreases |items|
  {
    if items != [] {
      ItemsReport(k, items[1..], sc, r);
      assert forall i :: 0 < i < |items| ==> items[i] == items[1..][i - 1];
      if i :| 0 <= i < |items| - 1 && r in WalkExpr(k, items[1..][i].expr, sc) {
        assert r in WalkExpr(k, items[i + 1].expr, sc);
      }
    }
  }

  lemma {:induction false} NamesReport(k: Knowledge, qualifier: Name, names: seq<Name>, sc: Scope, r: Report)
    ensures r in ResolveNames(k, qualifier, names, sc) <==>
            exists i :: 0 <= i < |names| && Resolve(ColumnRef(qualifier, names[i]), sc, k.fold) == Some(r)
    decreases |names|
  {
    if names != [] {
      NamesReport(k, qualifier, names[1..], sc, r);
      assert forall i :: 0 < i < |names| ==> names[i] == names[1..][i - 1];
      if i :| 0 <= i < |names| - 1 && Resolve(ColumnRef(qualifier, names[1..][i]), sc, k.fold) == Some(r) {
        assert Resolve(ColumnRef(qualifier, names[i + 1]), sc, k.fold) == Some(r);
      }
    }
  }

  lemma {:induction false} UsingsReport(k: Knowledge, names: seq<Name>, sc: Scope, r: Report)
    ensures r in CheckUsing(k, names, sc) <==>
            exists i :: 0 <= i < |names| && Complaint(k, AtUsing(names[i], sc)) == Some(r)
    decreases |names|
  {
    if names != [] {
      UsingsReport(k, names[1..], sc, r);
      assert forall i :: 0 < i < |names| ==> names[i] == names[1..][i - 1];
      if i :| 0 <= i < |names| - 1 && Complaint(k, AtUsing(names[1..][i], sc)) == Some(r) {
        assert Complaint(k, AtUsing(names[i + 1], sc)) == Some(r);
      }
    }
  }

  lemma {:induction false} QueriesReport(k: Knowledge, qs: seq<Query>, parent: Scope, r: Report)
    ensures r in WalkQueries(k, qs, parent) <==> exists i :: 0 <= i < |qs| && r in WalkQuery(k, qs[i], parent)
    decreases |qs|
  {
    if qs != [] {
      QueriesReport(k, qs[1..], parent, r);
      assert forall i :: 0 < i < |qs| ==> qs[i] == qs[1..][i - 1];
      if i :| 0 <= i < |qs| - 1 && r in WalkQuery(k, qs[1..][i], parent) {
        assert r in WalkQuery(k, qs[i + 1], parent);
      }
    }
  }

  lemma {:induction false} CtesReport(k: Knowledge, ctes: seq<Cte>, frame: Scope, r: Report)
    requires frame.Frame?
    ensures r in AddCtes(k, ctes, frame).reports <==>
            exists i :: 0 <= i < |ctes| && r in WalkStatement(k, ctes[i].stmt)
    decreases |ctes|
  {
    if ctes != [] {
      var columns := k.view(ctes[0].site, ProjectedColumns(ctes[0].columns, BodyOf(ctes[0].stmt)));
      var next := if ctes[0].name == "" then frame
                  else frame.(ctes := frame.ctes[k.fold.lower(ctes[0].name) := columns]);
      CtesReport(k, ctes[1..], next, r);
      assert forall i :: 0 < i < |ctes| ==> ctes[i] == ctes[1..][i - 1];
      if i :| 0 <= i < |ctes| - 1 && r in WalkStatement(k, ctes[1..][i].stmt) {
        assert r in WalkStatement(k, ctes[i + 1].stmt);
      }
    }
  }

  lemma {:induction false} TablesReport(k: Knowledge, tes: seq<TableExpr>, sc: Scope, r: Report)
    requires sc.Frame?
    ensures r in AddTables(k, tes, sc).reports <==>
            exists i :: 0 <= i < |tes| && r in AddTable(k, tes[i], Beside(k, AllLeaves(tes[..i]), sc)).reports
    decreases |tes|
  {
    if tes != [] {
      var next, rest := Beside(k, Leaves(tes[0]), sc), tes[1..];
      TableScope(k, tes[0], sc);
      TablesReport(k, rest, next, r);
      BesideNone(k, sc);
      forall i | 0 < i < |tes|
        ensures tes[i] == rest[i - 1]
        ensures Beside(k, AllLeaves(tes[..i]), sc) == Beside(k, AllLeaves(rest[..i - 1]), next)
      {
        assert tes[..i][0] == tes[0] && tes[..i][1..] == rest[..i - 1];
        BesideThen(k, Leaves(tes[0]), AllLeaves(rest[..i - 1]), sc);
      }
      assert tes[..0] == [];
      if i :| 0 <= i < |rest| && r in AddTable(k, rest[i], Beside(k, AllLeaves(rest[..i]), next)).reports {
        assert r in AddTable(k, tes[i + 1], Beside(k, AllLeaves(tes[..i + 1]), sc)).reports;
      }
    }
  }

  lemma {:induction false} AssignmentsReport(k: Knowledge, sets: seq<Assignment>, sc: Scope, r: Report)
    ensures r in WalkAssignments(k, sets, sc) <==>
            exists i :: 0 <= i < |sets| &&
              (r in ResolveNames(k, "", sets[i].names, sc) || r in WalkExpr(k, sets[i].value, sc))
    decreases |sets|
  {
    if sets != [] {
      AssignmentsReport(k, sets[1..], sc, r);
      assert forall i :: 0 < i < |sets| ==> sets[i] == sets[1..][i - 1];
      if i :| 0 <= i < |sets| - 1 &&
              (r in ResolveNames(k, "", sets[1..][i].names, sc) || r in WalkExpr(k, sets[1..][i].value, sc)) {
        assert r in ResolveNames(k, "", sets[i + 1].names, sc) || r in WalkExpr(k, sets[i + 1].value, sc);
      }
    }
  }

  lemma {:induction false} UpsertsReport(k: Knowledge, sets: seq<Assignment>, t: Source, sc: Scope, inner: Scope,
                                         r: Report)
    ensures r in WalkUpserts(k, sets, t, sc, inner) <==>
            exists i :: 0 <= i < |sets| &&
              (r in OnTarget(k, t, sets[i].names, sc) || r in WalkExpr(k, sets[i].value, inner))
    decreases |sets|
  {
    if sets != [] {
      UpsertsReport(k, sets[1..], t, sc, inner, r);
      assert forall i :: 0 < i < |sets| ==> sets[i] == sets[1..][i - 1];
      if i :| 0 <= i < |sets| - 1 &&
              (r in OnTarget(k, t, sets[1..][i].names, sc) || r in WalkExpr(k, sets[1..][i].value, inner)) {
        assert r in OnTarget(k, t, sets[i + 1].names, sc) || r in WalkExpr(k, sets[i + 1].value, inner);
      }
    }
  }

  lemma {:induction false} ConflictsReport(k: Knowledge, cs: seq<Conflict>, t: Source, sc: Scope, r: Report)
    ensures r in WalkConflicts(k, cs, t, sc) <==> exists i :: 0 <= i < |cs| && r in WalkConflict(k, cs[i], t, sc)
    decreases |cs|
  {
    if cs != [] {
      ConflictsReport(k, cs[1..], t, sc, r);
      assert forall i :: 0 < i < |cs| ==> cs[i] == cs[1..][i - 1];
      if i :| 0 <= i < |cs| - 1 && r in WalkConflict(k, cs[1..][i], t, sc) {
        assert r in WalkConflict(k, cs[i + 1], t, sc);
      }
    }
  }

  // ---- from a part to the whole ----

  lemma GroupUp(k: Knowledge, c: Place, es: seq<Expr>, sc: Scope, r: Report)
    requires OneOf(c, es, sc) && r in ReportsAt(k, c)
    ensures r in WalkExprs(k, es, sc)
  {
    ExprsReport(k, es, sc, r);
  }

  lemma NamesUp(k: Knowledge, c: Place, qualifier: Name, names: seq<Name>, sc: Scope, r: Report)
    requires NameOneOf(c, qualifier, names, sc) && r in ReportsAt(k, c)
    ensures r in ResolveNames(k, qualifier, names, sc)
  {
    NamesReport(k, qualifier, names, sc, r);
  }

  lemma TablesUp(k: Knowledge, c: Place, tes: seq<TableExpr>, sc: Scope, r: Report)
    requires sc.Frame? && TableOneOf(k, c, tes, sc) && r in ReportsAt(k, c)
    ensures r in AddTables(k, tes, sc).reports
  {
    TablesReport(k, tes, sc, r);
  }

  lemma CtesUp(k: Knowledge, c: Place, ctes: seq<Cte>, parent: Scope, r: Report)
    requires CteOneOf(c, ctes) && r in ReportsAt(k, c)
    ensures r in PushCtes(k, ctes, parent).reports
  {
    CtesReport(k, ctes, Nested(parent), r);
  }

  lemma ExprUp(k: Knowledge, c: Place, e: Expr, sc: Scope, r: Report)
    requires PartOfExpr(c, e, sc) && r in ReportsAt(k, c)
    ensures r in WalkExpr(k, e, sc)
  {
    if e.Compound? { GroupUp(k, c, e.args, sc, r); }
  }

  lemma BodyUp(k: Knowledge, c: Place, b: Body, sc: Scope, r: Report)
    requires sc.Frame? && PartOfBody(k, c, b, sc) && r in ReportsAt(k, c)
    ensures r in WalkBody(k, b, sc).reports
  {
    if b.Clause? {
      var inner := BlockScope(k, b, sc);
      BodyScope(k, b, sc);
      if TableOneOf(k, c, b.from, sc) {
        TablesUp(k, c, b.from, sc, r);
      } else if OneOf(c, b.rest, inner) {
        GroupUp(k, c, b.rest, inner, r);
      } else {
        ItemsReport(k, b.items, inner, r);
      }
    } else if b.Values? {
      GroupUp(k, c, b.cells, sc, r);
    }
  }

  lemma QueryUp(k: Knowledge, c: Place, q: Query, parent: Scope, r: Report)
    requires PartOfQuery(k, c, q, parent) && r in ReportsAt(k, c)
    ensures r in WalkQuery(k, q, parent)
  {
    PushScope(k, q.ctes, parent);
    var frame := Nested(WithScope(k, q.ctes, parent));
    BodyScope(k, q.body, frame);
    if CteOneOf(c, q.ctes) {
      CtesUp(k, c, q.ctes, parent, r);
    } else if OneOf(c, q.tail, BlockScope(k, q.body, frame)) {
      GroupUp(k, c, q.tail, BlockScope(k, q.body, frame), r);
    }
  }

  lemma TableUp(k: Knowledge, c: Place, te: TableExpr, sc: Scope, r: Report)
    requires sc.Frame? && PartOfTable(k, c, te, sc) && r in ReportsAt(k, c)
    ensures r in AddTable(k, te, sc).reports
  {
    if te.Join? {
      TableScope(k, te.left, sc);
      TableScope(k, te.right, Beside(k, Leaves(te.left), sc));
      BesideThen(k, Leaves(te.left), Leaves(te.right), sc);
      if te.cond.Using? { UsingsReport(k, te.cond.names, Beside(k, Leaves(te), sc), r); }
    }
  }

  lemma ConflictUp(k: Knowledge, c: Place, conflict: Conflict, t: Source, sc: Scope, r: Report)
    requires PartOfConflict(k, c, conflict, t, sc) && r in ReportsAt(k, c)
    ensures r in WalkConflict(k, conflict, t, sc)
  {
    var inner := Inside(sc, [Source("excluded", k.view(conflict.site, None))]);
    assert inner == WithSource(Nested(sc), Unknown(k, conflict.site, "excluded"));
    if t.columns.Some? && NameOneOf(c, t.alias, conflict.names, sc) {
      NamesUp(k, c, t.alias, conflict.names, sc, r);
    } else if OneOf(c, conflict.filters, inner) {
      GroupUp(k, c, conflict.filters, inner, r);
    } else {
      UpsertUp(k, c, conflict.sets, t, sc, inner, r);
    }
  }

  lemma UpsertUp(k: Knowledge, c: Place, sets: seq<Assignment>, t: Source, sc: Scope, inner: Scope, r: Report)
    requires r in ReportsAt(k, c)
    requires || (exists i :: 0 <= i < |sets| && t.columns.Some? && NameOneOf(c, t.alias, sets[i].names, sc))
             || (exists i :: 0 <= i < |sets| && c == AtExpr(sets[i].value, inner))
    ensures r in WalkUpserts(k, sets, t, sc, inner)
  {
    UpsertsReport(k, sets, t, sc, inner, r);
    if i :| 0 <= i < |sets| && t.columns.Some? && NameOneOf(c, t.alias, sets[i].names, sc) {
      NamesUp(k, c, t.alias, sets[i].names, sc, r);
      assert r in OnTarget(k, t, sets[i].names, sc);
    }
  }

  lemma AssignmentUp(k: Knowledge, c: Place, sets: seq<Assignment>, sc: Scope, r: Report)
    requires r in ReportsAt(k, c)
    requires || (exists i :: 0 <= i < |sets| && NameOneOf(c, "", sets[i].names, sc))
             || (exists i :: 0 <= i < |sets| && c == AtExpr(sets[i].value, sc))
    ensures r in WalkAssignments(k, sets, sc)
  {
    AssignmentsReport(k, sets, sc, r);
    if i :| 0 <= i < |sets| && NameOneOf(c, "", sets[i].names, sc) {
      NamesUp(k, c, "", sets[i].names, sc, r);
      assert r in ResolveNames(k, "", sets[i].names, sc);
    }
  }

  /** The scope of a data-changing statement before its FROM or USING. */
  lemma StartScope(k: Knowledge, ctes: seq<Cte>, into: TableExpr)
    ensures var with := PushCtes(k, ctes, Outside).scope;
            && with == WithScope(k, ctes, Outside)
            && TargetSource(k, into, Nested(with)) == TargetOf(k, into, Inside(with, []))
            && WithSource(Nested(with), TargetSource(k, into, Nested(with)))
               == Inside(with, [TargetOf(k, into, Inside(with, []))])
  {
    PushScope(k, ctes, Outside);
    TargetScope(k, into, Nested(WithScope(k, ctes, Outside)));
  }

  lemma InsertUp(k: Knowledge, c: Place, s: Statement, r: Report)
    requires s.Insert? && PartOfStatement(k, c, s) && r in ReportsAt(k, c)
    ensures r in WalkStatement(k, s)
  {
    StartScope(k, s.ctes, s.target);
    var with := WithScope(k, s.ctes, Outside);
    var t := TargetOf(k, s.target, Inside(with, []));
    var sc := Inside(with, [t]);
    if CteOneOf(c, s.ctes) {
      CtesUp(k, c, s.ctes, Outside, r);
    } else if t.columns.Some? && NameOneOf(c, t.alias, s.names, sc) {
      NamesUp(k, c, t.alias, s.names, sc, r);
    } else if OneOf(c, s.returning, sc) {
      GroupUp(k, c, s.returning, sc, r);
    } else if i :| 0 <= i < |s.rows| && c == AtQuery(s.rows[i], with) {
      QueriesReport(k, s.rows, with, r);
    } else {
      var i :| 0 <= i < |s.conflicts| && PartOfConflict(k, c, s.conflicts[i], t, sc);
      ConflictUp(k, c, s.conflicts[i], t, sc, r);
      ConflictsReport(k, s.conflicts, t, sc, r);
    }
  }

  lemma UpdateUp(k: Knowledge, c: Place, s: Statement, r: Report)
    requires s.Update? && PartOfStatement(k, c, s) && r in ReportsAt(k, c)
    ensures r in WalkStatement(k, s)
  {
    StartScope(k, s.ctes, s.target);
    var with := WithScope(k, s.ctes, Outside);
    var start := Inside(with, [TargetOf(k, s.target, Inside(with, []))]);
    var sc := Beside(k, AllLeaves(s.from), start);
    TablesScope(k, s.from, start);
    if CteOneOf(c, s.ctes) {
      CtesUp(k, c, s.ctes, Outside, r);
    } else if TableOneOf(k, c, s.from, start) {
      TablesUp(k, c, s.from, start, r);
    } else if OneOf(c, s.filter, sc) {
      GroupUp(k, c, s.filter, sc, r);
    } else if OneOf(c, s.returning, sc) {
      GroupUp(k, c, s.returning, sc, r);
    } else {
      AssignmentUp(k, c, s.sets, sc, r);
    }
  }

  lemma DeleteUp(k: Knowledge, c: Place, s: Statement, r: Report)
    requires s.Delete? && PartOfStatement(k, c, s) && r in ReportsAt(k, c)
    ensures r in WalkStatement(k, s)
  {
    StartScope(k, s.ctes, s.target);
    var with := WithScope(k, s.ctes, Outside);
    var start := Inside(with, [TargetOf(k, s.target, Inside(with, []))]);
    var sc := Beside(k, AllLeaves(s.from), start);
    TablesScope(k, s.from, start);
    if CteOneOf(c, s.ctes) {
      CtesUp(k, c, s.ctes, Outside, r);
    } else if TableOneOf(k, c, s.from, start) {
      TablesUp(k, c, s.from, start, r);
    } else if OneOf(c, s.filter, sc) {
      GroupUp(k, c, s.filter, sc, r);
    } else {
      GroupUp(k, c, s.returning, sc, r);
    }
  }

  /** What is reported at a part is reported at the whole. */
  lemma PartUp(k: Knowledge, c: Place, p: Place, r: Report)
    requires IsPart(k, c, p) && r in ReportsAt(k, c)
    ensures r in ReportsAt(k, p)
  {
    match p
    case AtStatement(s) =>
      if s.Insert? { InsertUp(k, c, s, r); }
      if s.Update? { UpdateUp(k, c, s, r); }
      if s.Delete? { DeleteUp(k, c, s, r); }
    case AtQuery(q, parent) => QueryUp(k, c, q, parent, r);
    case AtBody(b, sc) => BodyUp(k, c, b, sc, r);
    case AtTable(te, sc) => TableUp(k, c, te, sc, r);
    case AtExpr(e, sc) => ExprUp(k, c, e, sc, r);
  }

  // ---- from the whole to a part ----

  lemma GroupDown(k: Knowledge, es: seq<Expr>, sc: Scope, r: Report) returns (c: Place)
    requires r in WalkExprs(k, es, sc)
    ensures OneOf(c, es, sc) && r in ReportsAt(k, c)
  {
    ExprsReport(k, es, sc, r);
    var i :| 0 <= i < |es| && r in WalkExpr(k, es[i], sc);
    c := AtExpr(es[i], sc);
  }

  lemma NamesDown(k: Knowledge, qualifier: Name, names: seq<Name>, sc: Scope, r: Report) returns (c: Place)
    requires r in ResolveNames(k, qualifier, names, sc)
    ensures NameOneOf(c, qualifier, names, sc) && r in ReportsAt(k, c)
  {
    NamesReport(k, qualifier, names, sc, r);
    var i :| 0 <= i < |names| && Resolve(ColumnRef(qualifier, names[i]), sc, k.fold) == Some(r);
    c := AtName(ColumnRef(qualifier, names[i]), sc);
  }

  lemma TablesDown(k: Knowledge, tes: seq<TableExpr>, sc: Scope, r: Report) returns (c: Place)
    requires sc.Frame? && r in AddTables(k, tes, sc).reports
    ensures TableOneOf(k, c, tes, sc) && r in ReportsAt(k, c)
  {
    TablesReport(k, tes, sc, r);
    var i :| 0 <= i < |tes| && r in AddTable(k, tes[i], Beside(k, AllLeaves(tes[..i]), sc)).reports;
    c := AtTable(tes[i], Beside(k, AllLeaves(tes[..i]), sc));
  }

  lemma CtesDown(k: Knowledge, ctes: seq<Cte>, parent: Scope, r: Report) returns (c: Place)
    requires r in PushCtes(k, ctes, parent).reports
    ensures CteOneOf(c, ctes) && r in ReportsAt(k, c)
  {
    CtesReport(k, ctes, Nested(parent), r);
    var i :| 0 <= i < |ctes| && r in WalkStatement(k, ctes[i].stmt);
    c := AtStatement(ctes[i].stmt);
  }

  lemma ExprDown(k: Knowledge, e: Expr, sc: Scope, r: Report) returns (c: Place)
    requires r in WalkExpr(k, e, sc)
    ensures PartOfExpr(c, e, sc) && r in ReportsAt(k, c)
  {
    match e
    case Ref(ref) => c := AtName(ref, sc);
    case SubqueryExpr(query) => c := AtBody(query, Inside(sc, []));
    case Compound(args) => c := GroupDown(k, args, sc, r);
  }

  lemma BodyDown(k: Knowledge, b: Body, sc: Scope, r: Report) returns (c: Place)
    requires sc.Frame? && r in WalkBody(k, b, sc).reports
    ensures PartOfBody(k, c, b, sc) && r in ReportsAt(k, c)
  {
    match b
    case Clause(from, items, rest) =>
      var inner := BlockScope(k, b, sc);
      BodyScope(k, b, sc);
      if r in AddTables(k, from, sc).reports {
        c := TablesDown(k, from, sc, r);
      } else if r in WalkExprs(k, rest, inner) {
        c := GroupDown(k, rest, inner, r);
      } else {
        ItemsReport(k, items, inner, r);
        var i :| 0 <= i < |items| && r in WalkExpr(k, items[i].expr, inner);
        c := AtExpr(items[i].expr, inner);
      }
    case SetOp(left, right, _) =>
      c := AtQuery(if r in WalkQuery(k, left, sc.parent) then left else right, sc.parent);
    case Parenthesized(inner, _) => c := AtQuery(inner, sc.parent);
    case Values(cells) => c := GroupDown(k, cells, sc, r);
  }

  lemma QueryDown(k: Knowledge, q: Query, parent: Scope, r: Report) returns (c: Place)
    requires r in WalkQuery(k, q, parent)
    ensures PartOfQuery(k, c, q, parent) && r in ReportsAt(k, c)
  {
    PushScope(k, q.ctes, parent);
    var frame := Nested(WithScope(k, q.ctes, parent));
    BodyScope(k, q.body, frame);
    if r in PushCtes(k, q.ctes, parent).reports {
      c := CtesDown(k, q.ctes, parent, r);
    } else if r in WalkBody(k, q.body, frame).reports {
      c := AtBody(q.body, frame);
    } else {
      c := GroupDown(k, q.tail, BlockScope(k, q.body, frame), r);
    }
  }

  lemma TableDown(k: Knowledge, te: TableExpr, sc: Scope, r: Report) returns (c: Place)
    requires sc.Frame? && r in AddTable(k, te, sc).reports
    ensures PartOfTable(k, c, te, sc) && r in ReportsAt(k, c)
  {
    match te
    case Aliased(inner, _, _, _) => c := AtBody(StripParens(inner).select, Inside(sc.parent, []));
    case Derived(select, _) => c := AtBody(select, Inside(sc.parent, []));
    case ParenTable(inner) => c := AtTable(inner, sc);
    case Join(left, right, cond) =>
      TableScope(k, left, sc);
      TableScope(k, right, Beside(k, Leaves(left), sc));
      BesideThen(k, Leaves(left), Leaves(right), sc);
      if r in AddTable(k, left, sc).reports {
        c := AtTable(left, sc);
      } else if r in AddTable(k, right, Beside(k, Leaves(left), sc)).reports {
        c := AtTable(right, Beside(k, Leaves(left), sc));
      } else {
        c := ConditionDown(k, te, sc, r);
      }
  }

  lemma ConditionDown(k: Knowledge, te: TableExpr, sc: Scope, r: Report) returns (c: Place)
    requires sc.Frame? && te.Join? && r in JoinReports(k, te.cond, Beside(k, Leaves(te), sc))
    ensures PartOfTable(k, c, te, sc) && r in ReportsAt(k, c)
  {
    var both := Beside(k, Leaves(te), sc);
    match te.cond
    case On(pred) => c := AtExpr(pred, both);
    case Using(names) =>
      UsingsReport(k, names, both, r);
      var i :| 0 <= i < |names| && Complaint(k, AtUsing(names[i], both)) == Some(r);
      c := AtUsing(names[i], both);
  }

  lemma ConflictDown(k: Knowledge, conflict: Conflict, t: Source, sc: Scope, r: Report) returns (c: Place)
    requires r in WalkConflict(k, conflict, t, sc)
    ensures PartOfConflict(k, c, conflict, t, sc) && r in ReportsAt(k, c)
  {
    var inner := Inside(sc, [Source("excluded", k.view(conflict.site, None))]);
    assert inner == WithSource(Nested(sc), Unknown(k, conflict.site, "excluded"));
    if r in OnTarget(k, t, conflict.names, sc) {
      c := NamesDown(k, t.alias, conflict.names, sc, r);
    } else if r in WalkExprs(k, conflict.filters, inner) {
      c := GroupDown(k, conflict.filters, inner, r);
    } else {
      UpsertsReport(k, conflict.sets, t, sc, inner, r);
      var i :| 0 <= i < |conflict.sets| &&
        (r in OnTarget(k, t, conflict.sets[i].names, sc) || r in WalkExpr(k, conflict.sets[i].value, inner));
      if r in WalkExpr(k, conflict.sets[i].value, inner) {
        c := AtExpr(conflict.sets[i].value, inner);
      } else {
        c := NamesDown(k, t.alias, conflict.sets[i].names, sc, r);
      }
    }
  }

  lemma InsertDown(k: Knowledge, s: Statement, r: Report) returns (c: Place)
    requires s.Insert? && r in WalkStatement(k, s)
    ensures PartOfStatement(k, c, s) && r in ReportsAt(k, c)
  {
    StartScope(k, s.ctes, s.target);
    var with := WithScope(k, s.ctes, Outside);
    var t := TargetOf(k, s.target, Inside(with, []));
    var sc := Inside(with, [t]);
    if r in PushCtes(k, s.ctes, Outside).reports {
      c := CtesDown(k, s.ctes, Outside, r);
    } else if r in OnTarget(k, t, s.names, sc) {
      c := NamesDown(k, t.alias, s.names, sc, r);
    } else if r in WalkQueries(k, s.rows, with) {
      QueriesReport(k, s.rows, with, r);
      var i :| 0 <= i < |s.rows| && r in WalkQuery(k, s.rows[i], with);
      c := AtQuery(s.rows[i], with);
    } else if r in WalkConflicts(k, s.conflicts, t, sc) {
      ConflictsReport(k, s.conflicts, t, sc, r);
      var i :| 0 <= i < |s.conflicts| && r in WalkConflict(k, s.conflicts[i], t, sc);
      c := ConflictDown(k, s.conflicts[i], t, sc, r);
    } else {
      c := GroupDown(k, s.returning, sc, r);
    }
  }

  lemma AssignmentDown(k: Knowledge, sets: seq<Assignment>, sc: Scope, r: Report) returns (c: Place)
    requires r in WalkAssignments(k, sets, sc)
    ensures r in ReportsAt(k, c)
    ensures || (exists i :: 0 <= i < |sets| && NameOneOf(c, "", sets[i].names, sc))
            || (exists i :: 0 <= i < |sets| && c == AtExpr(sets[i].value, sc))
  {
    AssignmentsReport(k, sets, sc, r);
    var i :| 0 <= i < |sets| && (r in ResolveNames(k, "", sets[i].names, sc) || r in WalkExpr(k, sets[i].value, sc));
    if r in WalkExpr(k, sets[i].value, sc) {
      c := AtExpr(sets[i].value, sc);
    } else {
      c := NamesDown(k, "", sets[i].names, sc, r);
    }
  }

  lemma ChangeDown(k: Knowledge, s: Statement, r: Report) returns (c: Place)
    requires (s.Update? || s.Delete?) && r in WalkStatement(k, s)
    ensures PartOfStatement(k, c, s) && r in ReportsAt(k, c)
  {
    StartScope(k, s.ctes, s.target);
    var with := WithScope(k, s.ctes, Outside);
    var start := Inside(with, [TargetOf(k, s.target, Inside(with, []))]);
    var sc := Beside(k, AllLeaves(s.from), start);
    TablesScope(k, s.from, start);
    if r in PushCtes(k, s.ctes, Outside).reports {
      c := CtesDown(k, s.ctes, Outside, r);
    } else if r in AddTables(k, s.from, start).reports {
      c := TablesDown(k, s.from, start, r);
    } else if r in WalkExprs(k, s.filter, sc) {
      c := GroupDown(k, s.filter, sc, r);
    } else if r in WalkExprs(k, s.returning, sc) {
      c := GroupDown(k, s.returning, sc, r);
    } else {
      c := AssignmentDown(k, s.sets, sc, r);
    }
  }

  // ---- chains of parts ----

  lemma {:induction false} PathUp(k: Knowledge, path: seq<Place>, r: Report)
    requires IsPath(k, path) && r in ReportsAt(k, path[|path| - 1])
    ensures r in ReportsAt(k, path[0])
    decreases |path|
  {
    if |path| > 1 {
      var rest := path[1..];
      assert IsPath(k, rest) by {
        forall i | 0 <= i < |rest| - 1 ensures IsPart(k, rest[i + 1], rest[i]) {
          assert IsPart(k, path[i + 2], path[i + 1]);
        }
      }
      PathUp(k, rest, r);
      assert IsPart(k, path[0 + 1], path[0]);
      PartUp(k, path[1], path[0], r);
    }
  }

  lemma MentionsItself(k: Knowledge, m: Place)
    requires m.AtName? || m.AtUsing?
    ensures Mentions(k, m, m)
  {
    assert IsPath(k, [m]);
  }

  lemma MentionsThrough(k: Knowledge, p: Place, c: Place, m: Place)
    requires IsPart(k, c, p) && Mentions(k, c, m)
    ensures Mentions(k, p, m)
  {
    var path :| IsPath(k, path) && path[0] == c && path[|path| - 1] == m;
    var longer := [p] + path;
    forall i | 0 <= i < |longer| - 1 ensures IsPart(k, longer[i + 1], longer[i]) {
      if i > 0 { assert IsPart(k, path[i - 1 + 1], path[i - 1]); }
    }
    assert IsPath(k, longer);
  }

  /** m is mentioned in p and is what r complains about. */
  ghost predicate Explains(k: Knowledge, p: Place, m: Place, r: Report) {
    Mentions(k, p, m) && Complaint(k, m) == Some(r)
  }

  lemma {:induction false} FromExpr(k: Knowledge, e: Expr, sc: Scope, r: Report) returns (m: Place)
    requires r in WalkExpr(k, e, sc)
    ensures Explains(k, AtExpr(e, sc), m, r)
    decreases e
  {
    var c := ExprDown(k, e, sc, r);
    match e {
      case Ref(_) =>
        m := c;
        MentionsItself(k, m);
      case SubqueryExpr(query) => m := FromBody(k, query, Inside(sc, []), r);
      case Compound(args) =>
        var i :| 0 <= i < |args| && c == AtExpr(args[i], sc);
        m := FromExpr(k, args[i], sc, r);
    }
    MentionsThrough(k, AtExpr(e, sc), c, m);
  }

  lemma {:induction false} FromExprs(k: Knowledge, es: seq<Expr>, sc: Scope, c: Place, r: Report) returns (m: Place)
    requires OneOf(c, es, sc) && r in ReportsAt(k, c)
    ensures Explains(k, c, m, r)
    decreases es
  {
    var i :| 0 <= i < |es| && c == AtExpr(es[i], sc);
    m := FromExpr(k, es[i], sc, r);
  }

  lemma FromName(k: Knowledge, c: Place, r: Report)
    requires (c.AtName? || c.AtUsing?) && r in ReportsAt(k, c)
    ensures Explains(k, c, c, r)
  {
    MentionsItself(k, c);
  }

  lemma {:induction false} FromBody(k: Knowledge, b: Body, sc: Scope, r: Report) returns (m: Place)
    requires sc.Frame? && r in WalkBody(k, b, sc).reports
    ensures Explains(k, AtBody(b, sc), m, r)
    decreases b
  {
    var c := BodyDown(k, b, sc, r);
    match b {
      case Clause(from, items, rest) =>
        var inner := BlockScope(k, b, sc);
        if TableOneOf(k, c, from, sc) {
          m := FromTables(k, from, sc, c, r);
        } else if OneOf(c, rest, inner) {
          m := FromExprs(k, rest, inner, c, r);
        } else {
          var i :| 0 <= i < |items| && c == AtExpr(items[i].expr, inner);
          m := FromExpr(k, items[i].expr, inner, r);
        }
      case SetOp(left, right, _) =>
        if c == AtQuery(left, sc.parent) {
          m := FromQuery(k, left, sc.parent, r);
        } else {
          m := FromQuery(k, right, sc.parent, r);
        }
      case Parenthesized(inner, _) => m := FromQuery(k, inner, sc.parent, r);
      case Values(cells) => m := FromExprs(k, cells, sc, c, r);
    }
    MentionsThrough(k, AtBody(b, sc), c, m);
  }

  lemma {:induction false} FromTables(k: Knowledge, tes: seq<TableExpr>, sc: Scope, c: Place, r: Report)
      returns (m: Place)
    requires sc.Frame? && TableOneOf(k, c, tes, sc) && r in ReportsAt(k, c)
    ensures Explains(k, c, m, r)
    decreases tes
  {
    var i :| 0 <= i < |tes| && c == AtTable(tes[i], Beside(k, AllLeaves(tes[..i]), sc));
    m := FromTable(k, tes[i], c.scope, r);
  }

  lemma {:induction false} FromTable(k: Knowledge, te: TableExpr, sc: Scope, r: Report) returns (m: Place)
    requires sc.Frame? && r in AddTable(k, te, sc).reports
    ensures Explains(k, AtTable(te, sc), m, r)
    decreases te
  {
    var c := TableDown(k, te, sc, r);
    match te {
      case Aliased(inner, _, _, _) => m := FromBody(k, StripParens(inner).select, Inside(sc.parent, []), r);
      case Derived(select, _) => m := FromBody(k, select, Inside(sc.parent, []), r);
      case ParenTable(inner) => m := FromTable(k, inner, sc, r);
      case Join(left, right, cond) =>
        if c == AtTable(left, sc) {
          m := FromTable(k, left, sc, r);
        } else if c == AtTable(right, Beside(k, Leaves(left), sc)) {
          m := FromTable(k, right, Beside(k, Leaves(left), sc), r);
        } else if cond.On? {
          m := FromExpr(k, cond.pred, Beside(k, Leaves(te), sc), r);
        } else {
          m := c;
          FromName(k, c, r);
        }
    }
    MentionsThrough(k, AtTable(te, sc), c, m);
  }

  lemma {:induction false} FromCtes(k: Knowledge, ctes: seq<Cte>, c: Place, r: Report) returns (m: Place)
    requires CteOneOf(c, ctes) && r in ReportsAt(k, c)
    ensures Explains(k, c, m, r)
    decreases ctes
  {
    var i :| 0 <= i < |ctes| && c == AtStatement(ctes[i].stmt);
    m := FromStatement(k, ctes[i].stmt, r);
  }

  lemma {:induction false} FromQuery(k: Knowledge, q: Query, parent: Scope, r: Report) returns (m: Place)
    requires r in WalkQuery(k, q, parent)
    ensures Explains(k, AtQuery(q, parent), m, r)
    decreases q
  {
    var c := QueryDown(k, q, parent, r);
    var frame := Inside(WithScope(k, q.ctes, parent), []);
    if CteOneOf(c, q.ctes) {
      m := FromCtes(k, q.ctes, c, r);
    } else if c == AtBody(q.body, frame) {
      m := FromBody(k, q.body, frame, r);
    } else {
      m := FromExprs(k, q.tail, BlockScope(k, q.body, frame), c, r);
    }
    MentionsThrough(k, AtQuery(q, parent), c, m);
  }

  lemma {:induction false} FromSets(k: Knowledge, sets: seq<Assignment>, sc: Scope, c: Place, r: Report)
      returns (m: Place)
    requires r in ReportsAt(k, c)
    requires c.AtName? || exists i :: 0 <= i < |sets| && c == AtExpr(sets[i].value, sc)
    ensures Explains(k, c, m, r)
    decreases sets
  {
    if c.AtName? {
      m := c;
      FromName(k, c, r);
    } else {
      var i :| 0 <= i < |sets| && c == AtExpr(sets[i].value, sc);
      m := FromExpr(k, sets[i].value, sc, r);
    }
  }

  lemma {:induction false} FromConflict(k: Knowledge, conflict: Conflict, t: Source, sc: Scope, c: Place, r: Report)
      returns (m: Place)
    requires PartOfConflict(k, c, conflict, t, sc) && r in ReportsAt(k, c)
    ensures Explains(k, c, m, r)
    decreases conflict
  {
    var inner := Inside(sc, [Source("excluded", k.view(conflict.site, None))]);
    if OneOf(c, conflict.filters, inner) {
      m := FromExprs(k, conflict.filters, inner, c, r);
    } else {
      m := FromSets(k, conflict.sets, inner, c, r);
    }
  }

  lemma {:induction false} FromInsert(k: Knowledge, s: Statement, c: Place, r: Report) returns (m: Place)
    requires s.Insert? && PartOfStatement(k, c, s) && r in ReportsAt(k, c)
    ensures Explains(k, c, m, r)
    decreases s, 0
  {
    var with := WithScope(k, s.ctes, Outside);
    var t := TargetOf(k, s.target, Inside(with, []));
    var sc := Inside(with, [t]);
    if CteOneOf(c, s.ctes) {
      m := FromCtes(k, s.ctes, c, r);
    } else if c.AtName? {
      m := c;
      FromName(k, c, r);
    } else if OneOf(c, s.returning, sc) {
      m := FromExprs(k, s.returning, sc, c, r);
    } else if i :| 0 <= i < |s.rows| && c == AtQuery(s.rows[i], with) {
      m := FromQuery(k, s.rows[i], with, r);
    } else {
      var i :| 0 <= i < |s.conflicts| && PartOfConflict(k, c, s.conflicts[i], t, sc);
      m := FromConflict(k, s.conflicts[i], t, sc, c, r);
    }
  }

  lemma {:induction false} FromChange(k: Knowledge, s: Statement, c: Place, r: Report) returns (m: Place)
    requires (s.Update? || s.Delete?) && PartOfStatement(k, c, s) && r in ReportsAt(k, c)
    ensures Explains(k, c, m, r)
    decreases s, 0
  {
    var with := WithScope(k, s.ctes, Outside);
    var start := Inside(with, [TargetOf(k, s.target, Inside(with, []))]);
    var sc := Beside(k, AllLeaves(s.from), start);
    if CteOneOf(c, s.ctes) {
      m := FromCtes(k, s.ctes, c, r);
    } else if TableOneOf(k, c, s.from, start) {
      m := FromTables(k, s.from, start, c, r);
    } else if OneOf(c, s.filter, sc) {
      m := FromExprs(k, s.filter, sc, c, r);
    } else if OneOf(c, s.returning, sc) {
      m := FromExprs(k, s.returning, sc, c, r);
    } else {
      m := FromSets(k, s.sets, sc, c, r);
    }
  }

  lemma {:induction false} FromStatement(k: Knowledge, s: Statement, r: Report) returns (m: Place)
    requires r in WalkStatement(k, s)
    ensures Explains(k, AtStatement(s), m, r)
    decreases s, 1
  {
    var c: Place;
    match s {
      case Select(query) =>
        c := AtQuery(query, Outside);
        m := FromQuery(k, query, Outside, r);
      case Insert(_, _, _, _, _, _) =>
        c := InsertDown(k, s, r);
        m := FromInsert(k, s, c, r);
      case Update(_, _, _, _, _, _) =>
        c := ChangeDown(k, s, r);
        m := FromChange(k, s, c, r);
      case Delete(_, _, _, _, _) =>
        c := ChangeDown(k, s, r);
        m := FromChange(k, s, c, r);
    }
    MentionsThrough(k, AtStatement(s), c, m);
  }

  lemma {:induction false} MentionReports(k: Knowledge, p: Place, m: Place, r: Report)
    requires Explains(k, p, m, r)
    ensures r in ReportsAt(k, p)
  {
    var path :| IsPath(k, path) && path[0] == p && path[|path| - 1] == m;
    PathUp(k, path, r);
  }

  /**
   The walk over a statement reports exactly what is wrong with the names the statement
   mentions, wherever they stand.
   */
  lemma {:induction false} ReportsAreComplaints(k: Knowledge, s: Statement, r: Report)
    ensures r in WalkStatement(k, s) <==> exists m :: Explains(k, AtStatement(s), m, r)
  {
    if r in WalkStatement(k, s) {
      var m := FromStatement(k, s, r);
    }
    if m :| Explains(k, AtStatement(s), m, r) {
      MentionReports(k, AtStatement(s), m, r);
    }
  }
}
