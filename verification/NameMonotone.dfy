/** Knowing less never reports more: over whole statements, no column list made unknown adds a report. */
module NameMonotone {

  import opened Options
  import opened NameScope
  import opened NameWalk

  /**
   k' is k with columns withheld: of some tables, and at some nodes, of which no two need
   be treated alike.
   */
  ghost predicate KnowsLess(k': Knowledge, k: Knowledge) {
    && k'.fold == k.fold
    && (forall n :: DimmerColumns(k'.table(n), k.table(n)))
    && (forall site, less, more {:trigger k'.view(site, less), k.view(site, more)} ::
          DimmerColumns(less, more) ==> DimmerColumns(k'.view(site, less), k.view(site, more)))
  }

  /** The keys reported, each with its kind. */
  function Marks(reports: seq<Report>): set<(Name, Kind)> {
    set r | r in reports :: (r.key, r.kind)
  }

  /** Everything the first list reports is reported by the second. */
  predicate Within(few: seq<Report>, many: seq<Report>) {
    Marks(few) <= Marks(many)
  }

  lemma MarksThen(a: seq<Report>, b: seq<Report>)
    ensures Marks(a + b) == Marks(a) + Marks(b)
  {
  }

  lemma Both(a: seq<Report>, b: seq<Report>, c: seq<Report>, d: seq<Report>)
    requires Within(a, b) && Within(c, d)
    ensures Within(a + c, b + d)
  {
    MarksThen(a, c);
    MarksThen(b, d);
  }

  predicate WalkedWithin(w': Walked, w: Walked) {
    Within(w'.reports, w.reports) && Dimmer(w'.scope, w.scope)
  }

  /**
   k answers for everything the program leaves open: what the catalog and the statements
   give is as the program finds it, any other list is whatever k has for its table or node.
   */
  ghost predicate Fills(k: Knowledge, fold: Folding, table: Name -> Option<seq<Name>>) {
    && k.fold == fold
    && (forall n :: table(n).Some? ==> k.table(n) == table(n))
    && (forall site, columns: Option<seq<Name>> :: columns.Some? ==> k.view(site, columns) == columns)
  }

  lemma FillingKnowsMore(k: Knowledge, fold: Folding, table: Name -> Option<seq<Name>>)
    requires Fills(k, fold, table)
    ensures KnowsLess(AsFound(fold, table), k)
  {
  }

  // ---- scopes ----

  lemma SeenDims(k': Knowledge, k: Knowledge, site: Site, alias: Name, less: Option<seq<Name>>, more: Option<seq<Name>>)
    requires KnowsLess(k', k) && DimmerColumns(less, more)
    ensures DimmerSources([Seen(k', site, alias, less)], [Seen(k, site, alias, more)])
  {
  }

  lemma SourceForNameDims(k': Knowledge, k: Knowledge, site: Site, alias: Name, name: Name, sc': Scope, sc: Scope)
    requires KnowsLess(k', k) && Dimmer(sc', sc)
    ensures DimmerSources([SourceForName(k', site, alias, name, sc')], [SourceForName(k, site, alias, name, sc)])
  {
    SeenDims(k', k, site, alias, k'.table(name), k.table(name));
    CteDims(sc', sc, k.fold.lower(name));
  }

  lemma {:induction false} CteDims(sc': Scope, sc: Scope, want: Name)
    requires Dimmer(sc', sc)
    ensures match LookupCte(sc', want)
            case None => LookupCte(sc, want).None?
            case Some(c) => LookupCte(sc, want).Some? && DimmerColumns(c, LookupCte(sc, want).value)
  {
    if sc'.Frame? { CteDims(sc'.parent, sc.parent, want); }
  }

  lemma {:induction false} TargetDims(k': Knowledge, k: Knowledge, te: TableExpr, sc': Scope, sc: Scope)
    requires KnowsLess(k', k) && Dimmer(sc', sc)
    ensures DimmerSources([TargetSource(k', te, sc')], [TargetSource(k, te, sc)])
  {
    if te.Aliased? && TableNameOf(te.inner).Some? {
      var name := TableNameOf(te.inner).value;
      SourceForNameDims(k', k, te.site, if te.alias == "" then name else te.alias, name, sc', sc);
    } else if te.Table? {
      SourceForNameDims(k', k, te.site, te.name, te.name, sc', sc);
    } else if te.ParenTable? {
      TargetDims(k', k, te.inner, sc', sc);
    } else if te.Aliased? || te.Derived? || te.OtherTable? {
      SeenDims(k', k, te.site, if te.Aliased? then te.alias else "", None, None);
    }
  }

  lemma WithSourceDims(sc': Scope, sc: Scope, s': Source, s: Source)
    requires sc'.Frame? && sc.Frame? && Dimmer(sc', sc) && DimmerSources([s'], [s])
    ensures Dimmer(WithSource(sc', s'), WithSource(sc, s))
  {
    assert [s'][0] == s' && [s][0] == s;
  }

  // ---- single reports ----

  lemma ReportDims(k: Knowledge, ref: ColumnRef, sc': Scope, sc: Scope)
    requires Dimmer(sc', sc)
    ensures Within(Reported(Resolve(ref, sc', k.fold)), Reported(Resolve(ref, sc, k.fold)))
  {
    ResolveDims(ref, sc', sc, k.fold);
    var r := Resolve(ref, sc, k.fold);
    if r.Some? { assert r.value in Reported(r); }
  }

  lemma {:induction false} NamesDim(k': Knowledge, k: Knowledge, qualifier: Name, names: seq<Name>,
                                    sc': Scope, sc: Scope)
    requires KnowsLess(k', k) && Dimmer(sc', sc)
    ensures Within(ResolveNames(k', qualifier, names, sc'), ResolveNames(k, qualifier, names, sc))
  {
    if names != [] {
      ReportDims(k, ColumnRef(qualifier, names[0]), sc', sc);
      NamesDim(k', k, qualifier, names[1..], sc', sc);
      Both(Reported(Resolve(ColumnRef(qualifier, names[0]), sc', k.fold)),
           Reported(Resolve(ColumnRef(qualifier, names[0]), sc, k.fold)),
           ResolveNames(k', qualifier, names[1..], sc'), ResolveNames(k, qualifier, names[1..], sc));
    }
  }

  lemma TargetNamesDim(k': Knowledge, k: Knowledge, t': Source, t: Source, names: seq<Name>, sc': Scope, sc: Scope)
    requires KnowsLess(k', k) && Dimmer(sc', sc) && DimmerSources([t'], [t])
    ensures Within(OnTarget(k', t', names, sc'), OnTarget(k, t, names, sc))
  {
    assert [t'][0] == t' && [t][0] == t;
    NamesDim(k', k, t.alias, names, sc', sc);
  }

  lemma UsingReportDims(k: Knowledge, name: Name, sc': Scope, sc: Scope)
    requires Dimmer(sc', sc)
    ensures Within(UsingReport(k, name, sc'), UsingReport(k, name, sc))
  {
    if ColumnExistsInScope(sc, name, k.fold) {
      ExistsDims(sc', sc, name, k.fold);
    } else {
      assert UsingReport(k, name, sc)[0] in UsingReport(k, name, sc);
    }
  }

  lemma {:induction false} UsingDims(k': Knowledge, k: Knowledge, names: seq<Name>, sc': Scope, sc: Scope)
    requires KnowsLess(k', k) && Dimmer(sc', sc)
    ensures Within(CheckUsing(k', names, sc'), CheckUsing(k, names, sc))
  {
    if names != [] {
      UsingReportDims(k, names[0], sc', sc);
      UsingDims(k', k, names[1..], sc', sc);
      Both(UsingReport(k, names[0], sc'), UsingReport(k, names[0], sc),
           CheckUsing(k', names[1..], sc'), CheckUsing(k, names[1..], sc));
    }
  }

  // ---- the walk ----

  lemma {:induction false} ExprDims(k': Knowledge, k: Knowledge, e: Expr, sc': Scope, sc: Scope)
    requires KnowsLess(k', k) && Dimmer(sc', sc)
    ensures Within(WalkExpr(k', e, sc'), WalkExpr(k, e, sc))
    decreases e
  {
    if e.Ref? {
      ReportDims(k, e.ref, sc', sc);
    } else if e.SubqueryExpr? {
      BodyDims(k', k, e.query, Nested(sc'), Nested(sc));
    } else if e.Compound? {
      ExprsDim(k', k, e.args, sc', sc);
    }
  }

  lemma {:induction false} ExprsDim(k': Knowledge, k: Knowledge, es: seq<Expr>, sc': Scope, sc: Scope)
    requires KnowsLess(k', k) && Dimmer(sc', sc)
    ensures Within(WalkExprs(k', es, sc'), WalkExprs(k, es, sc))
    decreases es
  {
    if es != [] {
      ExprDims(k', k, es[0], sc', sc);
      ExprsDim(k', k, es[1..], sc', sc);
      Both(WalkExpr(k', es[0], sc'), WalkExpr(k, es[0], sc), WalkExprs(k', es[1..], sc'), WalkExprs(k, es[1..], sc));
    }
  }

  lemma {:induction false} ItemsDim(k': Knowledge, k: Knowledge, items: seq<Item>, sc': Scope, sc: Scope)
    requires KnowsLess(k', k) && Dimmer(sc', sc)
    ensures Within(WalkItems(k', items, sc'), WalkItems(k, items, sc))
    decreases items
  {
    if items != [] {
      ExprDims(k', k, items[0].expr, sc', sc);
      ItemsDim(k', k, items[1..], sc', sc);
      Both(WalkExpr(k', items[0].expr, sc'), WalkExpr(k, items[0].expr, sc),
           WalkItems(k', items[1..], sc'), WalkItems(k, items[1..], sc));
    }
  }

  lemma UnknownDims(k': Knowledge, k: Knowledge, site: Site, sc': Scope, sc: Scope, alias: Name)
    requires KnowsLess(k', k) && sc'.Frame? && sc.Frame? && Dimmer(sc', sc)
    ensures Dimmer(WithSource(sc', Unknown(k', site, alias)), WithSource(sc, Unknown(k, site, alias)))
  {
    SeenDims(k', k, site, alias, None, None);
    WithSourceDims(sc', sc, Unknown(k', site, alias), Unknown(k, site, alias));
  }

  lemma {:induction false} BodyDims(k': Knowledge, k: Knowledge, b: Body, sc': Scope, sc: Scope)
    requires KnowsLess(k', k) && sc'.Frame? && sc.Frame? && Dimmer(sc', sc)
    ensures WalkedWithin(WalkBody(k', b, sc'), WalkBody(k, b, sc))
    decreases b
  {
    if b.Clause? {
      TablesDim(k', k, b.from, sc', sc);
      var t', t := AddTables(k', b.from, sc'), AddTables(k, b.from, sc);
      var in', in_ := WalkBody(k', b, sc').scope, WalkBody(k, b, sc).scope;
      assert Dimmer(in', in_);
      ItemsDim(k', k, b.items, in', in_);
      ExprsDim(k', k, b.rest, in', in_);
      Both(t'.reports, t.reports, WalkItems(k', b.items, in'), WalkItems(k, b.items, in_));
      Both(t'.reports + WalkItems(k', b.items, in'), t.reports + WalkItems(k, b.items, in_),
           WalkExprs(k', b.rest, in'), WalkExprs(k, b.rest, in_));
    } else if b.SetOp? {
      QueryDims(k', k, b.left, sc'.parent, sc.parent);
      QueryDims(k', k, b.right, sc'.parent, sc.parent);
      Both(WalkQuery(k', b.left, sc'.parent), WalkQuery(k, b.left, sc.parent),
           WalkQuery(k', b.right, sc'.parent), WalkQuery(k, b.right, sc.parent));
      UnknownDims(k', k, b.site, sc', sc, "");
    } else if b.Parenthesized? {
      QueryDims(k', k, b.inner, sc'.parent, sc.parent);
      UnknownDims(k', k, b.site, sc', sc, "");
    } else if b.Values? {
      ExprsDim(k', k, b.cells, sc', sc);
    }
  }

  lemma {:induction false} QueryDims(k': Knowledge, k: Knowledge, q: Query, parent': Scope, parent: Scope)
    requires KnowsLess(k', k) && Dimmer(parent', parent)
    ensures Within(WalkQuery(k', q, parent'), WalkQuery(k, q, parent))
    decreases q
  {
    PushDims(k', k, q.ctes, parent', parent);
    var c', c := PushCtes(k', q.ctes, parent'), PushCtes(k, q.ctes, parent);
    BodyDims(k', k, q.body, Nested(c'.scope), Nested(c.scope));
    var b', b := WalkBody(k', q.body, Nested(c'.scope)), WalkBody(k, q.body, Nested(c.scope));
    ExprsDim(k', k, q.tail, b'.scope, b.scope);
    Both(c'.reports, c.reports, b'.reports, b.reports);
    Both(c'.reports + b'.reports, c.reports + b.reports,
         WalkExprs(k', q.tail, b'.scope), WalkExprs(k, q.tail, b.scope));
  }

  lemma {:induction false} PushDims(k': Knowledge, k: Knowledge, ctes: seq<Cte>, parent': Scope, parent: Scope)
    requires KnowsLess(k', k) && Dimmer(parent', parent)
    ensures WalkedWithin(PushCtes(k', ctes, parent'), PushCtes(k, ctes, parent))
    decreases ctes, 1
  {
    if ctes != [] { CtesDim(k', k, ctes, Nested(parent'), Nested(parent)); }
  }

  lemma {:induction false} CtesDim(k': Knowledge, k: Knowledge, ctes: seq<Cte>, frame': Scope, frame: Scope)
    requires KnowsLess(k', k) && frame'.Frame? && frame.Frame? && Dimmer(frame', frame)
    ensures WalkedWithin(AddCtes(k', ctes, frame'), AddCtes(k, ctes, frame))
    decreases ctes, 0
  {
    if ctes != [] {
      var cte := ctes[0];
      var found := ProjectedColumns(cte.columns, BodyOf(cte.stmt));
      assert DimmerColumns(k'.view(cte.site, found), k.view(cte.site, found));
      var key := k.fold.lower(cte.name);
      var next' := if cte.name == "" then frame' else frame'.(ctes := frame'.ctes[key := k'.view(cte.site, found)]);
      var next := if cte.name == "" then frame else frame.(ctes := frame.ctes[key := k.view(cte.site, found)]);
      assert Dimmer(next', next);
      StatementDims(k', k, cte.stmt);
      CtesDim(k', k, ctes[1..], next', next);
      Both(WalkStatement(k', cte.stmt), WalkStatement(k, cte.stmt),
           AddCtes(k', ctes[1..], next').reports, AddCtes(k, ctes[1..], next).reports);
    }
  }

  lemma {:induction false} TablesDim(k': Knowledge, k: Knowledge, tes: seq<TableExpr>, sc': Scope, sc: Scope)
    requires KnowsLess(k', k) && sc'.Frame? && sc.Frame? && Dimmer(sc', sc)
    ensures WalkedWithin(AddTables(k', tes, sc'), AddTables(k, tes, sc))
    decreases tes
  {
    if tes != [] {
      TableDims(k', k, tes[0], sc', sc);
      var f', f := AddTable(k', tes[0], sc'), AddTable(k, tes[0], sc);
      TablesDim(k', k, tes[1..], f'.scope, f.scope);
      Both(f'.reports, f.reports, AddTables(k', tes[1..], f'.scope).reports, AddTables(k, tes[1..], f.scope).reports);
    }
  }

  lemma {:induction false} TableDims(k': Knowledge, k: Knowledge, te: TableExpr, sc': Scope, sc: Scope)
    requires KnowsLess(k', k) && sc'.Frame? && sc.Frame? && Dimmer(sc', sc)
    ensures WalkedWithin(AddTable(k', te, sc'), AddTable(k, te, sc))
    decreases te, 1
  {
    if te.Table? {
      SourceForNameDims(k', k, te.site, te.name, te.name, sc', sc);
      WithSourceDims(sc', sc, SourceForName(k', te.site, te.name, te.name, sc'),
                     SourceForName(k, te.site, te.name, te.name, sc));
    } else if te.Aliased? {
      var inner := StripParens(te.inner);
      if inner.Table? {
        var alias := if te.alias == "" then inner.name else te.alias;
        SourceForNameDims(k', k, te.site, alias, inner.name, sc', sc);
        WithSourceDims(sc', sc, SourceForName(k', te.site, alias, inner.name, sc'),
                       SourceForName(k, te.site, alias, inner.name, sc));
      } else if inner.Derived? {
        BodyDims(k', k, inner.select, Nested(sc'.parent), Nested(sc.parent));
        var found := ProjectedColumns(te.columns, Some(inner.select));
        SeenDims(k', k, te.site, te.alias, found, found);
        WithSourceDims(sc', sc, Seen(k', te.site, te.alias, found), Seen(k, te.site, te.alias, found));
      } else {
        UnknownDims(k', k, te.site, sc', sc, te.alias);
      }
    } else if te.Derived? {
      BodyDims(k', k, te.select, Nested(sc'.parent), Nested(sc.parent));
      UnknownDims(k', k, te.site, sc', sc, "");
    } else if te.ParenTable? {
      TableDims(k', k, te.inner, sc', sc);
    } else if te.Join? {
      JoinDims(k', k, te, sc', sc);
    } else {
      UnknownDims(k', k, te.site, sc', sc, "");
    }
  }

  lemma {:induction false} CondDims(k': Knowledge, k: Knowledge, cond: JoinCond, sc': Scope, sc: Scope)
    requires KnowsLess(k', k) && Dimmer(sc', sc)
    ensures Within(JoinReports(k', cond, sc'), JoinReports(k, cond, sc))
    decreases cond
  {
    if cond.On? {
      ExprDims(k', k, cond.pred, sc', sc);
    } else if cond.Using? {
      UsingDims(k', k, cond.names, sc', sc);
    }
  }

  lemma {:induction false} JoinDims(k': Knowledge, k: Knowledge, te: TableExpr, sc': Scope, sc: Scope)
    requires KnowsLess(k', k) && sc'.Frame? && sc.Frame? && Dimmer(sc', sc) && te.Join?
    ensures WalkedWithin(AddTable(k', te, sc'), AddTable(k, te, sc))
    decreases te, 0
  {
    TableDims(k', k, te.left, sc', sc);
    var l', l := AddTable(k', te.left, sc'), AddTable(k, te.left, sc);
    TableDims(k', k, te.right, l'.scope, l.scope);
    var r', r := AddTable(k', te.right, l'.scope), AddTable(k, te.right, l.scope);
    CondDims(k', k, te.cond, r'.scope, r.scope);
    Both(l'.reports, l.reports, r'.reports, r.reports);
    Both(l'.reports + r'.reports, l.reports + r.reports,
         JoinReports(k', te.cond, r'.scope), JoinReports(k, te.cond, r.scope));
  }

  lemma {:induction false} AssignmentsDim(k': Knowledge, k: Knowledge, sets: seq<Assignment>, sc': Scope, sc: Scope)
    requires KnowsLess(k', k) && Dimmer(sc', sc)
    ensures Within(WalkAssignments(k', sets, sc'), WalkAssignments(k, sets, sc))
    decreases sets
  {
    if sets != [] {
      NamesDim(k', k, "", sets[0].names, sc', sc);
      ExprDims(k', k, sets[0].value, sc', sc);
      AssignmentsDim(k', k, sets[1..], sc', sc);
      var n', n := ResolveNames(k', "", sets[0].names, sc'), ResolveNames(k, "", sets[0].names, sc);
      var e', e := WalkExpr(k', sets[0].value, sc'), WalkExpr(k, sets[0].value, sc);
      Both(n', n, e', e);
      Both(n' + e', n + e, WalkAssignments(k', sets[1..], sc'), WalkAssignments(k, sets[1..], sc));
    }
  }

  lemma {:induction false} UpsertsDim(k': Knowledge, k: Knowledge, sets: seq<Assignment>, t': Source, t: Source,
                                      sc': Scope, sc: Scope, in': Scope, in_: Scope)
    requires KnowsLess(k', k) && Dimmer(sc', sc) && Dimmer(in', in_) && DimmerSources([t'], [t])
    ensures Within(WalkUpserts(k', sets, t', sc', in'), WalkUpserts(k, sets, t, sc, in_))
    decreases sets
  {
    if sets != [] {
      TargetNamesDim(k', k, t', t, sets[0].names, sc', sc);
      ExprDims(k', k, sets[0].value, in', in_);
      UpsertsDim(k', k, sets[1..], t', t, sc', sc, in', in_);
      var n', n := OnTarget(k', t', sets[0].names, sc'), OnTarget(k, t, sets[0].names, sc);
      var e', e := WalkExpr(k', sets[0].value, in'), WalkExpr(k, sets[0].value, in_);
      Both(n', n, e', e);
      Both(n' + e', n + e, WalkUpserts(k', sets[1..], t', sc', in'), WalkUpserts(k, sets[1..], t, sc, in_));
    }
  }

  lemma {:induction false} ConflictDims(k': Knowledge, k: Knowledge, c: Conflict, t': Source, t: Source,
                                        sc': Scope, sc: Scope)
    requires KnowsLess(k', k) && Dimmer(sc', sc) && DimmerSources([t'], [t])
    ensures Within(WalkConflict(k', c, t', sc'), WalkConflict(k, c, t, sc))
    decreases c
  {
    var in' := WithSource(Nested(sc'), Unknown(k', c.site, "excluded"));
    var in_ := WithSource(Nested(sc), Unknown(k, c.site, "excluded"));
    UnknownDims(k', k, c.site, Nested(sc'), Nested(sc), "excluded");
    TargetNamesDim(k', k, t', t, c.names, sc', sc);
    UpsertsDim(k', k, c.sets, t', t, sc', sc, in', in_);
    ExprsDim(k', k, c.filters, in', in_);
    var n', n := OnTarget(k', t', c.names, sc'), OnTarget(k, t, c.names, sc);
    var u', u := WalkUpserts(k', c.sets, t', sc', in'), WalkUpserts(k, c.sets, t, sc, in_);
    Both(n', n, u', u);
    Both(n' + u', n + u, WalkExprs(k', c.filters, in'), WalkExprs(k, c.filters, in_));
  }

  lemma {:induction false} ConflictsDim(k': Knowledge, k: Knowledge, cs: seq<Conflict>, t': Source, t: Source,
                                        sc': Scope, sc: Scope)
    requires KnowsLess(k', k) && Dimmer(sc', sc) && DimmerSources([t'], [t])
    ensures Within(WalkConflicts(k', cs, t', sc'), WalkConflicts(k, cs, t, sc))
    decreases cs
  {
    if cs != [] {
      ConflictDims(k', k, cs[0], t', t, sc', sc);
      ConflictsDim(k', k, cs[1..], t', t, sc', sc);
      Both(WalkConflict(k', cs[0], t', sc'), WalkConflict(k, cs[0], t, sc),
           WalkConflicts(k', cs[1..], t', sc'), WalkConflicts(k, cs[1..], t, sc));
    }
  }

  lemma {:induction false} QueriesDim(k': Knowledge, k: Knowledge, qs: seq<Query>, parent': Scope, parent: Scope)
    requires KnowsLess(k', k) && Dimmer(parent', parent)
    ensures Within(WalkQueries(k', qs, parent'), WalkQueries(k, qs, parent))
    decreases qs
  {
    if qs != [] {
      QueryDims(k', k, qs[0], parent', parent);
      QueriesDim(k', k, qs[1..], parent', parent);
      Both(WalkQuery(k', qs[0], parent'), WalkQuery(k, qs[0], parent),
           WalkQueries(k', qs[1..], parent'), WalkQueries(k, qs[1..], parent));
    }
  }

  /** The scope of a data-changing statement: its target, with its WITH clause outside. */
  function TargetScope(k: Knowledge, into: TableExpr, with: Scope): Scope {
    WithSource(Nested(with), TargetSource(k, into, Nested(with)))
  }

  lemma TargetScopeDims(k': Knowledge, k: Knowledge, into: TableExpr, with': Scope, with: Scope)
    requires KnowsLess(k', k) && Dimmer(with', with)
    ensures DimmerSources([TargetSource(k', into, Nested(with'))], [TargetSource(k, into, Nested(with))])
    ensures Dimmer(TargetScope(k', into, with'), TargetScope(k, into, with))
  {
    TargetDims(k', k, into, Nested(with'), Nested(with));
    WithSourceDims(Nested(with'), Nested(with),
                   TargetSource(k', into, Nested(with')), TargetSource(k, into, Nested(with)));
  }

  lemma {:induction false} InsertDims(k': Knowledge, k: Knowledge, s: Statement)
    requires KnowsLess(k', k) && s.Insert?
    ensures Within(WalkStatement(k', s), WalkStatement(k, s))
    decreases s, 0
  {
    PushDims(k', k, s.ctes, Outside, Outside);
    var w', w := PushCtes(k', s.ctes, Outside), PushCtes(k, s.ctes, Outside);
    TargetScopeDims(k', k, s.target, w'.scope, w.scope);
    var t', t := TargetSource(k', s.target, Nested(w'.scope)), TargetSource(k, s.target, Nested(w.scope));
    var sc', sc := TargetScope(k', s.target, w'.scope), TargetScope(k, s.target, w.scope);
    TargetNamesDim(k', k, t', t, s.names, sc', sc);
    QueriesDim(k', k, s.rows, w'.scope, w.scope);
    ConflictsDim(k', k, s.conflicts, t', t, sc', sc);
    ExprsDim(k', k, s.returning, sc', sc);
    var a', a := OnTarget(k', t', s.names, sc'), OnTarget(k, t, s.names, sc);
    var b', b := WalkQueries(k', s.rows, w'.scope), WalkQueries(k, s.rows, w.scope);
    var c', c := WalkConflicts(k', s.conflicts, t', sc'), WalkConflicts(k, s.conflicts, t, sc);
    Both(w'.reports, w.reports, a', a);
    Both(w'.reports + a', w.reports + a, b', b);
    Both(w'.reports + a' + b', w.reports + a + b, c', c);
    Both(w'.reports + a' + b' + c', w.reports + a + b + c,
         WalkExprs(k', s.returning, sc'), WalkExprs(k, s.returning, sc));
  }

  lemma {:induction false} UpdateDims(k': Knowledge, k: Knowledge, s: Statement)
    requires KnowsLess(k', k) && s.Update?
    ensures Within(WalkStatement(k', s), WalkStatement(k, s))
    decreases s, 0
  {
    PushDims(k', k, s.ctes, Outside, Outside);
    var w', w := PushCtes(k', s.ctes, Outside), PushCtes(k, s.ctes, Outside);
    TargetScopeDims(k', k, s.target, w'.scope, w.scope);
    TablesDim(k', k, s.from, TargetScope(k', s.target, w'.scope), TargetScope(k, s.target, w.scope));
    var t' := AddTables(k', s.from, TargetScope(k', s.target, w'.scope));
    var t := AddTables(k, s.from, TargetScope(k, s.target, w.scope));
    AssignmentsDim(k', k, s.sets, t'.scope, t.scope);
    ExprsDim(k', k, s.filter, t'.scope, t.scope);
    ExprsDim(k', k, s.returning, t'.scope, t.scope);
    var a', a := WalkAssignments(k', s.sets, t'.scope), WalkAssignments(k, s.sets, t.scope);
    var b', b := WalkExprs(k', s.filter, t'.scope), WalkExprs(k, s.filter, t.scope);
    Both(w'.reports, w.reports, t'.reports, t.reports);
    Both(w'.reports + t'.reports, w.reports + t.reports, a', a);
    Both(w'.reports + t'.reports + a', w.reports + t.reports + a, b', b);
    Both(w'.reports + t'.reports + a' + b', w.reports + t.reports + a + b,
         WalkExprs(k', s.returning, t'.scope), WalkExprs(k, s.returning, t.scope));
  }

  lemma {:induction false} DeleteDims(k': Knowledge, k: Knowledge, s: Statement)
    requires KnowsLess(k', k) && s.Delete?
    ensures Within(WalkStatement(k', s), WalkStatement(k, s))
    decreases s, 0
  {
    PushDims(k', k, s.ctes, Outside, Outside);
    var w', w := PushCtes(k', s.ctes, Outside), PushCtes(k, s.ctes, Outside);
    TargetScopeDims(k', k, s.target, w'.scope, w.scope);
    TablesDim(k', k, s.from, TargetScope(k', s.target, w'.scope), TargetScope(k, s.target, w.scope));
    var t' := AddTables(k', s.from, TargetScope(k', s.target, w'.scope));
    var t := AddTables(k, s.from, TargetScope(k, s.target, w.scope));
    ExprsDim(k', k, s.filter, t'.scope, t.scope);
    ExprsDim(k', k, s.returning, t'.scope, t.scope);
    var b', b := WalkExprs(k', s.filter, t'.scope), WalkExprs(k, s.filter, t.scope);
    Both(w'.reports, w.reports, t'.reports, t.reports);
    Both(w'.reports + t'.reports, w.reports + t.reports, b', b);
    Both(w'.reports + t'.reports + b', w.reports + t.reports + b,
         WalkExprs(k', s.returning, t'.scope), WalkExprs(k, s.returning, t.scope));
  }

  /** For every statement, whatever column lists are withheld, every report made is one made with all of them. */
  lemma {:induction false} StatementDims(k': Knowledge, k: Knowledge, s: Statement)
    requires KnowsLess(k', k)
    ensures Within(WalkStatement(k', s), WalkStatement(k, s))
    decreases s, 1
  {
    if s.Select? {
      QueryDims(k', k, s.query, Outside, Outside);
    } else if s.Insert? {
      InsertDims(k', k, s);
    } else if s.Update? {
      UpdateDims(k', k, s);
    } else if s.Delete? {
      DeleteDims(k', k, s);
    }
  }
}
