/** The checker: one accumulator of errors, deduplicated by key across the whole input. */
module NameChecker {

  import opened Options
  import opened NameScope
  import opened NameWalk
  import NameMonotone

  /** What has been recorded so far. */
  datatype Log = Log(seen: set<Name>, errs: seq<Report>)

  function Record(log: Log, r: Report): Log {
    if r.key in log.seen then log else Log(log.seen + {r.key}, log.errs + [r])
  }

  function RecordAll(log: Log, reports: seq<Report>): Log
    decreases |reports|
  {
    if reports == [] then log else RecordAll(Record(log, reports[0]), reports[1..])
  }

  lemma {:induction false} RecordThen(log: Log, a: seq<Report>, b: seq<Report>)
    ensures RecordAll(log, a + b) == RecordAll(RecordAll(log, a), b)
    decreases |a|
  {
    if a == [] {
      assert a + b == b;
    } else {
      assert (a + b)[0] == a[0] && (a + b)[1..] == a[1..] + b;
      RecordThen(Record(log, a[0]), a[1..], b);
    }
  }

  class ColumnChecker {
    const k: Knowledge
    var seen: set<Name>
    var errs: seq<Report>

    constructor (k: Knowledge)
      ensures this.k == k && Recorded() == Log({}, [])
    {
      this.k := k;
      seen, errs := {}, [];
    }

    ghost function Recorded(): Log
      reads this
    {
      Log(seen, errs)
    }

    method ReportFor(r: Report)
      modifies this
      ensures Recorded() == RecordAll(old(Recorded()), [r])
    {
      if r.key in seen { return; }
      seen := seen + {r.key};
      errs := errs + [r];
    }

    method ResolveRef(ref: ColumnRef, sc: Scope)
      modifies this
      ensures Recorded() == RecordAll(old(Recorded()), Reported(Resolve(ref, sc, k.fold)))
    {
      var r := Resolve(ref, sc, k.fold);
      if r.Some? { ReportFor(r.value); }
    }

    method ResolveEach(qualifier: Name, names: seq<Name>, sc: Scope)
      modifies this
      ensures Recorded() == RecordAll(old(Recorded()), ResolveNames(k, qualifier, names, sc))
    {
      for i := 0 to |names|
        invariant RecordAll(Recorded(), ResolveNames(k, qualifier, names[i..], sc))
                  == RecordAll(old(Recorded()), ResolveNames(k, qualifier, names, sc))
      {
        RecordThen(Recorded(), Reported(Resolve(ColumnRef(qualifier, names[i]), sc, k.fold)),
                   ResolveNames(k, qualifier, names[i..][1..], sc));
        assert names[i..][1..] == names[i + 1..];
        ResolveRef(ColumnRef(qualifier, names[i]), sc);
      }
    }

    method CheckUsingNames(names: seq<Name>, sc: Scope)
      modifies this
      ensures Recorded() == RecordAll(old(Recorded()), CheckUsing(k, names, sc))
    {
      for i := 0 to |names|
        invariant RecordAll(Recorded(), CheckUsing(k, names[i..], sc))
                  == RecordAll(old(Recorded()), CheckUsing(k, names, sc))
      {
        RecordThen(Recorded(), UsingReport(k, names[i], sc), CheckUsing(k, names[i..][1..], sc));
        assert names[i..][1..] == names[i + 1..];
        if !ColumnExistsInScope(sc, names[i], k.fold) {
          ReportFor(Report(k.fold.lower("." + names[i]), UnknownColumn, names[i], AvailableColumns(sc, k.fold)));
        }
      }
    }

    method VisitExpr(e: Expr, sc: Scope)
      modifies this
      ensures Recorded() == RecordAll(old(Recorded()), WalkExpr(k, e, sc))
      decreases e
    {
      match e
      case Ref(ref) => ResolveRef(ref, sc);
      case Star =>
      case SubqueryExpr(query) => var _ := CheckBody(query, Nested(sc));
      case Compound(args) => VisitExprs(args, sc);
    }

    method VisitExprs(es: seq<Expr>, sc: Scope)
      modifies this
      ensures Recorded() == RecordAll(old(Recorded()), WalkExprs(k, es, sc))
      decreases es
    {
      for i := 0 to |es|
        invariant RecordAll(Recorded(), WalkExprs(k, es[i..], sc)) == RecordAll(old(Recorded()), WalkExprs(k, es, sc))
      {
        RecordThen(Recorded(), WalkExpr(k, es[i], sc), WalkExprs(k, es[i..][1..], sc));
        assert es[i..][1..] == es[i + 1..];
        VisitExpr(es[i], sc);
      }
    }

    method VisitItems(items: seq<Item>, sc: Scope)
      modifies this
      ensures Recorded() == RecordAll(old(Recorded()), WalkItems(k, items, sc))
      decreases items
    {
      for i := 0 to |items|
        invariant RecordAll(Recorded(), WalkItems(k, items[i..], sc))
                  == RecordAll(old(Recorded()), WalkItems(k, items, sc))
      {
        RecordThen(Recorded(), WalkExpr(k, items[i].expr, sc), WalkItems(k, items[i..][1..], sc));
        assert items[i..][1..] == items[i + 1..];
        VisitExpr(items[i].expr, sc);
      }
    }

    /** checkSelectStatement; returns the frame with the block's sources and aliases. */
    method CheckBody(b: Body, sc: Scope) returns (out: Scope)
      requires sc.Frame?
      modifies this
      ensures out == WalkBody(k, b, sc).scope
      ensures Recorded() == RecordAll(old(Recorded()), WalkBody(k, b, sc).reports)
      decreases b
    {
      out := sc;
      match b
      case Clause(from, items, rest) =>
        out := AddEach(from, sc);
        var aliases := out.aliases;
        for i := 0 to |items|
          invariant aliases == out.aliases + AliasSet(k, items[..i])
        {
          if items[i].alias != "" { aliases := aliases + {k.fold.lower(items[i].alias)}; }
          assert forall j :: 0 <= j < i ==> items[..i + 1][j] == items[..i][j];
        }
        assert items[..|items|] == items;
        out := out.(aliases := aliases);
        VisitItems(items, out);
        VisitExprs(rest, out);
        var t := AddTables(k, from, sc).reports;
        RecordThen(old(Recorded()), t, WalkItems(k, items, out));
        RecordThen(old(Recorded()), t + WalkItems(k, items, out), WalkExprs(k, rest, out));
      case SetOp(left, right, site) =>
        CheckQuery(left, sc.parent);
        CheckQuery(right, sc.parent);
        RecordThen(old(Recorded()), WalkQuery(k, left, sc.parent), WalkQuery(k, right, sc.parent));
        out := WithSource(sc, Unknown(k, site, ""));
      case Parenthesized(inner, site) =>
        CheckQuery(inner, sc.parent);
        out := WithSource(sc, Unknown(k, site, ""));
      case Values(cells) => VisitExprs(cells, sc);
      case OtherBody =>
    }

    method CheckQuery(q: Query, parent: Scope)
      modifies this
      ensures Recorded() == RecordAll(old(Recorded()), WalkQuery(k, q, parent))
      decreases q
    {
      var with := Push(q.ctes, parent);
      var sc := CheckBody(q.body, Nested(with));
      VisitExprs(q.tail, sc);
      var c, b := PushCtes(k, q.ctes, parent).reports, WalkBody(k, q.body, Nested(with)).reports;
      RecordThen(old(Recorded()), c, b);
      RecordThen(old(Recorded()), c + b, WalkExprs(k, q.tail, sc));
    }

    /** pushCTEs. */
    method Push(ctes: seq<Cte>, parent: Scope) returns (frame: Scope)
      modifies this
      ensures frame == PushCtes(k, ctes, parent).scope
      ensures Recorded() == RecordAll(old(Recorded()), PushCtes(k, ctes, parent).reports)
      decreases ctes
    {
      if |ctes| == 0 { return parent; }
      frame := Nested(parent);
      for i := 0 to |ctes|
        invariant frame.Frame?
        invariant AddCtes(k, ctes[i..], frame).scope == AddCtes(k, ctes, Nested(parent)).scope
        invariant RecordAll(Recorded(), AddCtes(k, ctes[i..], frame).reports)
                  == RecordAll(old(Recorded()), AddCtes(k, ctes, Nested(parent)).reports)
      {
        var cte := ctes[i];
        var columns := k.view(cte.site, ProjectedColumns(cte.columns, BodyOf(cte.stmt)));
        var next := frame;
        if cte.name != "" { next := frame.(ctes := frame.ctes[k.fold.lower(cte.name) := columns]); }
        assert ctes[i..][1..] == ctes[i + 1..];
        RecordThen(Recorded(), WalkStatement(k, cte.stmt), AddCtes(k, ctes[i + 1..], next).reports);
        frame := next;
        CheckStatement(cte.stmt);
      }
    }

    method AddEach(tes: seq<TableExpr>, sc: Scope) returns (out: Scope)
      requires sc.Frame?
      modifies this
      ensures out == AddTables(k, tes, sc).scope
      ensures Recorded() == RecordAll(old(Recorded()), AddTables(k, tes, sc).reports)
      decreases tes
    {
      out := sc;
      for i := 0 to |tes|
        invariant out.Frame?
        invariant AddTables(k, tes[i..], out).scope == AddTables(k, tes, sc).scope
        invariant RecordAll(Recorded(), AddTables(k, tes[i..], out).reports)
                  == RecordAll(old(Recorded()), AddTables(k, tes, sc).reports)
      {
        assert tes[i..][1..] == tes[i + 1..];
        RecordThen(Recorded(), AddTable(k, tes[i], out).reports,
                   AddTables(k, tes[i + 1..], AddTable(k, tes[i], out).scope).reports);
        out := AddTableExpr(tes[i], out);
      }
    }

    method AddTableExpr(te: TableExpr, sc: Scope) returns (out: Scope)
      requires sc.Frame?
      modifies this
      ensures out == AddTable(k, te, sc).scope
      ensures Recorded() == RecordAll(old(Recorded()), AddTable(k, te, sc).reports)
      decreases te
    {
      match te
      case Table(name, site) => out := WithSource(sc, SourceForName(k, site, name, name, sc));
      case Aliased(inner, alias, columns, site) =>
        var stripped := StripParens(inner);
        if stripped.Table? {
          var shown := if alias == "" then stripped.name else alias;
          out := WithSource(sc, SourceForName(k, site, shown, stripped.name, sc));
        } else if stripped.Derived? {
          var _ := CheckBody(stripped.select, Nested(sc.parent));
          out := WithSource(sc, Seen(k, site, alias, ProjectedColumns(columns, Some(stripped.select))));
        } else {
          out := WithSource(sc, Unknown(k, site, alias));
        }
      case Derived(select, site) =>
        var _ := CheckBody(select, Nested(sc.parent));
        out := WithSource(sc, Unknown(k, site, ""));
      case ParenTable(inner) => out := AddTableExpr(inner, sc);
      case Join(left, right, cond) =>
        var l := AddTableExpr(left, sc);
        out := AddTableExpr(right, l);
        match cond {
          case NoCond =>
          case On(pred) => VisitExpr(pred, out);
          case Using(names) => CheckUsingNames(names, out);
        }
        var a, b := AddTable(k, left, sc).reports, AddTable(k, right, l).reports;
        RecordThen(old(Recorded()), a, b);
        RecordThen(old(Recorded()), a + b, JoinReports(k, cond, out));
      case OtherTable(site) => out := WithSource(sc, Unknown(k, site, ""));
    }

    method VisitAssignments(sets: seq<Assignment>, sc: Scope)
      modifies this
      ensures Recorded() == RecordAll(old(Recorded()), WalkAssignments(k, sets, sc))
      decreases sets
    {
      for i := 0 to |sets|
        invariant RecordAll(Recorded(), WalkAssignments(k, sets[i..], sc))
                  == RecordAll(old(Recorded()), WalkAssignments(k, sets, sc))
      {
        var a, b := ResolveNames(k, "", sets[i].names, sc), WalkExpr(k, sets[i].value, sc);
        assert sets[i..][1..] == sets[i + 1..];
        RecordThen(Recorded(), a, b);
        RecordThen(Recorded(), a + b, WalkAssignments(k, sets[i + 1..], sc));
        ResolveEach("", sets[i].names, sc);
        VisitExpr(sets[i].value, sc);
      }
    }

    method VisitUpserts(sets: seq<Assignment>, target: Source, sc: Scope, inner: Scope)
      modifies this
      ensures Recorded() == RecordAll(old(Recorded()), WalkUpserts(k, sets, target, sc, inner))
      decreases sets
    {
      for i := 0 to |sets|
        invariant RecordAll(Recorded(), WalkUpserts(k, sets[i..], target, sc, inner))
                  == RecordAll(old(Recorded()), WalkUpserts(k, sets, target, sc, inner))
      {
        var a, b := OnTarget(k, target, sets[i].names, sc), WalkExpr(k, sets[i].value, inner);
        assert sets[i..][1..] == sets[i + 1..];
        RecordThen(Recorded(), a, b);
        RecordThen(Recorded(), a + b, WalkUpserts(k, sets[i + 1..], target, sc, inner));
        if target.columns.Some? { ResolveEach(target.alias, sets[i].names, sc); }
        VisitExpr(sets[i].value, inner);
      }
    }

    method VisitConflict(c: Conflict, target: Source, sc: Scope)
      modifies this
      ensures Recorded() == RecordAll(old(Recorded()), WalkConflict(k, c, target, sc))
      decreases c
    {
      if target.columns.Some? { ResolveEach(target.alias, c.names, sc); }
      var inner := WithSource(Nested(sc), Unknown(k, c.site, "excluded"));
      VisitUpserts(c.sets, target, sc, inner);
      VisitExprs(c.filters, inner);
      var a, b := OnTarget(k, target, c.names, sc), WalkUpserts(k, c.sets, target, sc, inner);
      RecordThen(old(Recorded()), a, b);
      RecordThen(old(Recorded()), a + b, WalkExprs(k, c.filters, inner));
    }

    method CheckInsert(s: Statement)
      requires s.Insert?
      modifies this
      ensures Recorded() == RecordAll(old(Recorded()), WalkStatement(k, s))
      decreases s, 0
    {
      var with := Push(s.ctes, Outside);
      var target := TargetSource(k, s.target, Nested(with));
      var sc := WithSource(Nested(with), target);
      if target.columns.Some? { ResolveEach(target.alias, s.names, sc); }
      var w, n := PushCtes(k, s.ctes, Outside).reports, OnTarget(k, target, s.names, sc);
      RecordThen(old(Recorded()), w, n);
      ghost var before := Recorded();
      for i := 0 to |s.rows|
        invariant RecordAll(Recorded(), WalkQueries(k, s.rows[i..], with))
                  == RecordAll(before, WalkQueries(k, s.rows, with))
      {
        assert s.rows[i..][1..] == s.rows[i + 1..];
        RecordThen(Recorded(), WalkQuery(k, s.rows[i], with), WalkQueries(k, s.rows[i + 1..], with));
        CheckQuery(s.rows[i], with);
      }
      RecordThen(old(Recorded()), w + n, WalkQueries(k, s.rows, with));
      ghost var between := Recorded();
      for i := 0 to |s.conflicts|
        invariant RecordAll(Recorded(), WalkConflicts(k, s.conflicts[i..], target, sc))
                  == RecordAll(between, WalkConflicts(k, s.conflicts, target, sc))
      {
        assert s.conflicts[i..][1..] == s.conflicts[i + 1..];
        RecordThen(Recorded(), WalkConflict(k, s.conflicts[i], target, sc),
                   WalkConflicts(k, s.conflicts[i + 1..], target, sc));
        VisitConflict(s.conflicts[i], target, sc);
      }
      RecordThen(old(Recorded()), w + n + WalkQueries(k, s.rows, with), WalkConflicts(k, s.conflicts, target, sc));
      VisitExprs(s.returning, sc);
      RecordThen(old(Recorded()), w + n + WalkQueries(k, s.rows, with) + WalkConflicts(k, s.conflicts, target, sc),
                 WalkExprs(k, s.returning, sc));
    }

    method CheckUpdate(s: Statement)
      requires s.Update?
      modifies this
      ensures Recorded() == RecordAll(old(Recorded()), WalkStatement(k, s))
      decreases s, 0
    {
      var with := Push(s.ctes, Outside);
      var start := WithSource(Nested(with), TargetSource(k, s.target, Nested(with)));
      var sc := AddEach(s.from, start);
      VisitAssignments(s.sets, sc);
      VisitExprs(s.filter, sc);
      VisitExprs(s.returning, sc);
      var w, t := PushCtes(k, s.ctes, Outside).reports, AddTables(k, s.from, start).reports;
      var a, f := WalkAssignments(k, s.sets, sc), WalkExprs(k, s.filter, sc);
      RecordThen(old(Recorded()), w, t);
      RecordThen(old(Recorded()), w + t, a);
      RecordThen(old(Recorded()), w + t + a, f);
      RecordThen(old(Recorded()), w + t + a + f, WalkExprs(k, s.returning, sc));
    }

    method CheckDelete(s: Statement)
      requires s.Delete?
      modifies this
      ensures Recorded() == RecordAll(old(Recorded()), WalkStatement(k, s))
      decreases s, 0
    {
      var with := Push(s.ctes, Outside);
      var start := WithSource(Nested(with), TargetSource(k, s.target, Nested(with)));
      var sc := AddEach(s.from, start);
      VisitExprs(s.filter, sc);
      VisitExprs(s.returning, sc);
      var w, t := PushCtes(k, s.ctes, Outside).reports, AddTables(k, s.from, start).reports;
      var f := WalkExprs(k, s.filter, sc);
      RecordThen(old(Recorded()), w, t);
      RecordThen(old(Recorded()), w + t, f);
      RecordThen(old(Recorded()), w + t + f, WalkExprs(k, s.returning, sc));
    }

    method CheckStatement(s: Statement)
      modifies this
      ensures Recorded() == RecordAll(old(Recorded()), WalkStatement(k, s))
      decreases s, 1
    {
      match s
      case Select(query) => CheckQuery(query, Outside);
      case Insert(_, _, _, _, _, _) => CheckInsert(s);
      case Update(_, _, _, _, _, _) => CheckUpdate(s);
      case Delete(_, _, _, _, _) => CheckDelete(s);
      case OtherStatement =>
    }
  }

  // ---- the whole input ----

  function WalkAll(k: Knowledge, stmts: seq<Statement>): seq<Report> {
    if stmts == [] then [] else WalkStatement(k, stmts[0]) + WalkAll(k, stmts[1..])
  }

  /** The errors for the whole input. */
  function Errors(k: Knowledge, stmts: seq<Statement>): seq<Report> {
    RecordAll(Log({}, []), WalkAll(k, stmts)).errs
  }

  method CheckColumnNames(k: Knowledge, stmts: seq<Statement>) returns (errs: seq<Report>)
    ensures errs == Errors(k, stmts)
  {
    var c := new ColumnChecker(k);
    for i := 0 to |stmts|
      invariant fresh(c) && c.k == k
      invariant RecordAll(c.Recorded(), WalkAll(k, stmts[i..])) == RecordAll(Log({}, []), WalkAll(k, stmts))
    {
      assert stmts[i..][1..] == stmts[i + 1..];
      RecordThen(c.Recorded(), WalkStatement(k, stmts[i]), WalkAll(k, stmts[i + 1..]));
      c.CheckStatement(stmts[i]);
    }
    return c.errs;
  }

  function Keys(reports: seq<Report>): set<Name> {
    set r | r in reports :: r.key
  }

  predicate OncePerKey(errs: seq<Report>) {
    forall i, j :: 0 <= i < j < |errs| ==> errs[i].key != errs[j].key
  }

  /** Deduplication keeps every key, once, with the first report that has it. */
  lemma {:induction false} RecordedOnce(log: Log, reports: seq<Report>)
    requires Keys(log.errs) == log.seen && OncePerKey(log.errs)
    ensures var out := RecordAll(log, reports);
            out.seen == Keys(out.errs) == log.seen + Keys(reports) && OncePerKey(out.errs) && log.errs <= out.errs
    decreases |reports|
  {
    if reports != [] {
      var next := Record(log, reports[0]);
      KeysThen(log.errs, [reports[0]]);
      KeysThen([reports[0]], reports[1..]);
      assert [reports[0]] + reports[1..] == reports;
      assert reports[0] in [reports[0]];
      RecordedOnce(next, reports[1..]);
    }
  }

  lemma KeysThen(a: seq<Report>, b: seq<Report>)
    ensures Keys(a + b) == Keys(a) + Keys(b)
  {
  }

  lemma {:induction false} AllDim(k': Knowledge, k: Knowledge, stmts: seq<Statement>)
    requires NameMonotone.KnowsLess(k', k)
    ensures NameMonotone.Within(WalkAll(k', stmts), WalkAll(k, stmts))
  {
    if stmts != [] {
      NameMonotone.StatementDims(k', k, stmts[0]);
      AllDim(k', k, stmts[1..]);
      NameMonotone.Both(WalkStatement(k', stmts[0]), WalkStatement(k, stmts[0]),
                        WalkAll(k', stmts[1..]), WalkAll(k, stmts[1..]));
    }
  }

  /** Over whole inputs: each key is reported once, and withholding column lists never adds a key. */
  lemma KnowingLessReportsNoMore(k': Knowledge, k: Knowledge, stmts: seq<Statement>)
    requires NameMonotone.KnowsLess(k', k)
    ensures OncePerKey(Errors(k, stmts)) && Keys(Errors(k, stmts)) == Keys(WalkAll(k, stmts))
    ensures Keys(Errors(k', stmts)) <= Keys(Errors(k, stmts))
  {
    RecordedOnce(Log({}, []), WalkAll(k, stmts));
    RecordedOnce(Log({}, []), WalkAll(k', stmts));
    AllDim(k', k, stmts);
    forall key | key in Keys(WalkAll(k', stmts)) ensures key in Keys(WalkAll(k, stmts)) {
      var r :| r in WalkAll(k', stmts) && r.key == key;
      assert (r.key, r.kind) in NameMonotone.Marks(WalkAll(k', stmts));
      assert (r.key, r.kind) in NameMonotone.Marks(WalkAll(k, stmts));
    }
  }

  /**
   What the program reports for an input is an error, of that kind and under that key,
   however the column lists it does not know are filled in: those of tables outside the
   catalog, and, node by node, those it cannot infer.
   */
  lemma SoundUnderEveryFilling(fold: Folding, table: Name -> Option<seq<Name>>, k: Knowledge, stmts: seq<Statement>)
    requires NameMonotone.Fills(k, fold, table)
    ensures NameMonotone.Marks(Errors(AsFound(fold, table), stmts)) <= NameMonotone.Marks(WalkAll(k, stmts))
    ensures Keys(Errors(AsFound(fold, table), stmts)) <= Keys(Errors(k, stmts))
  {
    var found := AsFound(fold, table);
    NameMonotone.FillingKnowsMore(k, fold, table);
    KnowingLessReportsNoMore(found, k, stmts);
    AllDim(found, k, stmts);
    RecordedIsReported(Log({}, []), WalkAll(found, stmts));
  }

  /** Of several reports with one key, the first is the one kept. */
  lemma {:induction false} FirstIsKept(log: Log, reports: seq<Report>, i: nat)
    requires i < |reports| && reports[i].key !in log.seen && forall j :: 0 <= j < i ==> reports[j].key != reports[i].key
    ensures reports[i] in RecordAll(log, reports).errs
    decreases |reports|
  {
    var next := Record(log, reports[0]);
    if i == 0 {
      StaysRecorded(next, reports[1..], reports[0]);
    } else {
      FirstIsKept(next, reports[1..], i - 1);
    }
  }

  lemma {:induction false} StaysRecorded(log: Log, reports: seq<Report>, r: Report)
    requires r in log.errs
    ensures r in RecordAll(log, reports).errs
    decreases |reports|
  {
    if reports != [] { StaysRecorded(Record(log, reports[0]), reports[1..], r); }
  }

  lemma {:induction false} RecordedIsReported(log: Log, reports: seq<Report>)
    ensures forall r :: r in RecordAll(log, reports).errs ==> r in log.errs || r in reports
    decreases |reports|
  {
    if reports != [] { RecordedIsReported(Record(log, reports[0]), reports[1..]); }
  }
}
