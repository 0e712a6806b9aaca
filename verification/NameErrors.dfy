/** The errors for a whole input, against the names it mentions. */
module NameErrors {

  import opened Options
  import opened NameScope
  import opened NameWalk
  import opened NamePlaces
  import opened NameMentions
  import opened NameChecker

  /** The name is mentioned somewhere in the input. */
  ghost predicate MentionedIn(k: Knowledge, stmts: seq<Statement>, m: Place) {
    exists i :: 0 <= i < |stmts| && Mentions(k, AtStatement(stmts[i]), m)
  }

  /** It names something: nothing at all, as `*` does, or a column, a select alias, or a column both sides may share. */
  ghost predicate NamesSomething(k: Knowledge, m: Place) {
    match m
    case AtName(ref, sc) => ref.name == "" || Names(ref, sc, k.fold)
    case AtUsing(name, sc) => exists i :: 0 <= i < |SourcesOf(sc)| && HasColumn(SourcesOf(sc)[i], name, k.fold)
    case _ => false
  }

  /** It does so under some way of filling in the lists not known where it stands. */
  ghost predicate MayNameSomething(k: Knowledge, m: Place) {
    match m
    case AtName(ref, sc) => exists full :: Completes(full, sc) && NamesSomething(k, AtName(ref, full))
    case AtUsing(name, sc) => exists full :: Completes(full, sc) && NamesSomething(k, AtUsing(name, full))
    case _ => false
  }

  lemma {:induction false} AllReport(k: Knowledge, stmts: seq<Statement>, r: Report)
    ensures r in WalkAll(k, stmts) <==> exists i :: 0 <= i < |stmts| && r in WalkStatement(k, stmts[i])
  {
    if stmts != [] {
      AllReport(k, stmts[1..], r);
      assert forall i :: 0 < i < |stmts| ==> stmts[i] == stmts[1..][i - 1];
      if i :| 0 <= i < |stmts| - 1 && r in WalkStatement(k, stmts[1..][i]) {
        assert r in WalkStatement(k, stmts[i + 1]);
      }
    }
  }

  /** Over the whole input the walk reports what is wrong with the names mentioned, and nothing else. */
  lemma {:induction false} AllComplaints(k: Knowledge, stmts: seq<Statement>, r: Report)
    ensures r in WalkAll(k, stmts) <==>
            exists m :: MentionedIn(k, stmts, m) && Complaint(k, m) == Some(r)
  {
    AllReport(k, stmts, r);
    if i :| 0 <= i < |stmts| && r in WalkStatement(k, stmts[i]) {
      ReportsAreComplaints(k, stmts[i], r);
      var m :| Explains(k, AtStatement(stmts[i]), m, r);
      assert MentionedIn(k, stmts, m);
    }
    if m :| MentionedIn(k, stmts, m) && Complaint(k, m) == Some(r) {
      var i :| 0 <= i < |stmts| && Mentions(k, AtStatement(stmts[i]), m);
      assert Explains(k, AtStatement(stmts[i]), m, r);
      ReportsAreComplaints(k, stmts[i], r);
    }
  }

  /** A key is among the errors exactly when some name mentioned in the input has a complaint under it. */
  lemma {:induction false} ErrorsAreComplaints(k: Knowledge, stmts: seq<Statement>, key: Name)
    ensures key in Keys(Errors(k, stmts)) <==>
            exists m :: MentionedIn(k, stmts, m) && Complaint(k, m).Some?
                        && Complaint(k, m).value.key == key
  {
    RecordedOnce(Log({}, []), WalkAll(k, stmts));
    if key in Keys(WalkAll(k, stmts)) {
      var r :| r in WalkAll(k, stmts) && r.key == key;
      AllComplaints(k, stmts, r);
    }
    if m :| MentionedIn(k, stmts, m) && Complaint(k, m).Some?
            && Complaint(k, m).value.key == key {
      AllComplaints(k, stmts, Complaint(k, m).value);
    }
  }

  // ---- silence ----

  lemma UsingMayName(k: Knowledge, name: Name, sc: Scope)
    requires k.fold.same(name, name)
    ensures Complaint(k, AtUsing(name, sc)).None? <==> MayNameSomething(k, AtUsing(name, sc))
  {
    var sources := SourcesOf(sc);
    if ColumnExistsInScope(sc, name, k.fold) {
      var i :| 0 <= i < |sources| && (sources[i].columns.None? || HasColumn(sources[i], name, k.fold));
      var full := FillScope(sc, i, [name]);
      assert ContainsFold([name], name, k.fold) by { assert k.fold.same([name][0], name); }
      assert HasColumn(SourcesOf(full)[i], name, k.fold);
      assert Completes(full, sc) && NamesSomething(k, AtUsing(name, full));
    }
    if full :| Completes(full, sc) && NamesSomething(k, AtUsing(name, full)) {
      SourcesDim(sc, full);
      var i :| 0 <= i < |SourcesOf(full)| && HasColumn(SourcesOf(full)[i], name, k.fold);
      assert sources[i].columns.None? || HasColumn(sources[i], name, k.fold);
    }
  }

  lemma NameMayName(k: Knowledge, ref: ColumnRef, sc: Scope)
    requires k.fold.same(ref.name, ref.name)
    ensures Complaint(k, AtName(ref, sc)).None? <==> MayNameSomething(k, AtName(ref, sc))
  {
    if ref.name == "" {
      var full := FillScope(sc, 0, []);
      assert Completes(full, sc) && NamesSomething(k, AtName(ref, full));
    } else {
      ReportedIffUnavoidable(ref, sc, k.fold);
      assert forall full :: NamesSomething(k, AtName(ref, full)) <==> Names(ref, full, k.fold);
    }
  }

  /**
   No error is returned exactly when every name mentioned in the input may name something,
   the lists that are not known being what they may.
   */
  lemma {:induction false} SilentIffAllMayName(k: Knowledge, stmts: seq<Statement>)
    requires forall n :: k.fold.same(n, n)
    ensures Errors(k, stmts) == [] <==>
            forall m :: MentionedIn(k, stmts, m) ==> MayNameSomething(k, m)
  {
    RecordedOnce(Log({}, []), WalkAll(k, stmts));
    forall m: Place | m.AtName? || m.AtUsing?
      ensures Complaint(k, m).None? <==> MayNameSomething(k, m) {
      if m.AtName? { NameMayName(k, m.ref, m.scope); } else { UsingMayName(k, m.name, m.scope); }
    }
    if Errors(k, stmts) != [] {
      var r := Errors(k, stmts)[0];
      assert r.key in Keys(Errors(k, stmts));
      ErrorsAreComplaints(k, stmts, r.key);
    }
    if m :| MentionedIn(k, stmts, m) && !MayNameSomething(k, m) {
      ErrorsAreComplaints(k, stmts, Complaint(k, m).value.key);
    }
  }

  /** With every list known, no error is returned exactly when every name names something. */
  lemma {:induction false} SilentIffAllName(k: Knowledge, stmts: seq<Statement>)
    requires forall m :: MentionedIn(k, stmts, m) ==> AllKnown(SourcesOf(m.scope))
    ensures Errors(k, stmts) == [] <==>
            forall m :: MentionedIn(k, stmts, m) ==> NamesSomething(k, m)
  {
    RecordedOnce(Log({}, []), WalkAll(k, stmts));
    forall m: Place | (m.AtName? || m.AtUsing?) && AllKnown(SourcesOf(m.scope))
      ensures Complaint(k, m).None? <==> NamesSomething(k, m)
    {
      if m.AtName? && m.ref.name != "" { SilenceIsExact(m.ref, m.scope, k.fold); }
    }
    if Errors(k, stmts) != [] {
      var r := Errors(k, stmts)[0];
      assert r.key in Keys(Errors(k, stmts));
      ErrorsAreComplaints(k, stmts, r.key);
    }
    if m :| MentionedIn(k, stmts, m) && !NamesSomething(k, m) {
      ErrorsAreComplaints(k, stmts, Complaint(k, m).value.key);
    }
  }
}
