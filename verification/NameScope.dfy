/**
 Resolving a column reference against a chain of scopes in which some column lists
 are not known, and what a report then says about every way the unknown lists could be.
 */
module NameScope {

  import opened Options

  type Name = string

  /** strings.ToLower and strings.EqualFold; nothing below depends on what they do. */
  datatype Folding = Folding(lower: Name -> Name, same: (Name, Name) -> bool)

  /** `columns` is None when the list cannot be known. */
  datatype Source = Source(alias: Name, columns: Option<seq<Name>>)

  /** A query block's frame; frames without a parent end in Outside. */
  datatype Scope =
    | Outside
    | Frame(parent: Scope, sources: seq<Source>, ctes: map<Name, Option<seq<Name>>>, aliases: set<Name>)

  datatype ColumnRef = ColumnRef(qualifier: Name, name: Name)

  datatype Kind = MissingTable | UnknownColumn | AmbiguousColumn

  /** One error: the key it is deduplicated by, and what it offers as replacements for the token. */
  datatype Report = Report(key: Name, kind: Kind, token: Name, candidates: seq<Name>)

  // ---- scope queries ----

  /** Every source in scope, innermost frame first, each frame in source order. */
  function SourcesOf(sc: Scope): seq<Source> {
    match sc
    case Outside => []
    case Frame(parent, sources, _, _) => sources + SourcesOf(parent)
  }

  function FirstNamed(sources: seq<Source>, want: Name, f: Folding): Option<Source> {
    if sources == [] then None
    else if f.lower(sources[0].alias) == want then Some(sources[0])
    else FirstNamed(sources[1..], want, f)
  }

  function LookupSource(sc: Scope, qualifier: Name, f: Folding): Option<Source> {
    FirstNamed(SourcesOf(sc), f.lower(qualifier), f)
  }

  predicate MatchesAlias(sc: Scope, name: Name, f: Folding) {
    match sc
    case Outside => false
    case Frame(parent, _, _, aliases) => f.lower(name) in aliases || MatchesAlias(parent, name, f)
  }

  predicate ContainsFold(names: seq<Name>, target: Name, f: Folding) {
    exists i :: 0 <= i < |names| && f.same(names[i], target)
  }

  predicate HasColumn(s: Source, name: Name, f: Folding) {
    s.columns.Some? && ContainsFold(s.columns.value, name, f)
  }

  function Matching(sources: seq<Source>, name: Name, f: Folding): seq<Name> {
    if sources == [] then []
    else (if HasColumn(sources[0], name, f) then [sources[0].alias] else []) + Matching(sources[1..], name, f)
  }

  predicate AnyUnknown(sources: seq<Source>) {
    exists i :: 0 <= i < |sources| && sources[i].columns.None?
  }

  function KnownColumns(sources: seq<Source>): seq<Name> {
    if sources == [] then []
    else (if sources[0].columns.Some? then sources[0].columns.value else []) + KnownColumns(sources[1..])
  }

  /** Each name once, the first spelling of it. */
  function Distinct(names: seq<Name>, f: Folding): seq<Name> {
    if names == [] then []
    else
      var rest, last := Distinct(names[..|names| - 1], f), names[|names| - 1];
      if exists i :: 0 <= i < |names| - 1 && f.lower(names[i]) == f.lower(last) then rest else rest + [last]
  }

  function AvailableColumns(sc: Scope, f: Folding): seq<Name> {
    Distinct(KnownColumns(SourcesOf(sc)), f)
  }

  function Aliases(sources: seq<Source>): seq<Name> {
    if sources == [] then []
    else (if sources[0].alias != "" then [sources[0].alias] else []) + Aliases(sources[1..])
  }

  /** The column is in some source in scope, or may be. */
  predicate ColumnExistsInScope(sc: Scope, name: Name, f: Folding) {
    exists i :: 0 <= i < |SourcesOf(sc)| &&
      (SourcesOf(sc)[i].columns.None? || HasColumn(SourcesOf(sc)[i], name, f))
  }

  function LookupCte(sc: Scope, want: Name): Option<Option<seq<Name>>> {
    match sc
    case Outside => None
    case Frame(parent, _, ctes, _) => if want in ctes then Some(ctes[want]) else LookupCte(parent, want)
  }

  // ---- resolving ----

  function ResolveQualified(ref: ColumnRef, sc: Scope, f: Folding): Option<Report> {
    match LookupSource(sc, ref.qualifier, f)
    case None =>
      Some(Report(f.lower(ref.qualifier), MissingTable, ref.qualifier, Aliases(SourcesOf(sc))))
    case Some(src) =>
      if src.columns.None? || ContainsFold(src.columns.value, ref.name, f) then None
      else Some(Report(f.lower(ref.qualifier + "." + ref.name), UnknownColumn, ref.name, src.columns.value))
  }

  function ResolveUnqualified(ref: ColumnRef, sc: Scope, f: Folding): Option<Report> {
    if MatchesAlias(sc, ref.name, f) then None
    else
      var matches := Matching(SourcesOf(sc), ref.name, f);
      var key := f.lower(ref.qualifier + "." + ref.name);
      if |matches| == 1 then None
      else if |matches| >= 2 then Some(Report(key, AmbiguousColumn, ref.name, []))
      else if AnyUnknown(SourcesOf(sc)) then None
      else Some(Report(key, UnknownColumn, ref.name, AvailableColumns(sc, f)))
  }

  function Resolve(ref: ColumnRef, sc: Scope, f: Folding): Option<Report> {
    if ref.name == "" then None
    else if ref.qualifier != "" then ResolveQualified(ref, sc, f)
    else ResolveUnqualified(ref, sc, f)
  }

  /** What is reported, without the payload. */
  function Verdict(ref: ColumnRef, sc: Scope, f: Folding): Option<Kind> {
    match Resolve(ref, sc, f)
    case None => None
    case Some(r) => Some(r.kind)
  }

  // ---- scopes that know less ----

  predicate DimmerColumns(less: Option<seq<Name>>, more: Option<seq<Name>>) {
    less.None? || less == more
  }

  predicate DimmerSources(less: seq<Source>, more: seq<Source>) {
    |less| == |more| &&
    forall i :: 0 <= i < |less| ==> less[i].alias == more[i].alias && DimmerColumns(less[i].columns, more[i].columns)
  }

  /** The same scopes with some of the known lists made unknown. */
  predicate Dimmer(less: Scope, more: Scope) {
    match (less, more)
    case (Outside, Outside) => true
    case (Frame(p, s, c, a), Frame(p', s', c', a')) =>
      && Dimmer(p, p') && DimmerSources(s, s') && a == a'
      && c.Keys == c'.Keys && (forall k :: k in c ==> DimmerColumns(c[k], c'[k]))
    case _ => false
  }

  predicate AllKnown(sources: seq<Source>) {
    !AnyUnknown(sources)
  }

  /** Every unknown column list filled in somehow, everything else the same. */
  predicate Completes(full: Scope, sc: Scope) {
    Dimmer(sc, full) && AllKnown(SourcesOf(full))
  }

  lemma {:induction false} SourcesDim(less: Scope, more: Scope)
    requires Dimmer(less, more)
    ensures DimmerSources(SourcesOf(less), SourcesOf(more))
  {
    if less.Frame? { SourcesDim(less.parent, more.parent); }
  }

  lemma {:induction false} FirstNamedDims(less: seq<Source>, more: seq<Source>, want: Name, f: Folding)
    requires DimmerSources(less, more)
    ensures match FirstNamed(less, want, f)
            case None => FirstNamed(more, want, f).None?
            case Some(s) => FirstNamed(more, want, f).Some? && s.alias == FirstNamed(more, want, f).value.alias
                            && DimmerColumns(s.columns, FirstNamed(more, want, f).value.columns)
  {
    if less != [] && f.lower(less[0].alias) != want {
      FirstNamedDims(less[1..], more[1..], want, f);
    }
  }

  lemma {:induction false} MatchingDims(less: seq<Source>, more: seq<Source>, name: Name, f: Folding)
    requires DimmerSources(less, more)
    ensures |Matching(less, name, f)| <= |Matching(more, name, f)|
    ensures AllKnown(less) ==> less == more
  {
    if less != [] {
      MatchingDims(less[1..], more[1..], name, f);
      if AllKnown(less) {
        assert forall i :: 0 <= i < |less| ==> less[i] == more[i];
      }
    }
  }

  lemma {:induction false} AliasDims(less: Scope, more: Scope, name: Name, f: Folding)
    requires Dimmer(less, more)
    ensures MatchesAlias(less, name, f) == MatchesAlias(more, name, f)
  {
    if less.Frame? { AliasDims(less.parent, more.parent, name, f); }
  }

  /** What is reported with less known is reported, under the same key, with more known. */
  lemma ResolveDims(ref: ColumnRef, less: Scope, more: Scope, f: Folding)
    requires Dimmer(less, more)
    ensures Resolve(ref, less, f).Some? ==>
              && Resolve(ref, more, f).Some?
              && Resolve(ref, more, f).value.key == Resolve(ref, less, f).value.key
              && Resolve(ref, more, f).value.kind == Resolve(ref, less, f).value.kind
  {
    SourcesDim(less, more);
    FirstNamedDims(SourcesOf(less), SourcesOf(more), f.lower(ref.qualifier), f);
    MatchingDims(SourcesOf(less), SourcesOf(more), ref.name, f);
    AliasDims(less, more, ref.name, f);
  }

  lemma ExistsDims(less: Scope, more: Scope, name: Name, f: Folding)
    requires Dimmer(less, more) && ColumnExistsInScope(more, name, f)
    ensures ColumnExistsInScope(less, name, f)
  {
    SourcesDim(less, more);
    var i :| 0 <= i < |SourcesOf(more)| &&
      (SourcesOf(more)[i].columns.None? || HasColumn(SourcesOf(more)[i], name, f));
    assert SourcesOf(less)[i].columns.None? || HasColumn(SourcesOf(less)[i], name, f);
  }

  // ---- silence when everything is known ----

  /**
   The reference names something: a select alias, exactly one column, or a column of the
   innermost source so named.
   */
  ghost predicate Names(ref: ColumnRef, sc: Scope, f: Folding) {
    if ref.qualifier != "" then
      exists i :: 0 <= i < |SourcesOf(sc)| && IsInnermost(SourcesOf(sc), i, ref.qualifier, f)
                  && HasColumn(SourcesOf(sc)[i], ref.name, f)
    else
      || MatchesAlias(sc, ref.name, f)
      || exists i :: IsOnlyMatch(SourcesOf(sc), i, ref.name, f)
  }

  predicate IsInnermost(sources: seq<Source>, i: int, qualifier: Name, f: Folding) {
    && 0 <= i < |sources| && f.lower(sources[i].alias) == f.lower(qualifier)
    && forall j :: 0 <= j < i ==> f.lower(sources[j].alias) != f.lower(qualifier)
  }

  predicate IsOnlyMatch(sources: seq<Source>, i: int, name: Name, f: Folding) {
    && 0 <= i < |sources| && HasColumn(sources[i], name, f)
    && forall j :: 0 <= j < |sources| && j != i ==> !HasColumn(sources[j], name, f)
  }

  lemma {:induction false} FirstNamedIsInnermost(sources: seq<Source>, qualifier: Name, f: Folding)
    ensures match FirstNamed(sources, f.lower(qualifier), f)
            case None => forall i :: !IsInnermost(sources, i, qualifier, f)
            case Some(s) => exists i :: IsInnermost(sources, i, qualifier, f) && sources[i] == s
  {
    if sources != [] {
      if f.lower(sources[0].alias) == f.lower(qualifier) {
        assert IsInnermost(sources, 0, qualifier, f);
      } else {
        FirstNamedIsInnermost(sources[1..], qualifier, f);
        var found := FirstNamed(sources[1..], f.lower(qualifier), f);
        if found.Some? {
          var i :| IsInnermost(sources[1..], i, qualifier, f) && sources[1..][i] == found.value;
          assert IsInnermost(sources, i + 1, qualifier, f);
        } else {
          forall i ensures !IsInnermost(sources, i, qualifier, f) {
            if IsInnermost(sources, i, qualifier, f) { assert IsInnermost(sources[1..], i - 1, qualifier, f); }
          }
        }
      }
    }
  }

  lemma {:induction false} MatchingCounts(sources: seq<Source>, name: Name, f: Folding)
    ensures |Matching(sources, name, f)| == 0 <==> forall i :: 0 <= i < |sources| ==> !HasColumn(sources[i], name, f)
    ensures |Matching(sources, name, f)| == 1 <==> exists i :: IsOnlyMatch(sources, i, name, f)
  {
    if sources != [] {
      MatchingCounts(sources[1..], name, f);
      var rest := sources[1..];
      assert forall j :: 0 < j < |sources| ==> sources[j] == rest[j - 1];
      if |Matching(sources, name, f)| == 1 {
        if HasColumn(sources[0], name, f) {
          assert IsOnlyMatch(sources, 0, name, f);
        } else {
          var i :| IsOnlyMatch(rest, i, name, f);
          assert IsOnlyMatch(sources, i + 1, name, f);
        }
      } else if i :| IsOnlyMatch(sources, i, name, f) {
        if i > 0 {
          assert IsOnlyMatch(rest, i - 1, name, f);
        }
      }
    }
  }

  /** With every list known, nothing is reported exactly when the reference names something. */
  lemma SilenceIsExact(ref: ColumnRef, sc: Scope, f: Folding)
    requires ref.name != "" && AllKnown(SourcesOf(sc))
    ensures Resolve(ref, sc, f).None? <==> Names(ref, sc, f)
  {
    var sources := SourcesOf(sc);
    if ref.qualifier != "" {
      FirstNamedIsInnermost(sources, ref.qualifier, f);
    } else {
      MatchingCounts(sources, ref.name, f);
    }
  }

  // ---- the verdict, source by source ----

  /** The frames, innermost first. */
  function FramesOf(sc: Scope): (frames: seq<Scope>)
    ensures forall i :: 0 <= i < |frames| ==> frames[i].Frame?
  {
    if sc.Outside? then [] else [sc] + FramesOf(sc.parent)
  }

  lemma {:induction false} AliasSomewhere(sc: Scope, name: Name, f: Folding)
    ensures MatchesAlias(sc, name, f) <==>
            exists i :: 0 <= i < |FramesOf(sc)| && f.lower(name) in FramesOf(sc)[i].aliases
  {
    if sc.Frame? {
      AliasSomewhere(sc.parent, name, f);
      if i :| 0 <= i < |FramesOf(sc.parent)| && f.lower(name) in FramesOf(sc.parent)[i].aliases {
        assert FramesOf(sc)[i + 1] == FramesOf(sc.parent)[i];
      }
      if i :| 0 < i < |FramesOf(sc)| && f.lower(name) in FramesOf(sc)[i].aliases {
        assert FramesOf(sc)[i] == FramesOf(sc.parent)[i - 1];
      }
      assert FramesOf(sc)[0] == sc;
    }
  }

  /** Frame i has the CTE and no frame inside it does. */
  predicate CteInFrame(sc: Scope, want: Name, i: int) {
    && 0 <= i < |FramesOf(sc)| && want in FramesOf(sc)[i].ctes
    && forall j :: 0 <= j < i ==> want !in FramesOf(sc)[j].ctes
  }

  lemma {:induction false} CteInnermost(sc: Scope, want: Name, columns: Option<seq<Name>>)
    ensures LookupCte(sc, want) == Some(columns) <==>
            exists i :: CteInFrame(sc, want, i) && FramesOf(sc)[i].ctes[want] == columns
  {
    if sc.Frame? {
      CteInnermost(sc.parent, want, columns);
      assert FramesOf(sc)[0] == sc && FramesOf(sc)[1..] == FramesOf(sc.parent);
      if want in sc.ctes {
        assert CteInFrame(sc, want, 0);
      } else {
        if i :| CteInFrame(sc.parent, want, i) && FramesOf(sc.parent)[i].ctes[want] == columns {
          assert forall j :: 0 < j <= i + 1 ==> FramesOf(sc)[j] == FramesOf(sc.parent)[j - 1];
          assert CteInFrame(sc, want, i + 1);
        }
        if i :| CteInFrame(sc, want, i) && FramesOf(sc)[i].ctes[want] == columns {
          assert forall j :: 0 < j <= i ==> FramesOf(sc)[j] == FramesOf(sc.parent)[j - 1];
          assert CteInFrame(sc.parent, want, i - 1);
        }
      }
    }
  }

  predicate TwoMatch(sources: seq<Source>, i: int, j: int, name: Name, f: Folding) {
    0 <= i < j < |sources| && HasColumn(sources[i], name, f) && HasColumn(sources[j], name, f)
  }

  lemma Ambiguity(sources: seq<Source>, name: Name, f: Folding)
    ensures |Matching(sources, name, f)| >= 2 <==> exists i, j :: TwoMatch(sources, i, j, name, f)
  {
    MatchingCounts(sources, name, f);
    if |Matching(sources, name, f)| >= 2 {
      var i :| 0 <= i < |sources| && HasColumn(sources[i], name, f);
      assert !IsOnlyMatch(sources, i, name, f);
      var j :| 0 <= j < |sources| && j != i && HasColumn(sources[j], name, f);
      assert TwoMatch(sources, if i < j then i else j, if i < j then j else i, name, f);
    }
    if i, j :| TwoMatch(sources, i, j, name, f) {
      assert forall n :: IsOnlyMatch(sources, n, name, f) ==> n == i && n == j;
    }
  }

  /** The innermost source so named has a known list, without the column. */
  predicate LacksColumn(sources: seq<Source>, i: int, ref: ColumnRef, f: Folding) {
    && IsInnermost(sources, i, ref.qualifier, f) && sources[i].columns.Some?
    && !ContainsFold(sources[i].columns.value, ref.name, f)
  }

  ghost predicate NoneNamed(sources: seq<Source>, qualifier: Name, f: Folding) {
    forall i :: !IsInnermost(sources, i, qualifier, f)
  }

  ghost predicate SomeLacks(sources: seq<Source>, ref: ColumnRef, f: Folding) {
    exists i :: LacksColumn(sources, i, ref, f)
  }

  /** Which error a qualified reference is. */
  lemma QualifiedVerdict(ref: ColumnRef, sc: Scope, f: Folding)
    requires ref.name != "" && ref.qualifier != ""
    ensures Verdict(ref, sc, f) == if NoneNamed(SourcesOf(sc), ref.qualifier, f) then Some(MissingTable)
                                   else if SomeLacks(SourcesOf(sc), ref, f) then Some(UnknownColumn)
                                   else None
  {
    var sources := SourcesOf(sc);
    FirstNamedIsInnermost(sources, ref.qualifier, f);
    if LookupSource(sc, ref.qualifier, f).Some? {
      var i :| IsInnermost(sources, i, ref.qualifier, f) && sources[i] == LookupSource(sc, ref.qualifier, f).value;
      assert forall j :: IsInnermost(sources, j, ref.qualifier, f) ==> j == i;
      assert LacksColumn(sources, i, ref, f) <==> SomeLacks(sources, ref, f);
    }
  }

  ghost predicate SeveralMatch(sources: seq<Source>, name: Name, f: Folding) {
    exists i, j :: TwoMatch(sources, i, j, name, f)
  }

  predicate AllLack(sources: seq<Source>, name: Name, f: Folding) {
    forall i :: 0 <= i < |sources| ==> sources[i].columns.Some? && !ContainsFold(sources[i].columns.value, name, f)
  }

  /** And an unqualified one. */
  lemma UnqualifiedVerdict(ref: ColumnRef, sc: Scope, f: Folding)
    requires ref.name != "" && ref.qualifier == ""
    ensures Verdict(ref, sc, f) == if MatchesAlias(sc, ref.name, f) then None
                                   else if SeveralMatch(SourcesOf(sc), ref.name, f) then Some(AmbiguousColumn)
                                   else if AllLack(SourcesOf(sc), ref.name, f) then Some(UnknownColumn)
                                   else None
  {
    Ambiguity(SourcesOf(sc), ref.name, f);
    MatchingCounts(SourcesOf(sc), ref.name, f);
  }

  /** The key an error is deduplicated by, and the token it is about. */
  lemma ReportedUnder(ref: ColumnRef, sc: Scope, f: Folding)
    requires Resolve(ref, sc, f).Some?
    ensures var r := Resolve(ref, sc, f).value;
            if r.kind.MissingTable? then r.key == f.lower(ref.qualifier) && r.token == ref.qualifier
            else r.key == f.lower(ref.qualifier + "." + ref.name) && r.token == ref.name
  {
  }

  /** An empty name, as `*` has, is no error. */
  lemma NoNameNoError(ref: ColumnRef, sc: Scope, f: Folding)
    requires ref.name == ""
    ensures Resolve(ref, sc, f).None?
  {
  }

  /** Each name of the list once, in its first spelling. */
  lemma {:induction false} DistinctExactly(names: seq<Name>, f: Folding, n: Name)
    ensures n in Distinct(names, f) <==> exists i :: FirstSpelling(names, i, f) && names[i] == n
    ensures forall i, j :: 0 <= i < j < |Distinct(names, f)| ==>
              f.lower(Distinct(names, f)[i]) != f.lower(Distinct(names, f)[j])
  {
    if names != [] {
      var init, last := names[..|names| - 1], names[|names| - 1];
      DistinctExactly(init, f, n);
      forall m ensures m in Distinct(init, f) ==> exists i :: 0 <= i < |init| && init[i] == m {
        DistinctExactly(init, f, m);
      }
      assert forall i :: 0 <= i < |init| ==> (FirstSpelling(names, i, f) <==> FirstSpelling(init, i, f));
      if FirstSpelling(names, |init|, f) {
        assert forall i :: 0 <= i < |Distinct(init, f)| ==> Distinct(init, f)[i] in Distinct(init, f);
      }
    }
  }

  predicate FirstSpelling(names: seq<Name>, i: int, f: Folding) {
    0 <= i < |names| && forall j :: 0 <= j < i ==> f.lower(names[j]) != f.lower(names[i])
  }

  lemma {:induction false} KnownExactly(sources: seq<Source>, n: Name)
    ensures n in KnownColumns(sources) <==> SomeColumn(sources, n)
  {
    if sources != [] {
      var rest := sources[1..];
      KnownExactly(rest, n);
      assert forall i :: 0 < i < |sources| ==> sources[i] == rest[i - 1];
      if i :| 0 <= i < |rest| && rest[i].columns.Some? && n in rest[i].columns.value {
        assert sources[i + 1] == rest[i];
      }
    }
  }

  lemma {:induction false} AliasesExactly(sources: seq<Source>, n: Name)
    ensures n in Aliases(sources) <==> n != "" && SomeAlias(sources, n)
  {
    if sources != [] {
      var rest := sources[1..];
      AliasesExactly(rest, n);
      if i :| 0 <= i < |rest| && rest[i].alias == n { assert sources[i + 1] == rest[i]; }
      assert forall i :: 0 < i < |sources| ==> sources[i] == rest[i - 1];
    }
  }

  /** A source in scope has the alias. */
  predicate SomeAlias(sources: seq<Source>, n: Name) {
    exists i :: 0 <= i < |sources| && sources[i].alias == n
  }

  /** A source in scope is known to have the column. */
  predicate SomeColumn(sources: seq<Source>, n: Name) {
    exists i :: 0 <= i < |sources| && sources[i].columns.Some? && n in sources[i].columns.value
  }

  /** What is offered instead is in scope: a source's name, or a column of a source whose list is known. */
  lemma OfferedIsInScope(ref: ColumnRef, sc: Scope, f: Folding, n: Name)
    requires Resolve(ref, sc, f).Some? && n in Resolve(ref, sc, f).value.candidates
    ensures if Resolve(ref, sc, f).value.kind.MissingTable? then n != "" && SomeAlias(SourcesOf(sc), n)
            else SomeColumn(SourcesOf(sc), n)
  {
    var sources := SourcesOf(sc);
    AliasesExactly(sources, n);
    KnownExactly(sources, n);
    if ref.qualifier != "" {
      FirstNamedIsInnermost(sources, ref.qualifier, f);
    } else {
      DistinctExactly(KnownColumns(sources), f, n);
    }
  }

  // ---- every completion ----

  /** The unknown source at place k gets these columns, every other unknown one none at all. */
  function FillAt(sources: seq<Source>, k: int, columns: seq<Name>): (full: seq<Source>)
    ensures |full| == |sources| && AllKnown(full) && DimmerSources(sources, full)
    ensures forall i :: 0 <= i < |sources| && sources[i].columns.None? ==>
              full[i].columns == Some(if i == k then columns else [])
  {
    seq(|sources|, i requires 0 <= i < |sources| =>
      if sources[i].columns.Some? then sources[i] else sources[i].(columns := Some(if i == k then columns else [])))
  }

  function FillScope(sc: Scope, k: int, columns: seq<Name>): (full: Scope)
    ensures Dimmer(sc, full) && SourcesOf(full) == FillAt(SourcesOf(sc), k, columns)
  {
    match sc
    case Outside => Outside
    case Frame(parent, sources, ctes, aliases) =>
      Frame(FillScope(parent, k - |sources|, columns), FillAt(sources, k, columns), ctes, aliases)
  }

  /** Where the unknown source is that could answer a silent reference; -1 if none is needed. */
  lemma AnsweringSource(ref: ColumnRef, sc: Scope, f: Folding) returns (k: int)
    requires ref.name != "" && f.same(ref.name, ref.name) && Resolve(ref, sc, f).None?
    ensures Names(ref, FillScope(sc, k, [ref.name]), f)
  {
    var sources := SourcesOf(sc);
    assert ContainsFold([ref.name], ref.name, f) by { assert f.same([ref.name][0], ref.name); }
    k := -1;
    if ref.qualifier != "" {
      FirstNamedIsInnermost(sources, ref.qualifier, f);
      var i :| IsInnermost(sources, i, ref.qualifier, f) && sources[i] == LookupSource(sc, ref.qualifier, f).value;
      k := i;
      var full := FillAt(sources, k, [ref.name]);
      assert IsInnermost(full, i, ref.qualifier, f) && HasColumn(full[i], ref.name, f);
    } else if !MatchesAlias(sc, ref.name, f) {
      MatchingCounts(sources, ref.name, f);
      var i: int;
      if |Matching(sources, ref.name, f)| == 1 {
        i :| IsOnlyMatch(sources, i, ref.name, f);
      } else {
        i :| 0 <= i < |sources| && sources[i].columns.None?;
        k := i;
      }
      var full := FillAt(sources, k, [ref.name]);
      assert IsOnlyMatch(full, i, ref.name, f);
    } else {
      AliasDims(sc, FillScope(sc, k, [ref.name]), ref.name, f);
    }
  }

  /**
   A reference is reported as some kind of error exactly when it is that error however
   the unknown column lists are filled in; and when nothing is reported, some way of
   filling them in makes the reference name something.
   */
  lemma ReportedIffUnavoidable(ref: ColumnRef, sc: Scope, f: Folding)
    requires ref.name != "" && f.same(ref.name, ref.name)
    ensures forall kind :: Verdict(ref, sc, f) == Some(kind) <==>
              forall full | Completes(full, sc) :: Verdict(ref, full, f) == Some(kind)
    ensures Verdict(ref, sc, f).None? <==> exists full :: Completes(full, sc) && Names(ref, full, f)
  {
    forall full | Completes(full, sc)
      ensures Verdict(ref, sc, f).Some? ==> Verdict(ref, full, f) == Verdict(ref, sc, f)
      ensures Verdict(ref, full, f).None? <==> Names(ref, full, f)
    {
      ResolveDims(ref, sc, full, f);
      SilenceIsExact(ref, full, f);
    }
    var some := FillScope(sc, 0, []);
    assert Completes(some, sc);
    if Verdict(ref, sc, f).None? {
      var k := AnsweringSource(ref, sc, f);
      var full := FillScope(sc, k, [ref.name]);
      assert Completes(full, sc);
    }
  }
}
