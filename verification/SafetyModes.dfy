/** Which statements a safety mode admits, and which mode a rejection suggests instead. */
module SafetyModes {

  import opened Options

  datatype Mode = ReadOnly | SafeWrite | FullAccess | UnknownMode(name: string)

  datatype Operation = Explain | Simulate | Execute | UnknownOperation

  datatype StatementType = TypeDDL | TypeDML | TypeDCL | TypeTCL

  /** A parsed statement, as the answers of the predicates the rules ask. */
  datatype Statement = Statement(
    tag: string,
    explains: bool,        // an EXPLAIN or EXPLAIN ANALYZE node
    statementType: StatementType,
    clusterAdmin: bool,    // isClusterAdminStmt
    tenantDml: bool,       // isTenantMgmtDMLStmt
    modifiesSchema: bool,
    writesData: bool)

  datatype ViolationKind =
    | KindOther | KindWrite | KindSchema | KindPrivilege | KindClusterAdmin | KindNestedExplain | KindUnimplemented
    | KindBadOpInput

  datatype Violation = Violation(tag: string, mode: Mode, op: Operation, kind: ViolationKind)

  // ---- the rules ----

  function ClassifyDcl(s: Statement, mode: Mode, op: Operation): Option<Violation> {
    if !s.statementType.TypeDCL? then None
    else Some(Violation(s.tag, mode, op, if s.clusterAdmin then KindClusterAdmin else KindPrivilege))
  }

  /** What every mode below full_access refuses: nested EXPLAIN, privileges, cluster and tenant administration. */
  function ClassifyCommon(s: Statement, mode: Mode, op: Operation): Option<Violation> {
    if s.explains then Some(Violation(s.tag, mode, op, KindNestedExplain))
    else match ClassifyDcl(s, mode, op)
      case Some(v) => Some(v)
      case None => if s.tenantDml then Some(Violation(s.tag, mode, op, KindClusterAdmin)) else None
  }

  function ClassifyReadOnly(s: Statement, op: Operation): Option<Violation> {
    match op
    case UnknownOperation => Some(Violation(s.tag, ReadOnly, op, KindOther))
    case Simulate =>
      if s.explains then Some(Violation(s.tag, ReadOnly, op, KindNestedExplain))
      else if s.statementType.TypeDDL? || s.statementType.TypeDML? then None
      else Some(Violation(s.tag, ReadOnly, op, KindBadOpInput))
    case _ =>
      match ClassifyCommon(s, ReadOnly, op)
      case Some(v) => Some(v)
      case None =>
        if s.modifiesSchema then Some(Violation(s.tag, ReadOnly, op, KindSchema))
        else if s.writesData then Some(Violation(s.tag, ReadOnly, op, KindWrite))
        else None
  }

  function ClassifySafeWriteExecute(s: Statement): Option<Violation> {
    match ClassifyCommon(s, SafeWrite, Execute)
    case Some(v) => Some(v)
    case None => if s.modifiesSchema then Some(Violation(s.tag, SafeWrite, Execute, KindSchema)) else None
  }

  function ClassifySafeWriteExplain(s: Statement): Option<Violation> {
    ClassifyCommon(s, SafeWrite, Explain)
  }

  function Classify(mode: Mode, op: Operation, s: Statement): Option<Violation> {
    match mode
    case ReadOnly => ClassifyReadOnly(s, op)
    case SafeWrite =>
      (match op
       case Execute => ClassifySafeWriteExecute(s)
       case Explain => ClassifySafeWriteExplain(s)
       case _ => Some(Violation(s.tag, mode, op, KindUnimplemented)))
    case FullAccess =>
      (match op
       case Execute => None
       case Explain => None
       case _ => Some(Violation(s.tag, mode, op, KindUnimplemented)))
    case UnknownMode(_) => Some(Violation(s.tag, mode, op, KindOther))
  }

  function FirstViolation(mode: Mode, op: Operation, stmts: seq<Statement>): Option<Violation> {
    if stmts == [] then None
    else match Classify(mode, op, stmts[0])
      case Some(v) => Some(v)
      case None => FirstViolation(mode, op, stmts[1..])
  }

  function CheckParsed(mode: Mode, op: Operation, stmts: seq<Statement>): Option<Violation> {
    if stmts == [] then Some(Violation("EMPTY", mode, op, KindOther)) else FirstViolation(mode, op, stmts)
  }

  predicate Admits(mode: Mode, op: Operation, stmts: seq<Statement>) {
    CheckParsed(mode, op, stmts).None?
  }

  // ---- the suggestion ----

  function EscalationTarget(v: Violation): Option<Mode> {
    if v.kind in {KindNestedExplain, KindUnimplemented, KindBadOpInput, KindOther} then None
    else if !(v.op.Explain? || v.op.Execute?) then None
    else match v.mode
      case ReadOnly =>
        (match v.kind
         case KindWrite => Some(SafeWrite)
         case KindSchema => if v.op.Explain? then Some(SafeWrite) else Some(FullAccess)
         case KindPrivilege => Some(FullAccess)
         case KindClusterAdmin => Some(FullAccess)
         case _ => None)
      case SafeWrite => if v.kind in {KindSchema, KindPrivilege, KindClusterAdmin} then Some(FullAccess) else None
      case _ => None
  }

  // ---- modes in order ----

  function Rank(mode: Mode): nat {
    match mode
    case ReadOnly => 0
    case SafeWrite => 1
    case FullAccess => 2
    case UnknownMode(_) => 3
  }

  predicate Known(mode: Mode) {
    !mode.UnknownMode?
  }

  predicate Escalates(op: Operation) {
    op.Explain? || op.Execute?
  }

  /** A batch is admitted exactly when it is not empty and every statement is. */
  lemma {:induction false} AdmitsEach(mode: Mode, op: Operation, stmts: seq<Statement>)
    ensures FirstViolation(mode, op, stmts).None? <==>
            forall i :: 0 <= i < |stmts| ==> Classify(mode, op, stmts[i]).None?
  {
    if stmts != [] {
      AdmitsEach(mode, op, stmts[1..]);
      assert forall i :: 0 < i < |stmts| ==> stmts[i] == stmts[1..][i - 1];
    }
  }

  lemma {:induction false} ViolationIsFirst(mode: Mode, op: Operation, stmts: seq<Statement>) returns (i: nat)
    requires FirstViolation(mode, op, stmts).Some?
    ensures i < |stmts| && Classify(mode, op, stmts[i]) == FirstViolation(mode, op, stmts)
    ensures forall j :: 0 <= j < i ==> Classify(mode, op, stmts[j]).None?
  {
    if Classify(mode, op, stmts[0]).Some? {
      i := 0;
    } else {
      var k := ViolationIsFirst(mode, op, stmts[1..]);
      i := k + 1;
      assert forall j :: 0 < j < i ==> stmts[j] == stmts[1..][j - 1];
    }
  }

  // ---- the gate, read off the statements ----

  /** Neither an EXPLAIN, nor a privilege change, nor cluster or tenant administration. */
  predicate Ordinary(s: Statement) {
    !s.explains && !s.statementType.TypeDCL? && !s.tenantDml
  }

  /** What may pass: each mode's promise about a statement, for each operation. */
  predicate MayPass(mode: Mode, op: Operation, s: Statement) {
    match (mode, op)
    case (ReadOnly, Simulate) => !s.explains && (s.statementType.TypeDDL? || s.statementType.TypeDML?)
    case (ReadOnly, Explain) => Ordinary(s) && !s.modifiesSchema && !s.writesData
    case (ReadOnly, Execute) => Ordinary(s) && !s.modifiesSchema && !s.writesData
    case (SafeWrite, Explain) => Ordinary(s)
    case (SafeWrite, Execute) => Ordinary(s) && !s.modifiesSchema
    case (FullAccess, Explain) => true
    case (FullAccess, Execute) => true
    case _ => false
  }

  /** A batch is admitted exactly when it has a statement and every one may pass. */
  lemma AdmitsExactly(mode: Mode, op: Operation, stmts: seq<Statement>)
    ensures Admits(mode, op, stmts) <==>
            stmts != [] && forall i :: 0 <= i < |stmts| ==> MayPass(mode, op, stmts[i])
  {
    AdmitsEach(mode, op, stmts);
    forall i | 0 <= i < |stmts| ensures Classify(mode, op, stmts[i]).None? <==> MayPass(mode, op, stmts[i]) {
      PassesExactly(mode, op, stmts[i]);
    }
  }

  lemma PassesExactly(mode: Mode, op: Operation, s: Statement)
    ensures Classify(mode, op, s).None? <==> MayPass(mode, op, s)
  {
  }

  /** The reason for rejecting a statement; the first that applies, in this order. */
  predicate Because(mode: Mode, op: Operation, s: Statement, kind: ViolationKind) {
    if mode.UnknownMode? || (mode.ReadOnly? && op.UnknownOperation?) then kind.KindOther?
    else if !mode.ReadOnly? && (op.Simulate? || op.UnknownOperation?) then kind.KindUnimplemented?
    else if mode.FullAccess? then false
    else if s.explains then kind.KindNestedExplain?
    else if op.Simulate? then kind.KindBadOpInput?
    else if s.statementType.TypeDCL? then (if s.clusterAdmin then kind.KindClusterAdmin? else kind.KindPrivilege?)
    else if s.tenantDml then kind.KindClusterAdmin?
    else if s.modifiesSchema then kind.KindSchema?
    else kind.KindWrite?
  }

  /** A rejected batch is rejected for its first statement that may not pass, under that statement's tag. */
  lemma RejectedFor(mode: Mode, op: Operation, stmts: seq<Statement>) returns (i: nat)
    requires stmts != [] && !Admits(mode, op, stmts)
    ensures i < |stmts| && !MayPass(mode, op, stmts[i]) && forall j :: 0 <= j < i ==> MayPass(mode, op, stmts[j])
    ensures var v := CheckParsed(mode, op, stmts).value;
            v.tag == stmts[i].tag && v.mode == mode && v.op == op && Because(mode, op, stmts[i], v.kind)
  {
    i := ViolationIsFirst(mode, op, stmts);
    PassesExactly(mode, op, stmts[i]);
    forall j | 0 <= j < i ensures MayPass(mode, op, stmts[j]) { PassesExactly(mode, op, stmts[j]); }
  }

  lemma EmptyIsRejected(mode: Mode, op: Operation)
    ensures CheckParsed(mode, op, []) == Some(Violation("EMPTY", mode, op, KindOther))
  {
  }

  lemma StatementMonotone(low: Mode, high: Mode, op: Operation, s: Statement)
    requires Known(low) && Known(high) && Rank(low) <= Rank(high) && Escalates(op) && Classify(low, op, s).None?
    ensures Classify(high, op, s).None?
  {
  }

  /** For explain and execute, a higher mode admits every batch a lower one admits. */
  lemma AdmissionGrows(low: Mode, high: Mode, op: Operation, stmts: seq<Statement>)
    requires Known(low) && Known(high) && Rank(low) <= Rank(high) && Escalates(op) && Admits(low, op, stmts)
    ensures Admits(high, op, stmts)
  {
    AdmitsEach(low, op, stmts);
    AdmitsEach(high, op, stmts);
    forall i | 0 <= i < |stmts| ensures Classify(high, op, stmts[i]).None? {
      StatementMonotone(low, high, op, stmts[i]);
    }
  }

  /**
   The mode suggested for a rejected statement is higher, admits it, and is the smallest
   that does; there is a suggestion exactly when a known mode of an escalating operation
   rejected something other than a nested EXPLAIN.
   */
  lemma SuggestionIsSmallest(mode: Mode, op: Operation, s: Statement)
    requires !MayPass(mode, op, s)
    ensures Classify(mode, op, s).Some?
    ensures var t := EscalationTarget(Classify(mode, op, s).value);
            && (t.Some? <==> Known(mode) && Escalates(op) && !s.explains)
            && (t.Some? ==> Known(t.value) && Rank(mode) < Rank(t.value) && MayPass(t.value, op, s))
            && (t.Some? ==> forall m :: Known(m) && MayPass(m, op, s) ==> Rank(t.value) <= Rank(m))
  {
  }

  /** The suggestion is withheld for a nested EXPLAIN although full_access would admit it. */
  lemma NestedExplainUnderFullAccess(mode: Mode, op: Operation, s: Statement)
    requires (mode.ReadOnly? || mode.SafeWrite?) && Escalates(op) && s.explains
    ensures Classify(mode, op, s).Some? && EscalationTarget(Classify(mode, op, s).value).None?
    ensures Classify(FullAccess, op, s).None?
  {
  }

  /** Simulate does not follow the order: raising the mode loses exactly the batches read_only admits. */
  lemma SimulateIsNotMonotone(stmts: seq<Statement>)
    ensures Admits(ReadOnly, Simulate, stmts) <==> stmts != [] && forall i :: 0 <= i < |stmts| ==>
              !stmts[i].explains && (stmts[i].statementType.TypeDDL? || stmts[i].statementType.TypeDML?)
    ensures !Admits(SafeWrite, Simulate, stmts) && !Admits(FullAccess, Simulate, stmts)
  {
    AdmitsEach(ReadOnly, Simulate, stmts);
  }

  // ---- following suggestions ----

  /** Raising a suggested mode, from any rejection whatsoever. */
  lemma SuggestionRises(v: Violation)
    ensures EscalationTarget(v).Some? ==>
            Known(EscalationTarget(v).value) && Rank(v.mode) < Rank(EscalationTarget(v).value)
  {
  }

  lemma ViolationNamesMode(mode: Mode, op: Operation, stmts: seq<Statement>)
    ensures CheckParsed(mode, op, stmts).Some? ==>
              CheckParsed(mode, op, stmts).value.mode == mode && CheckParsed(mode, op, stmts).value.op == op
  {
    if stmts != [] && FirstViolation(mode, op, stmts).Some? {
      var i := ViolationIsFirst(mode, op, stmts);
    }
  }

  /** The modes tried by an agent that follows every suggestion. */
  function Retries(mode: Mode, op: Operation, stmts: seq<Statement>): (modes: seq<Mode>)
    ensures modes != [] && modes[0] == mode
    decreases 3 - Rank(mode)
  {
    match CheckParsed(mode, op, stmts)
    case None => [mode]
    case Some(v) =>
      ViolationNamesMode(mode, op, stmts);
      SuggestionRises(v);
      match EscalationTarget(v)
      case None => [mode]
      case Some(next) => [mode] + Retries(next, op, stmts)
  }

  /**
   Each retry is under a strictly higher mode, so there are at most two, ending in
   admission or without a suggestion.
   */
  lemma {:induction false} RetriesEnd(mode: Mode, op: Operation, stmts: seq<Statement>)
    ensures var modes := Retries(mode, op, stmts);
            var last := modes[|modes| - 1];
            && |modes| <= 3
            && (forall i, j :: 0 <= i < j < |modes| ==> Rank(modes[i]) < Rank(modes[j]))
            && (CheckParsed(last, op, stmts).Some? ==> EscalationTarget(CheckParsed(last, op, stmts).value).None?)
    ensures Known(mode) ==> |Retries(mode, op, stmts)| + Rank(mode) <= 3
    ensures !Known(mode) ==> |Retries(mode, op, stmts)| == 1
    decreases 3 - Rank(mode)
  {
    var check := CheckParsed(mode, op, stmts);
    if check.Some? {
      ViolationNamesMode(mode, op, stmts);
      SuggestionRises(check.value);
      var next := EscalationTarget(check.value);
      if next.Some? {
        RetriesEnd(next.value, op, stmts);
      }
    }
  }

  /** No mode between this one and the suggested one admits the batch. */
  lemma NothingBetween(mode: Mode, op: Operation, stmts: seq<Statement>, m: Mode)
    requires CheckParsed(mode, op, stmts).Some? && EscalationTarget(CheckParsed(mode, op, stmts).value).Some?
    requires Known(m) && Admits(m, op, stmts)
    ensures Rank(EscalationTarget(CheckParsed(mode, op, stmts).value).value) <= Rank(m)
  {
    var i := ViolationIsFirst(mode, op, stmts);
    SuggestionIsSmallest(mode, op, stmts[i]);
    AdmitsEach(m, op, stmts);
  }

  /** If some mode from the first one up admits the batch, the last mode tried is at most that mode. */
  lemma {:induction false} RetriesNeverOvershoot(mode: Mode, op: Operation, stmts: seq<Statement>, m: Mode)
    requires Known(m) && Rank(mode) <= Rank(m) && Admits(m, op, stmts)
    ensures var modes := Retries(mode, op, stmts); Rank(modes[|modes| - 1]) <= Rank(m)
    decreases 3 - Rank(mode)
  {
    var check := CheckParsed(mode, op, stmts);
    if check.Some? {
      ViolationNamesMode(mode, op, stmts);
      SuggestionRises(check.value);
      var next := EscalationTarget(check.value);
      if next.Some? {
        NothingBetween(mode, op, stmts, m);
        RetriesNeverOvershoot(next.value, op, stmts, m);
      }
    }
  }

  /** A statement that only full_access admits, and for which it is suggested. */
  predicate NeedsFullAccess(op: Operation, s: Statement) {
    !s.explains && !MayPass(SafeWrite, op, s)
  }

  /** Every nested EXPLAIN comes after a statement that forces full_access. */
  predicate FullAccessFirst(op: Operation, stmts: seq<Statement>) {
    forall k :: 0 <= k < |stmts| && stmts[k].explains ==> exists j :: 0 <= j < k && NeedsFullAccess(op, stmts[j])
  }

  lemma FullAccessAdmits(op: Operation, stmts: seq<Statement>)
    requires Escalates(op) && stmts != []
    ensures Admits(FullAccess, op, stmts)
  {
    AdmitsEach(FullAccess, op, stmts);
  }

  /** Where safe_write suggests nothing, it has met a nested EXPLAIN with nothing before it that forces full_access. */
  lemma SafeWriteSucceeds(op: Operation, stmts: seq<Statement>)
    requires Escalates(op) && stmts != []
    ensures var modes := Retries(SafeWrite, op, stmts);
            Admits(modes[|modes| - 1], op, stmts) <==> FullAccessFirst(op, stmts)
  {
    var check := CheckParsed(SafeWrite, op, stmts);
    FullAccessAdmits(op, stmts);
    if check.Some? {
      var i := ViolationIsFirst(SafeWrite, op, stmts);
      SuggestionIsSmallest(SafeWrite, op, stmts[i]);
      ViolationNamesMode(SafeWrite, op, stmts);
      assert forall k :: 0 <= k < i ==> !stmts[k].explains && !NeedsFullAccess(op, stmts[k]);
      assert !stmts[i].explains ==> NeedsFullAccess(op, stmts[i]);
    } else {
      AdmitsEach(SafeWrite, op, stmts);
      assert forall k :: 0 <= k < |stmts| ==> !stmts[k].explains;
    }
  }

  lemma ReadOnlySucceeds(op: Operation, stmts: seq<Statement>)
    requires Escalates(op) && stmts != []
    ensures var modes := Retries(ReadOnly, op, stmts);
            Admits(modes[|modes| - 1], op, stmts) <==> FullAccessFirst(op, stmts)
  {
    var check := CheckParsed(ReadOnly, op, stmts);
    FullAccessAdmits(op, stmts);
    if check.Some? {
      var i := ViolationIsFirst(ReadOnly, op, stmts);
      SuggestionIsSmallest(ReadOnly, op, stmts[i]);
      ViolationNamesMode(ReadOnly, op, stmts);
      assert forall k :: 0 <= k < i ==> !stmts[k].explains && !NeedsFullAccess(op, stmts[k]);
      var next := EscalationTarget(check.value);
      if next == Some(SafeWrite) {
        SafeWriteSucceeds(op, stmts);
      } else if next == Some(FullAccess) {
        assert NeedsFullAccess(op, stmts[i]);
      }
    } else {
      AdmitsEach(ReadOnly, op, stmts);
      assert forall k :: 0 <= k < |stmts| ==> !stmts[k].explains;
    }
  }

  /**
   Explaining or executing, the retries end in admission exactly when the batch is not
   empty and full_access was asked for, or every nested EXPLAIN comes after a statement
   that forces full_access; without a nested EXPLAIN they always do.
   */
  lemma RetriesSucceed(mode: Mode, op: Operation, stmts: seq<Statement>)
    requires Known(mode) && Escalates(op)
    ensures var modes := Retries(mode, op, stmts);
            Admits(modes[|modes| - 1], op, stmts) <==> stmts != [] && (mode.FullAccess? || FullAccessFirst(op, stmts))
    ensures (forall i :: 0 <= i < |stmts| ==> !stmts[i].explains) ==> FullAccessFirst(op, stmts)
  {
    if stmts != [] {
      FullAccessAdmits(op, stmts);
      if mode.ReadOnly? {
        ReadOnlySucceeds(op, stmts);
      } else if mode.SafeWrite? {
        SafeWriteSucceeds(op, stmts);
      }
    }
  }
}
