/** EXPLAIN (DDL, SHAPE): the parser of the schema changer's plan, and printing it back. */
module ShapePlan {

  import opened Options
  import opened Text

  datatype Operation = Operation(op: string, targets: seq<string>)

  datatype Plan = Plan(statement: string, operations: seq<Operation>)

  /** `line` counts from 1, with the header. */
  datatype ShapeError =
    | EmptyInput
    | NoHeader(first: string)
    | UnknownConnector(line: nat)
    | TargetFirst(line: nat)

  const HEADER := "Schema change plan for "
  const OPERATION := " "
  const TARGET_BAR := " │    "
  const TARGET_GAP := "      "
  const TEE := "├── "
  const CORNER := "└── "

  // ---- lines ----

  /** strings.Split(s, "\n"). */
  function Split(s: string): (lines: seq<string>)
    ensures lines != [] && forall i :: 0 <= i < |lines| ==> '\n' !in lines[i]
    decreases |s|
  {
    match IndexOf(s, '\n')
    case None => [s]
    case Some(i) => [s[..i]] + Split(s[i + 1..])
  }

  /** strings.TrimRight(s, "\n"). */
  function TrimNewlines(s: string): (r: string)
    ensures r != "" ==> r[|r| - 1] != '\n'
  {
    if s != "" && s[|s| - 1] == '\n' then TrimNewlines(s[..|s| - 1]) else s
  }

  // ---- one line ----

  datatype Shape = OpLine(text: string) | TargetLine(text: string) | Unrecognized

  /** The content after the prefix and a connector, if there is any. */
  function StripConnector(line: string, prefix: string): Option<string> {
    if !(prefix <= line) then None
    else
      var rest := line[|prefix|..];
      if TEE <= rest then NonEmpty(TrimSpace(rest[|TEE|..]))
      else if CORNER <= rest then NonEmpty(TrimSpace(rest[|CORNER|..]))
      else None
  }

  function NonEmpty(s: string): Option<string> {
    if s == "" then None else Some(s)
  }

  function ClassifyShapeLine(line: string): Shape {
    match StripConnector(line, OPERATION)
    case Some(op) => OpLine(op)
    case None =>
      match StripConnector(line, TARGET_BAR)
      case Some(t) => TargetLine(t)
      case None =>
        match StripConnector(line, TARGET_GAP)
        case Some(t) => TargetLine(t)
        case None => Unrecognized
  }

  // ---- the parser ----

  function AddTarget(operations: seq<Operation>, t: string): seq<Operation>
    requires operations != []
  {
    var last := operations[|operations| - 1];
    operations[|operations| - 1 := last.(targets := last.targets + [t])]
  }

  function ReadLine(operations: seq<Operation>, raw: string, number: nat): Result<seq<Operation>, ShapeError> {
    var line := TrimRightBlanks(raw);
    if line == "" then Ok(operations)
    else match ClassifyShapeLine(line)
      case OpLine(op) => Ok(operations + [Operation(op, [])])
      case TargetLine(t) => if operations == [] then Err(TargetFirst(number)) else Ok(AddTarget(operations, t))
      case Unrecognized => Err(UnknownConnector(number))
  }

  function ReadLines(operations: seq<Operation>, lines: seq<string>, number: nat): Result<seq<Operation>, ShapeError>
    decreases |lines|
  {
    if lines == [] then Ok(operations)
    else match ReadLine(operations, lines[0], number)
      case Err(e) => Err(e)
      case Ok(next) => ReadLines(next, lines[1..], number + 1)
  }

  function TrimSemicolon(s: string): string {
    if s != "" && s[|s| - 1] == ';' then s[..|s| - 1] else s
  }

  function Parse(text: string): Result<Plan, ShapeError> {
    if text == "" then Err(EmptyInput)
    else
      var lines := Split(TrimNewlines(text));
      if !(HEADER <= lines[0]) then Err(NoHeader(lines[0]))
      else match ReadLines([], lines[1..], 2)
        case Err(e) => Err(e)
        case Ok(operations) => Ok(Plan(TrimSemicolon(lines[0][|HEADER|..]), operations))
  }

  method ParseExplainDDLShape(text: string) returns (r: Result<Plan, ShapeError>)
    ensures r == Parse(text)
  {
    if text == "" { return Err(EmptyInput); }
    var lines := Split(TrimNewlines(text));
    var header := lines[0];
    if !(HEADER <= header) { return Err(NoHeader(header)); }
    var statement := TrimSemicolon(header[|HEADER|..]);
    var operations: seq<Operation> := [];
    var rest := lines[1..];
    assert rest[0..] == rest;
    for i := 0 to |rest|
      invariant ReadLines(operations, rest[i..], i + 2) == ReadLines([], rest, 2)
    {
      assert rest[i..][1..] == rest[i + 1..];
      var line := TrimRightBlanks(rest[i]);
      if line == "" { continue; }
      match ClassifyShapeLine(line) {
        case Unrecognized => return Err(UnknownConnector(i + 2));
        case OpLine(op) => operations := operations + [Operation(op, [])];
        case TargetLine(t) =>
          if |operations| == 0 { return Err(TargetFirst(i + 2)); }
          var last := operations[|operations| - 1];
          operations := operations[|operations| - 1 := last.(targets := last.targets + [t])];
      }
    }
    return Ok(Plan(statement, operations));
  }

  // ---- printing ----

  /** One printed line: `corner` picks the connector, `bar` a target's prefix. */
  datatype Line =
    | PrintOp(corner: bool, text: string)
    | PrintTarget(bar: bool, corner: bool, text: string)

  predicate OneLine(s: string) {
    '\n' !in s
  }

  predicate GoodText(s: string) {
    s != "" && Trimmed(s) && OneLine(s)
  }

  function Connector(corner: bool): string {
    if corner then CORNER else TEE
  }

  function Prefix(l: Line): string {
    if l.PrintOp? then OPERATION else if l.bar then TARGET_BAR else TARGET_GAP
  }

  function Printed(l: Line): string {
    Prefix(l) + Connector(l.corner) + l.text
  }

  /** Targets follow an operation, and every text is trimmed, not empty and on one line. */
  predicate GoodLines(ls: seq<Line>, started: bool) {
    ls != [] ==>
      && GoodText(ls[0].text) && (ls[0].PrintTarget? ==> started) && GoodLines(ls[1..], true)
  }

  function Collect(operations: seq<Operation>, ls: seq<Line>): seq<Operation>
    requires GoodLines(ls, operations != [])
    decreases |ls|
  {
    if ls == [] then operations
    else if ls[0].PrintOp? then Collect(operations + [Operation(ls[0].text, [])], ls[1..])
    else Collect(AddTarget(operations, ls[0].text), ls[1..])
  }

  function Texts(ls: seq<Line>): seq<string> {
    if ls == [] then [] else [Printed(ls[0])] + Texts(ls[1..])
  }

  /** strings.Join(lines, "\n"). */
  function Join(lines: seq<string>): string
    requires lines != []
  {
    if |lines| == 1 then lines[0] else lines[0] + ['\n'] + Join(lines[1..])
  }

  function Newlines(n: nat): string {
    seq(n, _ => '\n')
  }

  /** The plan as SHAPE prints it, with any number of newlines at the end. */
  function Print(statement: string, ls: seq<Line>, trailing: nat): string {
    Join([HEADER + statement + ";"] + Texts(ls)) + Newlines(trailing)
  }

  // ---- parsing what was printed ----

  lemma {:induction false} SplitJoin(lines: seq<string>)
    requires lines != [] && forall i :: 0 <= i < |lines| ==> OneLine(lines[i])
    ensures Split(Join(lines)) == lines
  {
    if |lines| > 1 {
      var rest := Join(lines[1..]);
      IndexOfFirst(lines[0], rest, '\n');
      var s := lines[0] + ['\n'] + rest;
      assert s[..|lines[0]|] == lines[0] && s[|lines[0]| + 1..] == rest;
      SplitJoin(lines[1..]);
    } else {
      assert IndexOf(lines[0], '\n').None?;
    }
  }

  lemma {:induction false} TrimsNewlines(s: string, n: nat)
    requires s != "" && s[|s| - 1] != '\n'
    ensures TrimNewlines(s + Newlines(n)) == s
  {
    var t := s + Newlines(n);
    if n == 0 {
      assert t == s;
    } else {
      assert t[|t| - 1] == '\n' && t[..|t| - 1] == s + Newlines(n - 1);
      TrimsNewlines(s, n - 1);
    }
  }

  lemma {:induction false} JoinEnds(lines: seq<string>)
    requires lines != [] && lines[|lines| - 1] != ""
    ensures var s, last := Join(lines), lines[|lines| - 1]; s != "" && s[|s| - 1] == last[|last| - 1]
  {
    if |lines| > 1 { JoinEnds(lines[1..]); }
  }

  lemma StripsAfter(line: string, prefix: string, rest: string, connector: string, text: string)
    requires line == prefix + rest && rest == connector + text && (connector == TEE || connector == CORNER)
             && GoodText(text)
    ensures StripConnector(line, prefix) == Some(text)
  {
    assert line[|prefix|..] == rest;
    assert rest[0] == connector[0];
    assert rest[|connector|..] == text;
    assert "" + text + "" == text;
    TrimSpacePad("", text, "");
  }

  lemma StripsPrinted(prefix: string, corner: bool, text: string)
    requires GoodText(text)
    ensures StripConnector(prefix + Connector(corner) + text, prefix) == Some(text)
  {
    var rest := Connector(corner) + text;
    assert prefix + Connector(corner) + text == prefix + rest;
    StripsAfter(prefix + rest, prefix, rest, Connector(corner), text);
  }

  lemma ClassifiesPrinted(l: Line)
    requires GoodText(l.text)
    ensures ClassifyShapeLine(Printed(l)) == if l.PrintOp? then OpLine(l.text) else TargetLine(l.text)
  {
    var line := Printed(l);
    StripsPrinted(Prefix(l), l.corner, l.text);
    if l.PrintTarget? {
      assert line[1] == Prefix(l)[1];
      assert line[|OPERATION|..][0] == line[1];
      if !l.bar { assert TARGET_BAR[1] != line[1]; }
    }
  }

  lemma ReadsPrinted(operations: seq<Operation>, l: Line, number: nat)
    requires GoodText(l.text) && (l.PrintTarget? ==> operations != [])
    ensures ReadLine(operations, Printed(l), number) ==
            Ok(if l.PrintOp? then operations + [Operation(l.text, [])] else AddTarget(operations, l.text))
  {
    var line := Printed(l);
    assert line[|line| - 1] == l.text[|l.text| - 1];
    TrimRightBlanksKeeps(line);
    ClassifiesPrinted(l);
  }

  lemma {:induction false} ReadsAll(operations: seq<Operation>, ls: seq<Line>, number: nat)
    requires GoodLines(ls, operations != [])
    ensures ReadLines(operations, Texts(ls), number) == Ok(Collect(operations, ls))
    decreases |ls|
  {
    if ls != [] {
      ReadsPrinted(operations, ls[0], number);
      if ls[0].PrintOp? {
        ReadsAll(operations + [Operation(ls[0].text, [])], ls[1..], number + 1);
      } else {
        ReadsAll(AddTarget(operations, ls[0].text), ls[1..], number + 1);
      }
    }
  }

  lemma {:induction false} TextsAreLines(ls: seq<Line>, started: bool)
    requires GoodLines(ls, started)
    ensures |Texts(ls)| == |ls|
    ensures forall i :: 0 <= i < |ls| ==>
            OneLine(Texts(ls)[i]) && Texts(ls)[i] != "" && Texts(ls)[i][|Texts(ls)[i]| - 1] != '\n'
  {
    if ls != [] {
      var line := Printed(ls[0]);
      assert OneLine(line) && line[|line| - 1] == ls[0].text[|ls[0].text| - 1];
      TextsAreLines(ls[1..], true);
    }
  }

  lemma AllPrintedLines(header: string, ls: seq<Line>)
    requires OneLine(header) && header != "" && header[|header| - 1] != '\n' && GoodLines(ls, false)
    ensures var lines := [header] + Texts(ls);
            && (forall i :: 0 <= i < |lines| ==> OneLine(lines[i]))
            && lines[|lines| - 1] != "" && lines[|lines| - 1][|lines[|lines| - 1]| - 1] != '\n'
  {
    var texts := Texts(ls);
    var lines := [header] + texts;
    TextsAreLines(ls, false);
    forall i | 0 <= i < |lines| ensures OneLine(lines[i]) {
      if i > 0 { assert lines[i] == texts[i - 1]; }
    }
    if ls != [] { assert lines[|lines| - 1] == texts[|ls| - 1]; }
  }

  function HeaderLine(statement: string): string {
    HEADER + statement + ";"
  }

  lemma HeaderReads(statement: string)
    requires OneLine(statement)
    ensures var h := HeaderLine(statement);
            OneLine(h) && h != "" && h[|h| - 1] == ';' && HEADER <= h && TrimSemicolon(h[|HEADER|..]) == statement
  {
    assert HeaderLine(statement)[|HEADER|..] == statement + ";";
    assert (statement + ";")[..|statement|] == statement;
  }

  lemma PrintSplits(statement: string, ls: seq<Line>, trailing: nat)
    requires OneLine(statement) && GoodLines(ls, false)
    ensures Print(statement, ls, trailing) != ""
    ensures Split(TrimNewlines(Print(statement, ls, trailing))) == [HeaderLine(statement)] + Texts(ls)
  {
    var lines := [HeaderLine(statement)] + Texts(ls);
    HeaderReads(statement);
    AllPrintedLines(HeaderLine(statement), ls);
    JoinEnds(lines);
    TrimsNewlines(Join(lines), trailing);
    SplitJoin(lines);
  }

  /** Parsing printed lines collects them. */
  lemma PrintedLinesParse(statement: string, ls: seq<Line>, trailing: nat)
    requires OneLine(statement) && GoodLines(ls, false)
    ensures Parse(Print(statement, ls, trailing)) == Ok(Plan(statement, Collect([], ls)))
  {
    PrintSplits(statement, ls, trailing);
    HeaderReads(statement);
    var lines := [HeaderLine(statement)] + Texts(ls);
    assert lines[1..] == Texts(ls);
    ReadsAll([], ls, 2);
  }

  // ---- every accepted text ----

  predicate GoodTexts(texts: seq<string>) {
    forall i :: 0 <= i < |texts| ==> GoodText(texts[i])
  }

  predicate GoodOperations(operations: seq<Operation>) {
    forall i :: 0 <= i < |operations| ==> GoodText(operations[i].op) && GoodTexts(operations[i].targets)
  }

  lemma {:induction false} TrimKeepsOneLine(s: string)
    requires OneLine(s)
    ensures OneLine(TrimRightBlanks(s))
  {
    if s != "" && IsBlank(s[|s| - 1]) { TrimKeepsOneLine(s[..|s| - 1]); }
  }

  lemma TrimmedIsGood(s: string)
    requires OneLine(s) && TrimSpace(s) != ""
    ensures GoodText(TrimSpace(s))
  {
    TrimSpaceTrimmed(s);
    var left := TrimLeftSplits(s);
    var right := TrimRightSplits(TrimLeftSpace(s));
    assert left + (TrimSpace(s) + right) == s;
    MiddleIsOneLine(left, TrimSpace(s), right);
  }

  lemma MiddleIsOneLine(left: string, s: string, right: string)
    requires OneLine(left + (s + right))
    ensures OneLine(s)
  {
    var whole := left + (s + right);
    forall i | 0 <= i < |s| ensures s[i] != '\n' {
      assert whole[|left| + i] == s[i];
    }
  }

  lemma StrippedIsGood(line: string, prefix: string)
    requires OneLine(line) && StripConnector(line, prefix).Some?
    ensures GoodText(StripConnector(line, prefix).value)
  {
    var rest := line[|prefix|..];
    TrimmedIsGood(rest[if TEE <= rest then |TEE| else |CORNER|..]);
  }

  lemma ClassifiedIsGood(line: string)
    requires OneLine(line)
    ensures !ClassifyShapeLine(line).Unrecognized? ==> GoodText(ClassifyShapeLine(line).text)
  {
    if StripConnector(line, OPERATION).Some? { StrippedIsGood(line, OPERATION); }
    if StripConnector(line, TARGET_BAR).Some? { StrippedIsGood(line, TARGET_BAR); }
    if StripConnector(line, TARGET_GAP).Some? { StrippedIsGood(line, TARGET_GAP); }
  }

  lemma {:induction false} ReadIsGood(operations: seq<Operation>, lines: seq<string>, number: nat)
    requires GoodOperations(operations) && forall i :: 0 <= i < |lines| ==> OneLine(lines[i])
    ensures ReadLines(operations, lines, number).Ok? ==> GoodOperations(ReadLines(operations, lines, number).value)
    decreases |lines|
  {
    if lines != [] {
      TrimKeepsOneLine(lines[0]);
      ClassifiedIsGood(TrimRightBlanks(lines[0]));
      var next := ReadLine(operations, lines[0], number);
      if next.Ok? {
        assert GoodOperations(next.value);
        ReadIsGood(next.value, lines[1..], number + 1);
      }
    }
  }

  /** Which connector and which of a target's two prefixes a line gets. */
  datatype Style = Style(bar: bool, corner: bool)

  /** The lines of operation i's targets from the j-th on, each in a style of its own. */
  function TargetLines(targets: seq<string>, i: nat, style: (nat, nat) -> Style, j: nat): seq<Line> {
    if targets == [] then []
    else [PrintTarget(style(i, j).bar, style(i, j).corner, targets[0])] + TargetLines(targets[1..], i, style, j + 1)
  }

  /** The lines of the operations from the i-th on. */
  function LinesOf(operations: seq<Operation>, style: (nat, nat) -> Style, i: nat): seq<Line> {
    if operations == [] then []
    else
      [PrintOp(style(i, 0).corner, operations[0].op)] + TargetLines(operations[0].targets, i, style, 1)
      + LinesOf(operations[1..], style, i + 1)
  }

  lemma {:induction false} CollectsTargets(done: seq<Operation>, last: Operation, targets: seq<string>, i: nat,
                                           style: (nat, nat) -> Style, j: nat, rest: seq<Line>)
    requires GoodTexts(targets) && GoodLines(rest, true)
    ensures GoodLines(TargetLines(targets, i, style, j) + rest, true)
    ensures Collect(done + [last], TargetLines(targets, i, style, j) + rest)
            == Collect(done + [last.(targets := last.targets + targets)], rest)
    decreases |targets|
  {
    if targets == [] {
      assert TargetLines(targets, i, style, j) + rest == rest && last.targets + targets == last.targets;
    } else {
      var next := last.(targets := last.targets + [targets[0]]);
      var tail := TargetLines(targets[1..], i, style, j + 1) + rest;
      CollectsTargets(done, next, targets[1..], i, style, j + 1, rest);
      var line := PrintTarget(style(i, j).bar, style(i, j).corner, targets[0]);
      assert TargetLines(targets, i, style, j) + rest == [line] + tail;
      FirstTarget(done, last, line, tail);
      assert next.targets + targets[1..] == last.targets + targets;
    }
  }

  lemma FirstTarget(done: seq<Operation>, last: Operation, line: Line, tail: seq<Line>)
    requires line.PrintTarget? && GoodText(line.text) && GoodLines(tail, true)
    ensures GoodLines([line] + tail, true)
    ensures Collect(done + [last], [line] + tail)
            == Collect(done + [last.(targets := last.targets + [line.text])], tail)
  {
    assert ([line] + tail)[1..] == tail;
    assert AddTarget(done + [last], line.text) == done + [last.(targets := last.targets + [line.text])];
  }

  lemma {:induction false} FirstLines(operations: seq<Operation>, style: (nat, nat) -> Style, i: nat)
    requires operations != []
    ensures var ls := LinesOf(operations, style, i);
            && ls != [] && ls[0] == PrintOp(style(i, 0).corner, operations[0].op)
            && ls[1..] == TargetLines(operations[0].targets, i, style, 1) + LinesOf(operations[1..], style, i + 1)
  {
    Regrouped(PrintOp(style(i, 0).corner, operations[0].op), TargetLines(operations[0].targets, i, style, 1),
              LinesOf(operations[1..], style, i + 1));
  }

  lemma Regrouped<T>(x: T, a: seq<T>, b: seq<T>)
    ensures [x] + a + b == [x] + (a + b) && ([x] + a + b)[1..] == a + b
  {
  }

  /** The lines of the operations collect to the operations, whatever their styles. */
  lemma {:induction false} CollectsOperations(done: seq<Operation>, operations: seq<Operation>,
                                              style: (nat, nat) -> Style, i: nat)
    requires GoodOperations(operations)
    ensures GoodLines(LinesOf(operations, style, i), done != [])
    ensures Collect(done, LinesOf(operations, style, i)) == done + operations
    decreases |operations|
  {
    if operations == [] {
      assert done + operations == done;
    } else {
      var first := operations[0];
      var rest := LinesOf(operations[1..], style, i + 1);
      CollectsOperations(done + [first], operations[1..], style, i + 1);
      FirstLines(operations, style, i);
      CollectsTargets(done, Operation(first.op, []), first.targets, i, style, 1, rest);
      assert Operation(first.op, [] + first.targets) == first;
      TakeFirst(done, operations);
    }
  }

  lemma TakeFirst<T>(done: seq<T>, s: seq<T>)
    requires s != []
    ensures done + [s[0]] + s[1..] == done + s
  {
  }

  // ---- plans ----

  predicate GoodPlan(plan: Plan) {
    OneLine(plan.statement) && GoodOperations(plan.operations)
  }

  /** The plan's text, each line in a style of its own. */
  function PrintPlan(plan: Plan, style: (nat, nat) -> Style, trailing: nat): string {
    Print(plan.statement, LinesOf(plan.operations, style, 0), trailing)
  }

  /** Printing any plan in any style and parsing it gives it back. */
  lemma PrintThenParse(plan: Plan, style: (nat, nat) -> Style, trailing: nat)
    requires GoodPlan(plan)
    ensures Parse(PrintPlan(plan, style, trailing)) == Ok(plan)
  {
    CollectsOperations([], plan.operations, style, 0);
    assert [] + plan.operations == plan.operations;
    PrintedLinesParse(plan.statement, LinesOf(plan.operations, style, 0), trailing);
  }

  /** Whatever text is accepted, printing what was parsed, in any style, and parsing that gives the same plan. */
  lemma ReprintParses(text: string, style: (nat, nat) -> Style, trailing: nat)
    requires Parse(text).Ok?
    ensures GoodPlan(Parse(text).value)
    ensures Parse(PrintPlan(Parse(text).value, style, trailing)) == Parse(text)
  {
    var lines := Split(TrimNewlines(text));
    ReadIsGood([], lines[1..], 2);
    assert OneLine(Parse(text).value.statement) by { assert OneLine(lines[0]); }
    PrintThenParse(Parse(text).value, style, trailing);
  }

  // ---- every rejected text ----

  predicate IsConnector(c: string) {
    c == "├── " || c == "└── "
  }

  /** The prefix, a connector, and the text, which may have space around it. */
  ghost predicate Branch(line: string, prefix: string, text: string) {
    text != "" && exists c, rest :: IsConnector(c) && line == prefix + c + rest && Pads(rest, text)
  }

  ghost predicate IsOperationLine(line: string, op: string) {
    Branch(line, " ", op)
  }

  ghost predicate IsTargetLine(line: string, t: string) {
    Branch(line, " │    ", t) || Branch(line, "      ", t)
  }

  /** A text that is not all space reaches into the row without its blanks at the end. */
  lemma TextStays(raw: string, line: string, cut: string, head: string, rest: string, text: string)
    requires raw == line + cut && OnlyBlanks(cut) && raw == head + rest && Pads(rest, text) && text != ""
    ensures |head| < |line| && line == head + line[|head|..] && rest == line[|head|..] + cut
  {
    var left, right :| AllSpace(left) && AllSpace(right) && rest == left + text + right;
    var last := |head| + |left| + |text| - 1;
    assert raw[last] == rest[last - |head|] == text[|text| - 1];
    assert forall k :: |line| <= k < |raw| ==> raw[k] == cut[k - |line|];
    assert raw[..|head|] == head && raw[..|head|] == line[..|head|];
    assert raw[|head|..] == rest;
  }

  lemma BranchStrips(raw: string, prefix: string, text: string)
    ensures Branch(raw, prefix, text) <==> StripConnector(TrimRightBlanks(raw), prefix) == Some(text)
  {
    if Branch(raw, prefix, text) { BranchStripped(raw, prefix, text); }
    if StripConnector(TrimRightBlanks(raw), prefix) == Some(text) { StrippedBranch(raw, prefix, text); }
  }

  lemma BranchStripped(raw: string, prefix: string, text: string)
    requires Branch(raw, prefix, text)
    ensures StripConnector(TrimRightBlanks(raw), prefix) == Some(text)
  {
    var line := TrimRightBlanks(raw);
    var cut := BlanksCut(raw);
    var c, rest :| IsConnector(c) && raw == prefix + c + rest && Pads(rest, text);
    TextStays(raw, line, cut, prefix + c, rest, text);
    var inner := line[|prefix + c|..];
    ConnectorStrips(line, prefix, c, inner);
    TrimsThen(inner, cut);
    PadsTrims(rest, text);
  }

  lemma StrippedBranch(raw: string, prefix: string, text: string)
    requires StripConnector(TrimRightBlanks(raw), prefix) == Some(text)
    ensures Branch(raw, prefix, text)
  {
    var line := TrimRightBlanks(raw);
    var cut := BlanksCut(raw);
    var rest := line[|prefix|..];
    var c := if TEE <= rest then TEE else CORNER;
    var inner := rest[|c|..];
    TrimsThen(inner, cut);
    PadsTrims(inner + cut, text);
    assert raw == prefix + c + (inner + cut);
    assert IsConnector(c);
  }

  lemma ConnectorStrips(line: string, prefix: string, c: string, inner: string)
    requires line == prefix + c + inner && IsConnector(c)
    ensures StripConnector(line, prefix) == NonEmpty(TrimSpace(inner))
  {
    var rest := line[|prefix|..];
    assert rest == c + inner;
    assert rest[0] == c[0];
    assert rest[|c|..] == inner;
  }

  /** Whether a line is an operation's, a target's or blank, by its characters. */
  lemma ClassifiesExactly(raw: string, text: string)
    ensures ClassifyShapeLine(TrimRightBlanks(raw)) == OpLine(text) <==> IsOperationLine(raw, text)
    ensures ClassifyShapeLine(TrimRightBlanks(raw)) == TargetLine(text) <==> IsTargetLine(raw, text)
    ensures TrimRightBlanks(raw) == "" <==> OnlyBlanks(raw)
  {
    var cut := BlanksCut(raw);
    BranchStrips(raw, " ", text);
    BranchStrips(raw, " │    ", text);
    BranchStrips(raw, "      ", text);
    PrefixesDiffer(TrimRightBlanks(raw));
  }

  /** At most one of the three prefixes leads to a connector. */
  lemma PrefixesDiffer(line: string)
    ensures StripConnector(line, OPERATION).Some? ==> StripConnector(line, TARGET_BAR).None?
    ensures StripConnector(line, OPERATION).Some? ==> StripConnector(line, TARGET_GAP).None?
    ensures StripConnector(line, TARGET_BAR).Some? ==> StripConnector(line, TARGET_GAP).None?
  {
    if OPERATION <= line && |line| > 1 {
      assert line[|OPERATION|..][0] == line[1];
    }
    if TARGET_BAR <= line { assert line[1] == TARGET_BAR[1]; }
    if TARGET_GAP <= line { assert line[1] == TARGET_GAP[1]; }
    var rest := line[if OPERATION <= line then 1 else 0..];
    assert TEE <= rest ==> rest[0] == TEE[0];
    assert CORNER <= rest ==> rest[0] == CORNER[0];
  }

  /** Line i, counted from 0, cannot be read: it is no branch, or a target before any operation. */
  ghost predicate Unreadable(lines: seq<string>, i: int) {
    && 0 <= i < |lines| && !OnlyBlanks(lines[i]) && (forall op :: !IsOperationLine(lines[i], op))
    && ((exists t :: IsTargetLine(lines[i], t)) ==> forall j, op :: 0 <= j < i ==> !IsOperationLine(lines[j], op))
  }

  ghost predicate FirstUnreadable(lines: seq<string>, i: int) {
    Unreadable(lines, i) && forall j :: 0 <= j < i ==> !Unreadable(lines, j)
  }

  /** The lines before the n-th leave operations exactly when one of them is an operation's. */
  lemma {:induction false} ReadsFrom(lines: seq<string>, n: nat, operations: seq<Operation>)
    requires n <= |lines| && (operations != [] <==> exists j, op :: 0 <= j < n && IsOperationLine(lines[j], op))
    requires forall j :: 0 <= j < n ==> !Unreadable(lines, j)
    ensures match ReadLines(operations, lines[n..], n + 2)
            case Ok(_) => forall j :: 0 <= j < |lines| ==> !Unreadable(lines, j)
            case Err(e) => exists i {:trigger FirstUnreadable(lines, i)} ::
              FirstUnreadable(lines, i) && e == BadLine(lines, i)
    decreases |lines| - n
  {
    if n < |lines| {
      assert lines[n..][0] == lines[n] && lines[n..][1..] == lines[n + 1..];
      ReadsLine(lines, n, operations);
      var next := ReadLine(operations, lines[n], n + 2);
      if next.Ok? {
        ReadsFrom(lines, n + 1, next.value);
      } else {
        assert FirstUnreadable(lines, n);
      }
    }
  }

  /** The error for line i of those after the header. */
  ghost function BadLine(lines: seq<string>, i: int): ShapeError
    requires 0 <= i < |lines|
  {
    if exists t :: IsTargetLine(lines[i], t) then TargetFirst(i + 2) else UnknownConnector(i + 2)
  }

  lemma ReadsLine(lines: seq<string>, n: nat, operations: seq<Operation>)
    requires n < |lines| && (operations != [] <==> exists j, op :: 0 <= j < n && IsOperationLine(lines[j], op))
    ensures match ReadLine(operations, lines[n], n + 2)
            case Ok(next) =>
              && !Unreadable(lines, n)
              && (next != [] <==> exists j, op :: 0 <= j < n + 1 && IsOperationLine(lines[j], op))
            case Err(e) => Unreadable(lines, n) && e == BadLine(lines, n)
  {
    var shape := ClassifyShapeLine(TrimRightBlanks(lines[n]));
    forall text
      ensures shape == OpLine(text) <==> IsOperationLine(lines[n], text)
      ensures shape == TargetLine(text) <==> IsTargetLine(lines[n], text)
    {
      ClassifiesExactly(lines[n], text);
    }
    ClassifiesExactly(lines[n], "");
  }

  /**
   A text is rejected exactly when it is empty, its first line is no header, or a later
   line cannot be read; and then the first such line is the one named, by its number.
   */
  lemma RejectedExactly(text: string)
    ensures text == "" ==> Parse(text) == Err(EmptyInput)
    ensures text != "" ==>
              var lines := Split(TrimNewlines(text));
              if !("Schema change plan for " <= lines[0]) then Parse(text) == Err(NoHeader(lines[0]))
              else match Parse(text)
                case Ok(_) => forall i :: !Unreadable(lines[1..], i)
                case Err(e) => exists i {:trigger FirstUnreadable(lines[1..], i)} ::
                  FirstUnreadable(lines[1..], i) && e == BadLine(lines[1..], i)
  {
    if text != "" {
      var lines := Split(TrimNewlines(text));
      assert lines[1..][0..] == lines[1..];
      ReadsFrom(lines[1..], 0, []);
    }
  }
}
