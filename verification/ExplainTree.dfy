/**
 The parser of EXPLAIN's tree: rows in, header and operator forest out.

 The program keeps a stack of open operators, each with a pointer into slices that
 grow.  Here a pointer is the path it was taken along, with the length its slice had
 then; it may only be used while the slice still has that length, because an append
 may move the elements.
 */
module ExplainTree {

  import opened Options
  import opened Text

  datatype PlanNode = PlanNode(op: string, attrs: map<string, string>, children: seq<PlanNode>)

  type Forest = seq<PlanNode>

  datatype ParseError =
    | NoOperatorName(row: nat)
    | BadHeader(row: nat)
    | NoOwner(row: nat, col: int)
    | BadAttribute(row: nat)

  // ---- rows ----

  const BULLET := '•'
  const SEPARATOR := "·"

  predicate IsTreeGlyph(c: char) {
    c in {' ', '\t', '│', '└', '├', '─'}
  }

  /** How many glyphs a line starts with. */
  function GlyphRun(line: string): (n: nat)
    ensures n <= |line| && (forall i :: 0 <= i < n ==> IsTreeGlyph(line[i]))
    ensures n < |line| ==> !IsTreeGlyph(line[n])
  {
    if line != "" && IsTreeGlyph(line[0]) then 1 + GlyphRun(line[1..]) else 0
  }

  lemma GlyphRunIs(line: string, n: nat)
    requires n <= |line| && (forall i :: 0 <= i < n ==> IsTreeGlyph(line[i]))
    requires n < |line| ==> !IsTreeGlyph(line[n])
    ensures GlyphRun(line) == n
  {
  }

  /** `<glyphs>• <op>`: the column of the bullet and the operator. */
  function OperatorLine(line: string): Option<(nat, string)> {
    var n := GlyphRun(line);
    if n < |line| && line[n] == BULLET then Some((n, TrimSpace(line[n + 1..]))) else None
  }

  /** The column and the text of what follows the glyphs; (-1, "") if nothing does. */
  function ContentOf(line: string): (int, string) {
    var n := GlyphRun(line);
    if n < |line| then (n as int, TrimSpace(line[n..])) else (-1, "")
  }

  method ParseOperatorLine(line: string) returns (found: Option<(nat, string)>)
    ensures found == OperatorLine(line)
  {
    for i := 0 to |line|
      invariant forall j :: 0 <= j < i ==> IsTreeGlyph(line[j])
    {
      if line[i] == BULLET {
        GlyphRunIs(line, i);
        return Some((i, TrimSpace(line[i + 1..])));
      }
      if !IsTreeGlyph(line[i]) {
        GlyphRunIs(line, i);
        return None;
      }
    }
    GlyphRunIs(line, |line|);
    return None;
  }

  method FindContent(line: string) returns (col: int, content: string)
    ensures (col, content) == ContentOf(line)
  {
    for i := 0 to |line|
      invariant forall j :: 0 <= j < i ==> IsTreeGlyph(line[j])
    {
      if !IsTreeGlyph(line[i]) {
        GlyphRunIs(line, i);
        return i, TrimSpace(line[i..]);
      }
    }
    GlyphRunIs(line, |line|);
    return -1, "";
  }

  /** splitKV: at the first colon. */
  function SplitKV(s: string): Option<(string, string)> {
    match IndexOf(s, ':')
    case None => None
    case Some(i) => Some((TrimSpace(s[..i]), TrimSpace(s[i + 1..])))
  }

  /** What a row is, before it is known where it belongs. */
  datatype Row =
    | Visual                                  // blank, or the lone separator
    | Operator(bullet: nat, op: string)
    | Continuation                            // glyphs only
    | Content(col: int, text: string)

  function Classify(raw: string): Row {
    var line := TrimRightBlanks(raw);
    if line == "" || TrimSpace(line) == SEPARATOR then Visual
    else match OperatorLine(line)
      case Some((col, op)) => Operator(col, op)
      case None =>
        var (col, text) := ContentOf(line);
        if text == "" then Continuation else Content(col, text)
  }

  // ---- the rightmost spine of a forest ----

  /** The last tree's chain of last children is longer than d. */
  predicate Deep(f: Forest, d: nat) {
    f != [] && (d > 0 ==> Deep(f[|f| - 1].children, d - 1))
  }

  function WithLast(f: Forest, n: PlanNode): Forest
    requires f != []
  {
    f[..|f| - 1] + [n]
  }

  /** Append a node to the children of the rightmost node at depth d - 1 (to the roots for d = 0). */
  function AppendAt(f: Forest, d: nat, n: PlanNode): (r: Forest)
    requires d > 0 ==> Deep(f, d - 1)
    ensures Deep(r, d)
    decreases d
  {
    if d == 0 then f + [n]
    else
      var last := f[|f| - 1];
      WithLast(f, last.(children := AppendAt(last.children, d - 1, n)))
  }

  /** Set an attribute of the rightmost node at depth d. */
  function SetAttrAt(f: Forest, d: nat, k: string, v: string): (r: Forest)
    requires Deep(f, d)
    ensures Deep(r, d)
    decreases d
  {
    var last := f[|f| - 1];
    if d == 0 then WithLast(f, last.(attrs := last.attrs[k := v]))
    else WithLast(f, last.(children := SetAttrAt(last.children, d - 1, k, v)))
  }

  lemma DeepBelow(f: Forest, d: nat, j: nat)
    requires Deep(f, d) && j <= d
    ensures Deep(f, j)
    decreases d
  {
    if j > 0 { DeepBelow(f[|f| - 1].children, d - 1, j - 1); }
  }

  lemma {:induction false} SetKeepsDeep(f: Forest, d: nat, k: string, v: string, j: nat)
    requires Deep(f, d) && Deep(f, j)
    ensures Deep(SetAttrAt(f, d, k, v), j)
    decreases d
  {
    if d > 0 && j > 0 { SetKeepsDeep(f[|f| - 1].children, d - 1, k, v, j - 1); }
  }

  // ---- the parser as a function ----

  /** `cols` are the columns of the open operators, outermost first. */
  datatype Parser = Parser(header: Option<map<string, string>>, roots: Forest, cols: seq<int>, inHeader: bool)

  const START := Parser(None, [], [], true)

  predicate Sound(p: Parser) {
    p.cols != [] ==> Deep(p.roots, |p.cols| - 1)
  }

  /** Pop entries at or deeper than the column. */
  function PopTo(cols: seq<int>, col: int): (r: seq<int>)
    ensures r <= cols
    ensures r != [] ==> r[|r| - 1] < col
  {
    if cols != [] && cols[|cols| - 1] >= col then PopTo(cols[..|cols| - 1], col) else cols
  }

  /** The topmost open operator at the column. */
  function OwnerAt(cols: seq<int>, col: int): (r: Option<nat>)
    ensures r.Some? ==> r.value < |cols| && cols[r.value] == col
    ensures r.None? ==> col !in cols
  {
    if cols == [] then None
    else if cols[|cols| - 1] == col then Some(|cols| - 1)
    else OwnerAt(cols[..|cols| - 1], col)
  }

  function Open(p: Parser, col: nat, op: string): (r: Parser)
    requires Sound(p)
    ensures Sound(r)
  {
    var kept := PopTo(p.cols, col);
    if kept != [] then DeepBelow(p.roots, |p.cols| - 1, |kept| - 1);
      p.(inHeader := false, cols := kept + [col], roots := AppendAt(p.roots, |kept|, PlanNode(op, map[], [])))
    else
      p.(inHeader := false, cols := kept + [col], roots := AppendAt(p.roots, 0, PlanNode(op, map[], [])))
  }

  function ReadHeader(p: Parser, text: string, row: nat): Result<Parser, ParseError> {
    match SplitKV(text)
    case None => Err(BadHeader(row))
    case Some((k, v)) =>
      Ok(p.(header := Some(if p.header.Some? then p.header.value[k := v] else map[k := v])))
  }

  function ReadAttribute(p: Parser, col: int, text: string, row: nat): (r: Result<Parser, ParseError>)
    requires Sound(p)
    ensures r.Ok? ==> Sound(r.value)
  {
    match OwnerAt(p.cols, col - 2)
    case None => Err(NoOwner(row, col))
    case Some(d) =>
      match SplitKV(text)
      case None => Err(BadAttribute(row))
      case Some((k, v)) =>
        DeepBelow(p.roots, |p.cols| - 1, d);
        SetKeepsDeep(p.roots, d, k, v, |p.cols| - 1);
        Ok(p.(roots := SetAttrAt(p.roots, d, k, v)))
  }

  /** One row. */
  function ReadRow(p: Parser, raw: string, row: nat): (r: Result<Parser, ParseError>)
    requires Sound(p)
    ensures r.Ok? ==> Sound(r.value)
  {
    match Classify(raw)
    case Visual => Ok(p.(inHeader := false))
    case Operator(col, op) => if op == "" then Err(NoOperatorName(row)) else Ok(Open(p, col, op))
    case Continuation => Ok(p)
    case Content(col, text) => if p.inHeader then ReadHeader(p, text, row) else ReadAttribute(p, col, text, row)
  }

  /** The rows from number `row` on. */
  function ReadRows(p: Parser, rows: seq<string>, row: nat): (r: Result<Parser, ParseError>)
    requires Sound(p)
    ensures r.Ok? ==> Sound(r.value)
    decreases |rows|
  {
    if rows == [] then Ok(p)
    else match ReadRow(p, rows[0], row)
      case Err(e) => Err(e)
      case Ok(p') => ReadRows(p', rows[1..], row + 1)
  }

  datatype Explained = Explained(header: Option<map<string, string>>, plan: Forest)

  function Parse(rows: seq<string>): Result<Explained, ParseError> {
    match ReadRows(START, rows, 0)
    case Err(e) => Err(e)
    case Ok(p) => Ok(Explained(p.header, p.roots))
  }
}
