/**
 Printing and reading back.  A document is any rendering of a forest in EXPLAIN's
 layout: an operator at column D, its attributes at D + 2, its child operators at
 D + 4, with any tree glyphs as padding and rows without content in between; a blank row
 or a lone dot may separate the header from the tree.
 */
module ExplainLayout {

  import opened Options
  import opened Text
  import opened ExplainTree
  import opened ExplainRows

  datatype Item =
    | Attr(pad: string, key: string, value: string)
    | Oper(pad: string, op: string, items: seq<Item>)
    | Filler(row: string)

  /** `separator` is the row that ends the header, if there is one. */
  datatype Document = Document(header: seq<Item>, separator: Option<string>, column: nat, body: seq<Item>)

  // ---- what may be printed ----

  predicate Glyphs(pad: string, n: nat) {
    |pad| == n && Drawings(pad, n)
  }

  predicate GoodOp(op: string) {
    op != "" && Trimmed(op)
  }

  /** A key the reader can find: no colon, and nothing it would take for a prefix or a bullet. */
  predicate GoodKey(key: string) {
    Trimmed(key) && ':' !in key && (key != "" ==> !Drawing(key[0]) && key[0] != '•')
  }

  predicate GoodAttr(key: string, value: string) {
    GoodKey(key) && Trimmed(value)
  }

  /** A blank row, or a lone dot. */
  ghost predicate IsSeparator(row: string) {
    OnlyBlanks(row) || LoneDot(row)
  }

  /** A row without content. */
  ghost predicate IsFiller(row: string) {
    IsSeparator(row) || Scaffold(row)
  }

  /** The items of an operator at column D. */
  ghost predicate GoodItems(items: seq<Item>, D: nat) {
    items != [] ==>
      && (match items[0]
          case Attr(pad, key, value) => Glyphs(pad, D + 2) && GoodAttr(key, value)
          case Oper(pad, op, below) => Glyphs(pad, D + 4) && GoodOp(op) && GoodItems(below, D + 4)
          case Filler(row) => IsFiller(row))
      && GoodItems(items[1..], D)
  }

  ghost predicate GoodHeader(items: seq<Item>) {
    forall i :: 0 <= i < |items| ==>
      match items[i]
      case Attr(pad, key, value) => Glyphs(pad, |pad|) && GoodAttr(key, value)
      case Oper(_, _, _) => false
      case Filler(row) => Scaffold(row)
  }

  ghost predicate GoodBody(items: seq<Item>, column: nat) {
    forall i :: 0 <= i < |items| ==>
      match items[i]
      case Attr(_, _, _) => false
      case Oper(pad, op, below) => Glyphs(pad, column) && GoodOp(op) && GoodItems(below, column)
      case Filler(row) => IsFiller(row)
  }

  ghost predicate Good(doc: Document) {
    && GoodHeader(doc.header) && GoodBody(doc.body, doc.column)
    && (doc.separator.Some? ==> IsSeparator(doc.separator.value))
  }

  // ---- printing ----

  function OpRow(pad: string, op: string): string {
    pad + [BULLET] + " " + op
  }

  function AttrRow(pad: string, key: string, value: string): string {
    pad + key + ": " + value
  }

  /** The rows of the first item. */
  function FirstRows(items: seq<Item>): seq<string>
    requires items != []
    decreases items, 0
  {
    match items[0]
    case Attr(pad, key, value) => [AttrRow(pad, key, value)]
    case Oper(pad, op, below) => [OpRow(pad, op)] + Rows(below)
    case Filler(row) => [row]
  }

  function Rows(items: seq<Item>): seq<string>
    decreases items, 1
  {
    if items == [] then [] else FirstRows(items) + Rows(items[1..])
  }

  function SeparatorRows(doc: Document): seq<string> {
    if doc.separator.Some? then [doc.separator.value] else []
  }

  function Print(doc: Document): seq<string> {
    Rows(doc.header) + SeparatorRows(doc) + Rows(doc.body)
  }

  // ---- what was printed ----

  /** The node with the first item added. */
  function AddFirst(node: PlanNode, items: seq<Item>): PlanNode
    requires items != []
    decreases items, 0
  {
    match items[0]
    case Attr(_, key, value) => node.(attrs := node.attrs[key := value])
    case Oper(_, op, below) => node.(children := node.children + [Grow(PlanNode(op, map[], []), below)])
    case Filler(_) => node
  }

  /** The node with the items added, in order. */
  function Grow(node: PlanNode, items: seq<Item>): PlanNode
    decreases items, 1
  {
    if items == [] then node else Grow(AddFirst(node, items), items[1..])
  }

  function Tree(op: string, items: seq<Item>): PlanNode {
    Grow(PlanNode(op, map[], []), items)
  }

  function Trees(items: seq<Item>): Forest {
    Grow(PlanNode("", map[], []), items).children
  }

  function HeaderWith(attrs: map<string, string>): Option<map<string, string>> {
    if attrs == map[] then None else Some(attrs)
  }

  function HeaderOf(items: seq<Item>): Option<map<string, string>> {
    HeaderWith(Grow(PlanNode("", map[], []), items).attrs)
  }

  // ---- reading one printed row ----

  lemma TrimSpaceKeeps(s: string, c: char)
    requires c in s && !IsSpace(c)
    ensures c in TrimSpace(s)
  {
    var left := TrimLeftSplits(s);
    var right := TrimRightSplits(TrimLeftSpace(s));
    assert s == left + TrimSpace(s) + right;
  }

  lemma NotVisual(line: string, c: char)
    requires c in line && !IsSpace(c) && c != '·'
    ensures line != "" && TrimSpace(line) != SEPARATOR
  {
    TrimSpaceKeeps(line, c);
  }

  lemma ReadsOpRow(pad: string, op: string)
    requires Glyphs(pad, |pad|) && GoodOp(op)
    ensures Classify(OpRow(pad, op)) == Operator(|pad|, op)
  {
    var row := OpRow(pad, op);
    assert row[|row| - 1] == op[|op| - 1];
    TrimRightBlanksKeeps(row);
    assert row[|pad|] == BULLET;
    NotVisual(row, BULLET);
    GlyphRunIs(row, |pad|);
    assert row[|pad| + 1..] == " " + op + "";
    TrimSpacePad(" ", op, "");
  }

  /** The text of an attribute row without its padding. */
  function AttrText(key: string, value: string): string {
    if value == "" then key + ":" else key + ": " + value
  }

  lemma SplitsText(key: string, value: string)
    requires GoodAttr(key, value)
    ensures SplitKV(AttrText(key, value)) == Some((key, value))
  {
    var rest := if value == "" then "" else " " + value;
    var text := key + [':'] + rest;
    assert text == AttrText(key, value);
    IndexOfFirst(key, rest, ':');
    assert text[..|key|] == "" + key + "" && text[|key| + 1..] == rest;
    TrimSpacePad("", key, "");
    if value != "" {
      assert rest == " " + value + "";
      TrimSpacePad(" ", value, "");
    }
  }

  lemma TextIsTrimmed(key: string, value: string)
    requires GoodAttr(key, value)
    ensures var text := AttrText(key, value);
            && text != "" && Trimmed(text) && TrimSpace(text) == text
            && !IsTreeGlyph(text[0]) && text[0] != BULLET && ':' in text
  {
    var text := AttrText(key, value);
    assert text[0] == if key == "" then ':' else key[0];
    assert text[|text| - 1] == if value == "" then ':' else value[|value| - 1];
    assert text[|key|] == ':';
    assert "" + text + "" == text;
    TrimSpacePad("", text, "");
  }

  lemma AttrRowLine(pad: string, key: string, value: string)
    requires GoodAttr(key, value)
    ensures TrimRightBlanks(AttrRow(pad, key, value)) == pad + AttrText(key, value)
  {
    var row, line := AttrRow(pad, key, value), pad + AttrText(key, value);
    TextIsTrimmed(key, value);
    TrimRightBlanksKeeps(line);
    if value == "" {
      assert row == line + " ";
      assert row[..|row| - 1] == line;
    } else {
      assert row == line;
    }
  }

  lemma ReadsAttrRow(pad: string, key: string, value: string)
    requires Glyphs(pad, |pad|) && GoodAttr(key, value)
    ensures Classify(AttrRow(pad, key, value)) == Content(|pad|, AttrText(key, value))
  {
    var text := AttrText(key, value);
    var line := pad + text;
    AttrRowLine(pad, key, value);
    TextIsTrimmed(key, value);
    assert line[|pad|] == text[0] && line[|pad|..] == text;
    assert ':' in line;
    NotVisual(line, ':');
    GlyphRunIs(line, |pad|);
  }

  // ---- growing the rightmost node ----

  lemma {:induction false} SetInAppended(f: Forest, d: nat, n: PlanNode, k: string, v: string)
    requires d > 0 ==> Deep(f, d - 1)
    ensures SetAttrAt(AppendAt(f, d, n), d, k, v) == AppendAt(f, d, n.(attrs := n.attrs[k := v]))
    decreases d
  {
    if d > 0 {
      SetInAppended(f[|f| - 1].children, d - 1, n, k, v);
    }
  }

  lemma {:induction false} AppendInAppended(f: Forest, d: nat, n: PlanNode, child: PlanNode)
    requires d > 0 ==> Deep(f, d - 1)
    ensures AppendAt(AppendAt(f, d, n), d + 1, child) == AppendAt(f, d, n.(children := n.children + [child]))
    decreases d
  {
    if d > 0 {
      AppendInAppended(f[|f| - 1].children, d - 1, n, child);
    }
  }

  // ---- the stack while an operator's items are read ----

  predicate AllFrom(deeper: seq<int>, col: int) {
    forall i :: 0 <= i < |deeper| ==> deeper[i] >= col
  }

  lemma {:induction false} PopDeeper(kept: seq<int>, deeper: seq<int>, col: int)
    requires AllFrom(deeper, col) && (kept != [] ==> kept[|kept| - 1] < col)
    ensures PopTo(kept + deeper, col) == kept
  {
    var cols := kept + deeper;
    if deeper == [] {
      assert cols == kept;
    } else {
      assert cols[|cols| - 1] == deeper[|deeper| - 1];
      assert cols[..|cols| - 1] == kept + deeper[..|deeper| - 1];
      PopDeeper(kept, deeper[..|deeper| - 1], col);
    }
  }

  lemma {:induction false} OwnerBelow(kept: seq<int>, D: int, deeper: seq<int>)
    requires AllFrom(deeper, D + 1)
    ensures OwnerAt(kept + [D] + deeper, D) == Some(|kept|)
  {
    var cols := kept + [D] + deeper;
    if deeper == [] {
      assert cols[|cols| - 1] == D;
    } else {
      assert cols[|cols| - 1] == deeper[|deeper| - 1];
      assert cols[..|cols| - 1] == kept + [D] + deeper[..|deeper| - 1];
      OwnerBelow(kept, D, deeper[..|deeper| - 1]);
    }
  }

  /** The parser stands in an operator at column D whose node is `node`, with anything deeper still on the stack. */
  predicate StandsIn(p: Parser, f: Forest, kept: seq<int>, D: nat, node: PlanNode,
                     header: Option<map<string, string>>) {
    && !p.inHeader && p.header == header
    && kept + [D] <= p.cols && AllFrom(p.cols[|kept| + 1..], D + 4)
    && (kept != [] ==> Deep(f, |kept| - 1)) && p.roots == AppendAt(f, |kept|, node)
    && Sound(p)
  }

  lemma ColsSplit(p: Parser, kept: seq<int>, D: nat)
    requires kept + [D] <= p.cols
    ensures p.cols == kept + [D] + p.cols[|kept| + 1..]
  {
  }

  // ---- reading many rows ----

  /** From p, reading these rows leads to p', whatever follows. */
  ghost predicate Reads(p: Parser, rows: seq<string>, row: nat, p': Parser) {
    && Sound(p) && Sound(p')
    && forall rest: seq<string> {:trigger ReadRows(p, rows + rest, row)} ::
         ReadRows(p, rows + rest, row) == ReadRows(p', rest, row + |rows|)
  }

  lemma ReadsNone(p: Parser, row: nat)
    requires Sound(p)
    ensures Reads(p, [], row, p)
  {
    forall rest: seq<string> ensures ReadRows(p, [] + rest, row) == ReadRows(p, rest, row) {
      assert [] + rest == rest;
    }
  }

  lemma ReadsOne(p: Parser, raw: string, row: nat, p': Parser)
    requires Sound(p) && ReadRow(p, raw, row) == Ok(p')
    ensures Reads(p, [raw], row, p')
  {
    forall rest: seq<string> ensures ReadRows(p, [raw] + rest, row) == ReadRows(p', rest, row + 1) {
      assert ([raw] + rest)[1..] == rest;
    }
  }

  lemma LeadsThrough(p: Parser, a: seq<string>, row: nat, q: Parser, b: seq<string>, p': Parser, rest: seq<string>)
    requires Reads(p, a, row, q) && Reads(q, b, row + |a|, p')
    ensures ReadRows(p, (a + b) + rest, row) == ReadRows(p', rest, row + |a + b|)
  {
    var after := b + rest;
    assert (a + b) + rest == a + after;
    assert ReadRows(p, a + after, row) == ReadRows(q, after, row + |a|);
    assert row + |a| + |b| == row + |a + b|;
  }

  lemma ReadsThen(p: Parser, a: seq<string>, row: nat, q: Parser, b: seq<string>, p': Parser)
    requires Reads(p, a, row, q) && Reads(q, b, row + |a|, p')
    ensures Reads(p, a + b, row, p')
  {
    forall rest: seq<string> ensures ReadRows(p, (a + b) + rest, row) == ReadRows(p', rest, row + |a + b|) {
      LeadsThrough(p, a, row, q, b, p', rest);
    }
  }

  lemma AttrStep(p: Parser, f: Forest, kept: seq<int>, D: nat, node: PlanNode, header: Option<map<string, string>>,
                 pad: string, key: string, value: string, row: nat) returns (p': Parser)
    requires StandsIn(p, f, kept, D, node, header) && Glyphs(pad, D + 2) && GoodAttr(key, value)
    ensures Reads(p, [AttrRow(pad, key, value)], row, p')
    ensures StandsIn(p', f, kept, D, node.(attrs := node.attrs[key := value]), header)
  {
    ReadsAttrRow(pad, key, value);
    SplitsText(key, value);
    ColsSplit(p, kept, D);
    OwnerBelow(kept, D, p.cols[|kept| + 1..]);
    SetInAppended(f, |kept|, node, key, value);
    p' := ReadRow(p, AttrRow(pad, key, value), row).value;
    ReadsOne(p, AttrRow(pad, key, value), row, p');
  }

  lemma OpenStep(p: Parser, pad: string, op: string, D: nat, row: nat) returns (p': Parser)
    requires Sound(p) && Glyphs(pad, D) && GoodOp(op)
    ensures Reads(p, [OpRow(pad, op)], row, p')
    ensures StandsIn(p', p.roots, PopTo(p.cols, D), D, PlanNode(op, map[], []), p.header)
  {
    ReadsOpRow(pad, op);
    var kept := PopTo(p.cols, D);
    if kept != [] { DeepBelow(p.roots, |p.cols| - 1, |kept| - 1); }
    p' := Open(p, D, op);
    assert p'.cols[|kept| + 1..] == [];
    ReadsOne(p, OpRow(pad, op), row, p');
  }

  lemma FillerStep(p: Parser, filler: string, row: nat)
    requires Sound(p) && !p.inHeader && IsFiller(filler)
    ensures Reads(p, [filler], row, p)
  {
    FillersChangeNothing(p, filler, row);
    ReadsOne(p, filler, row, p);
  }

  /** An operator read inside another one is a child of that one. */
  lemma {:induction false} StandsAround(p: Parser, f: Forest, kept: seq<int>, D: nat, node: PlanNode, child: PlanNode,
                     header: Option<map<string, string>>)
    requires kept != [] ==> Deep(f, |kept| - 1)
    requires StandsIn(p, AppendAt(f, |kept|, node), kept + [D], D + 4, child, header)
    ensures StandsIn(p, f, kept, D, node.(children := node.children + [child]), header)
  {
    AppendInAppended(f, |kept|, node, child);
    DeeperCols(p.cols, kept, D, D + 4);
  }

  lemma DeeperCols(cols: seq<int>, kept: seq<int>, D: int, deeper: int)
    requires (kept + [D]) + [deeper] <= cols && AllFrom(cols[|kept + [D]| + 1..], deeper + 4) && deeper == D + 4
    ensures kept + [D] <= cols && AllFrom(cols[|kept| + 1..], D + 4)
  {
    assert cols[|kept| + 1..] == [deeper] + cols[|kept| + 2..];
  }

  lemma ChildPops(p: Parser, f: Forest, kept: seq<int>, D: nat, node: PlanNode, header: Option<map<string, string>>)
    requires StandsIn(p, f, kept, D, node, header)
    ensures PopTo(p.cols, D + 4) == kept + [D]
  {
    ColsSplit(p, kept, D);
    PopDeeper(kept + [D], p.cols[|kept| + 1..], D + 4);
  }

  /** Reading an operator's rows. */
  lemma {:induction false} OperRun(pad: string, op: string, below: seq<Item>, D: nat, p: Parser, row: nat)
      returns (p': Parser)
    requires Sound(p) && Glyphs(pad, D) && GoodOp(op) && GoodItems(below, D)
    ensures StandsIn(p', p.roots, PopTo(p.cols, D), D, Tree(op, below), p.header)
    ensures Reads(p, [OpRow(pad, op)] + Rows(below), row, p')
    decreases below, 2
  {
    var open := OpenStep(p, pad, op, D, row);
    p' := ItemsRun(below, D, open, p.roots, PopTo(p.cols, D), PlanNode(op, map[], []), p.header, row + 1);
    ReadsThen(p, [OpRow(pad, op)], row, open, Rows(below), p');
  }

  lemma {:induction false} FirstRun(items: seq<Item>, D: nat, p: Parser, f: Forest, kept: seq<int>, node: PlanNode,
                                    header: Option<map<string, string>>, row: nat) returns (p': Parser)
    requires items != [] && StandsIn(p, f, kept, D, node, header) && GoodItems(items, D)
    ensures StandsIn(p', f, kept, D, AddFirst(node, items), header)
    ensures Reads(p, FirstRows(items), row, p')
    decreases items, 0
  {
    var item := items[0];
    if item.Oper? {
      ChildPops(p, f, kept, D, node, header);
      p' := OperRun(item.pad, item.op, item.items, D + 4, p, row);
      StandsAround(p', f, kept, D, node, Tree(item.op, item.items), header);
    } else if item.Attr? {
      p' := AttrStep(p, f, kept, D, node, header, item.pad, item.key, item.value, row);
    } else {
      FillerStep(p, item.row, row);
      p' := p;
    }
  }

  lemma {:induction false} ItemsRun(items: seq<Item>, D: nat, p: Parser, f: Forest, kept: seq<int>, node: PlanNode,
                                    header: Option<map<string, string>>, row: nat) returns (p': Parser)
    requires StandsIn(p, f, kept, D, node, header) && GoodItems(items, D)
    ensures StandsIn(p', f, kept, D, Grow(node, items), header)
    ensures Reads(p, Rows(items), row, p')
    decreases items, 1
  {
    if items == [] {
      ReadsNone(p, row);
      p' := p;
    } else {
      var first, tail, next := FirstRows(items), items[1..], AddFirst(node, items);
      assert GoodItems(tail, D) && Grow(node, items) == Grow(next, tail) && Rows(items) == first + Rows(tail);
      var q := FirstRun(items, D, p, f, kept, node, header, row);
      p' := ItemsRun(tail, D, q, f, kept, next, header, row + |first|);
      ReadsThen(p, first, row, q, Rows(tail), p');
    }
  }

  // ---- the whole document ----

  /** Between the roots every open operator is at or right of the root column. */
  predicate BetweenRoots(p: Parser, column: nat, node: PlanNode, header: Option<map<string, string>>) {
    Sound(p) && p.header == header && p.roots == node.children && PopTo(p.cols, column) == []
  }

  lemma {:induction false} RootRun(items: seq<Item>, column: nat, p: Parser, node: PlanNode,
                                   header: Option<map<string, string>>, row: nat) returns (p': Parser)
    requires items != [] && BetweenRoots(p, column, node, header) && GoodBody(items, column)
    ensures BetweenRoots(p', column, AddFirst(node, items), header)
    ensures Reads(p, FirstRows(items), row, p')
  {
    var item := items[0];
    if item.Oper? {
      p' := OperRun(item.pad, item.op, item.items, column, p, row);
      ColsSplit(p', [], column);
      assert [] + [column as int] + p'.cols[1..] == [] + p'.cols;
      PopDeeper([], p'.cols, column);
    } else {
      FillersChangeNothing(p, item.row, row);
      p' := ReadRow(p, item.row, row).value;
      ReadsOne(p, item.row, row, p');
    }
  }

  lemma {:induction false} RootsRun(items: seq<Item>, column: nat, p: Parser, node: PlanNode,
                                    header: Option<map<string, string>>, row: nat) returns (p': Parser)
    requires BetweenRoots(p, column, node, header) && GoodBody(items, column)
    ensures BetweenRoots(p', column, Grow(node, items), header)
    ensures Reads(p, Rows(items), row, p')
  {
    if items == [] {
      ReadsNone(p, row);
      p' := p;
    } else {
      var q := RootRun(items, column, p, node, header, row);
      p' := RootsRun(items[1..], column, q, AddFirst(node, items), header, row + |FirstRows(items)|);
      ReadsThen(p, FirstRows(items), row, q, Rows(items[1..]), p');
    }
  }

  lemma HeaderStep(items: seq<Item>, node: PlanNode, row: nat)
    requires items != [] && GoodHeader(items)
    ensures Reads(START.(header := HeaderWith(node.attrs)), FirstRows(items), row,
                  START.(header := HeaderWith(AddFirst(node, items).attrs)))
  {
    var item := items[0];
    var p, q := START.(header := HeaderWith(node.attrs)), START.(header := HeaderWith(AddFirst(node, items).attrs));
    if item.Attr? {
      ReadsAttrRow(item.pad, item.key, item.value);
      SplitsText(item.key, item.value);
      assert item.key in AddFirst(node, items).attrs;
      ReadsOne(p, AttrRow(item.pad, item.key, item.value), row, q);
    } else {
      FillersChangeNothing(p, item.row, row);
      ReadsOne(p, item.row, row, q);
    }
  }

  lemma SeparatorRun(doc: Document, p: Parser, row: nat) returns (p': Parser)
    requires Good(doc) && Sound(p)
    ensures Reads(p, SeparatorRows(doc), row, p')
    ensures p' == if doc.separator.Some? then p.(inHeader := false) else p
  {
    if doc.separator.Some? {
      FillersChangeNothing(p, doc.separator.value, row);
      p' := p.(inHeader := false);
      ReadsOne(p, doc.separator.value, row, p');
    } else {
      ReadsNone(p, row);
      p' := p;
    }
  }

  lemma {:induction false} HeaderRun(items: seq<Item>, node: PlanNode, row: nat)
    requires GoodHeader(items)
    ensures Reads(START.(header := HeaderWith(node.attrs)), Rows(items), row,
                  START.(header := HeaderWith(Grow(node, items).attrs)))
    decreases items
  {
    var p := START.(header := HeaderWith(node.attrs));
    if items == [] {
      ReadsNone(p, row);
    } else {
      var next := AddFirst(node, items);
      HeaderStep(items, node, row);
      HeaderRun(items[1..], next, row + |FirstRows(items)|);
      ReadsThen(p, FirstRows(items), row, START.(header := HeaderWith(next.attrs)), Rows(items[1..]),
                START.(header := HeaderWith(Grow(next, items[1..]).attrs)));
    }
  }

  /** Printing any document and parsing it gives back its header and its forest. */
  lemma PrintThenParse(doc: Document)
    requires Good(doc)
    ensures Parse(Print(doc)) == Ok(Explained(HeaderOf(doc.header), Trees(doc.body)))
  {
    var root := PlanNode("", map[], []);
    HeaderRun(doc.header, root, 0);
    var p := START.(header := HeaderOf(doc.header));
    var q := SeparatorRun(doc, p, |Rows(doc.header)|);
    var head := Rows(doc.header) + SeparatorRows(doc);
    ReadsThen(START, Rows(doc.header), 0, p, SeparatorRows(doc), q);
    var p' := RootsRun(doc.body, doc.column, q, root, p.header, |head|);
    ReadsThen(START, head, 0, q, Rows(doc.body), p');
    assert Print(doc) + [] == Print(doc);
  }

  // ---- every forest has a document ----

  predicate GoodAttrs(attrs: map<string, string>) {
    forall k :: k in attrs ==> GoodAttr(k, attrs[k])
  }

  predicate GoodForest(f: Forest) {
    f != [] ==>
      GoodOp(f[0].op) && GoodAttrs(f[0].attrs) && GoodForest(f[0].children) && GoodForest(f[1..])
  }

  function Spaces(n: nat): (pad: string)
    ensures Glyphs(pad, n)
  {
    seq(n, _ => ' ')
  }

  lemma {:induction false} GrowThen(node: PlanNode, a: seq<Item>, b: seq<Item>)
    ensures Grow(node, a + b) == Grow(Grow(node, a), b)
    decreases a
  {
    if a == [] {
      assert a + b == b;
    } else {
      assert (a + b)[0] == a[0] && (a + b)[1..] == a[1..] + b;
      GrowThen(AddFirst(node, a), a[1..], b);
    }
  }

  lemma {:induction false} GoodThen(a: seq<Item>, b: seq<Item>, D: nat)
    requires GoodItems(a, D) && GoodItems(b, D)
    ensures GoodItems(a + b, D)
    decreases a
  {
    if a == [] {
      assert a + b == b;
    } else {
      assert (a + b)[0] == a[0] && (a + b)[1..] == a[1..] + b;
      GoodThen(a[1..], b, D);
    }
  }

  lemma AttrFirst(k: string, v: string, rest: seq<Item>, D: nat, node: PlanNode)
    requires GoodAttr(k, v) && GoodItems(rest, D)
    ensures var items := [Attr(Spaces(D + 2), k, v)] + rest;
            GoodItems(items, D) && Grow(node, items) == Grow(node.(attrs := node.attrs[k := v]), rest)
  {
    assert ([Attr(Spaces(D + 2), k, v)] + rest)[1..] == rest;
  }

  lemma OneFewer<V>(attrs: map<string, V>, k: string)
    requires k in attrs
    ensures |attrs - {k}| < |attrs|
  {
    assert (attrs - {k}).Keys == attrs.Keys - {k};
  }

  lemma TakeOne<V>(attrs: map<string, V>, k: string, into: map<string, V>)
    requires k in attrs
    ensures into[k := attrs[k]] + (attrs - {k}) == into + attrs
  {
    var a, b := into[k := attrs[k]] + (attrs - {k}), into + attrs;
    forall j | j in b ensures j in a && a[j] == b[j] {
      if j == k { assert j !in attrs - {k}; }
    }
    assert a.Keys == b.Keys;
  }

  lemma PlusNone<V>(attrs: map<string, V>)
    ensures attrs + map[] == attrs && map[] + attrs == attrs
  {
  }

  lemma OthersGood(attrs: map<string, string>, k: string)
    requires GoodAttrs(attrs)
    ensures GoodAttrs(attrs - {k})
  {
    forall j | j in attrs - {k} ensures GoodAttr(j, (attrs - {k})[j]) {
      assert (attrs - {k})[j] == attrs[j];
    }
  }

  lemma {:induction false} AttrItems(attrs: map<string, string>, D: nat, node: PlanNode) returns (items: seq<Item>)
    requires GoodAttrs(attrs)
    ensures GoodItems(items, D) && Grow(node, items) == node.(attrs := node.attrs + attrs)
    ensures forall i :: 0 <= i < |items| ==> items[i].Attr?
    decreases |attrs|
  {
    if attrs == map[] {
      PlusNone(node.attrs);
      items := [];
    } else {
      var k :| k in attrs;
      var others := attrs - {k};
      TakeOne(attrs, k, node.attrs);
      OneFewer(attrs, k);
      OthersGood(attrs, k);
      var next := node.(attrs := node.attrs[k := attrs[k]]);
      var rest := AttrItems(others, D, next);
      items := [Attr(Spaces(D + 2), k, attrs[k])] + rest;
      AttrFirst(k, attrs[k], rest, D, node);
    }
  }

  lemma {:induction false} OperItem(n: PlanNode, column: nat) returns (item: Item)
    requires GoodOp(n.op) && GoodAttrs(n.attrs) && GoodForest(n.children)
    ensures item.Oper? && Glyphs(item.pad, column) && GoodOp(item.op) && GoodItems(item.items, column)
    ensures Tree(item.op, item.items) == n
    decreases n.children, 1
  {
    var leaf := PlanNode(n.op, map[], []);
    var a := AttrItems(n.attrs, column, leaf);
    PlusNone(n.attrs);
    var c := ChildItems(n.children, column, leaf.(attrs := n.attrs));
    GrowThen(leaf, a, c);
    GoodThen(a, c, column);
    item := Oper(Spaces(column), n.op, a + c);
  }

  lemma {:induction false} ChildItems(f: Forest, D: nat, node: PlanNode) returns (items: seq<Item>)
    requires GoodForest(f)
    ensures GoodItems(items, D) && Grow(node, items) == node.(children := node.children + f)
    decreases f, 0
  {
    if f == [] {
      items := [];
      assert node.children + f == node.children;
    } else {
      var first := OperItem(f[0], D + 4);
      var next := node.(children := node.children + [f[0]]);
      var rest := ChildItems(f[1..], D, next);
      items := [first] + rest;
      assert items[1..] == rest;
      assert next.children + f[1..] == node.children + f;
    }
  }

  lemma {:induction false} RootItems(f: Forest, column: nat, node: PlanNode) returns (items: seq<Item>)
    requires GoodForest(f)
    ensures GoodBody(items, column) && Grow(node, items) == node.(children := node.children + f)
  {
    if f == [] {
      items := [];
      assert node.children + f == node.children;
    } else {
      var first := OperItem(f[0], column);
      var next := node.(children := node.children + [f[0]]);
      var rest := RootItems(f[1..], column, next);
      items := [first] + rest;
      assert items[1..] == rest;
      assert next.children + f[1..] == node.children + f;
    }
  }

  /** Every header and every well-formed forest is what some document parses to. */
  lemma EveryForestPrints(header: map<string, string>, f: Forest) returns (doc: Document)
    requires GoodAttrs(header) && GoodForest(f)
    ensures Good(doc) && Parse(Print(doc)) == Ok(Explained(HeaderWith(header), f))
  {
    var root := PlanNode("", map[], []);
    var h := AttrItems(header, 0, root);
    PlusNone(header);
    HeaderItems(h, 0);
    var b := RootItems(f, 0, root);
    assert root.children + f == f;
    doc := Document(h, None, 0, b);
    PrintThenParse(doc);
  }

  lemma {:induction false} HeaderItems(items: seq<Item>, D: nat)
    requires GoodItems(items, D) && forall i :: 0 <= i < |items| ==> items[i].Attr?
    ensures GoodHeader(items)
  {
    if items != [] { HeaderItems(items[1..], D); }
  }
}
