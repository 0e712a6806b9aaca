/** parseExplainTree itself: a loop over the rows, a stack of pointers, slices that grow. */
module ExplainStack {

  import opened Options
  import opened Text
  import opened ExplainTree

  /** `&slice[i]`: the way down to the element, and how long its slice was. */
  datatype Pointer = Pointer(path: seq<nat>, len: nat)

  datatype StackEntry = StackEntry(col: int, node: Pointer)

  predicate ValidPath(f: Forest, path: seq<nat>)
    decreases |path|
  {
    path != [] ==> path[0] < |f| && ValidPath(f[path[0]].children, path[1..])
  }

  /** The slice that holds the children of the node at the path. */
  function SliceAt(f: Forest, path: seq<nat>): Forest
    requires ValidPath(f, path)
    decreases |path|
  {
    if path == [] then f else SliceAt(f[path[0]].children, path[1..])
  }

  lemma ValidPrefix(f: Forest, path: seq<nat>, n: nat)
    requires ValidPath(f, path) && n <= |path|
    ensures ValidPath(f, path[..n])
    decreases |path|
  {
    if n > 0 {
      assert path[..n][1..] == path[1..][..n - 1];
      ValidPrefix(f[path[0]].children, path[1..], n - 1);
    }
  }

  /** The pointer's slice has not been appended to since the pointer was taken. */
  predicate Fresh(f: Forest, p: Pointer) {
    && p.path != [] && ValidPath(f, p.path) && ValidPath(f, p.path[..|p.path| - 1])
    && |SliceAt(f, p.path[..|p.path| - 1])| == p.len
  }

  function AppendChild(f: Forest, path: seq<nat>, n: PlanNode): Forest
    requires path != [] && ValidPath(f, path)
    decreases |path|
  {
    var at := f[path[0]];
    f[path[0] := at.(children := if |path| == 1 then at.children + [n] else AppendChild(at.children, path[1..], n))]
  }

  function SetAttr(f: Forest, path: seq<nat>, k: string, v: string): Forest
    requires path != [] && ValidPath(f, path)
    decreases |path|
  {
    var at := f[path[0]];
    f[path[0] := if |path| == 1 then at.(attrs := at.attrs[k := v])
                 else at.(children := SetAttr(at.children, path[1..], k, v))]
  }

  // ---- the stack is the rightmost spine ----

  /** The way to the rightmost node at depth d. */
  function RightPath(f: Forest, d: nat): (path: seq<nat>)
    requires Deep(f, d)
    ensures |path| == d + 1
    decreases d
  {
    [|f| - 1] + if d == 0 then [] else RightPath(f[|f| - 1].children, d - 1)
  }

  predicate OnSpine(f: Forest, p: Pointer, d: nat) {
    Deep(f, d) && p.path == RightPath(f, d) && p.len == p.path[d] + 1
  }

  lemma {:induction false} RightPathValid(f: Forest, d: nat)
    requires Deep(f, d)
    ensures var path := RightPath(f, d);
            ValidPath(f, path) && ValidPath(f, path[..d]) && |SliceAt(f, path[..d])| == path[d] + 1
    decreases d
  {
    var path := RightPath(f, d);
    if d > 0 {
      var below := RightPath(f[|f| - 1].children, d - 1);
      RightPathValid(f[|f| - 1].children, d - 1);
      assert path[1..] == below;
      assert path[..d][1..] == below[..d - 1];
    } else {
      assert path[1..] == [];
    }
  }

  /** A pointer to the rightmost node of its depth is never stale. */
  lemma OnSpineFresh(f: Forest, p: Pointer, d: nat)
    requires OnSpine(f, p, d)
    ensures Fresh(f, p)
  {
    RightPathValid(f, d);
  }

  lemma {:induction false} AppendOnSpine(f: Forest, d: nat, n: PlanNode)
    requires Deep(f, d)
    ensures ValidPath(f, RightPath(f, d)) && AppendChild(f, RightPath(f, d), n) == AppendAt(f, d + 1, n)
    decreases d
  {
    var path := RightPath(f, d);
    RightPathValid(f, d);
    if d > 0 {
      AppendOnSpine(f[|f| - 1].children, d - 1, n);
      assert path[1..] == RightPath(f[|f| - 1].children, d - 1);
    }
  }

  lemma {:induction false} SetOnSpine(f: Forest, d: nat, k: string, v: string)
    requires Deep(f, d)
    ensures ValidPath(f, RightPath(f, d)) && SetAttr(f, RightPath(f, d), k, v) == SetAttrAt(f, d, k, v)
    decreases d
  {
    var path := RightPath(f, d);
    RightPathValid(f, d);
    if d > 0 {
      SetOnSpine(f[|f| - 1].children, d - 1, k, v);
      assert path[1..] == RightPath(f[|f| - 1].children, d - 1);
    }
  }

  /** An append below depth d moves nothing the kept pointers point to. */
  lemma {:induction false} AppendKeepsSpine(f: Forest, d: nat, n: PlanNode, j: nat)
    requires j < d && Deep(f, d - 1)
    ensures Deep(f, j) && Deep(AppendAt(f, d, n), j) && RightPath(AppendAt(f, d, n), j) == RightPath(f, j)
    decreases d
  {
    if j > 0 { AppendKeepsSpine(f[|f| - 1].children, d - 1, n, j - 1); }
  }

  lemma {:induction false} SetKeepsSpine(f: Forest, d: nat, k: string, v: string, j: nat)
    requires Deep(f, d) && Deep(f, j)
    ensures Deep(SetAttrAt(f, d, k, v), j) && RightPath(SetAttrAt(f, d, k, v), j) == RightPath(f, j)
    decreases d
  {
    if j > 0 && d > 0 { SetKeepsSpine(f[|f| - 1].children, d - 1, k, v, j - 1); }
  }

  lemma {:induction false} RightPathPrefix(f: Forest, d: nat)
    requires d > 0 && Deep(f, d)
    ensures Deep(f, d - 1) && RightPath(f, d)[..d] == RightPath(f, d - 1)
    decreases d
  {
    DeepBelow(f, d, d - 1);
    if d > 1 { RightPathPrefix(f[|f| - 1].children, d - 1); }
  }

  function Cols(stack: seq<StackEntry>): (cols: seq<int>)
    ensures |cols| == |stack| && forall d :: 0 <= d < |stack| ==> cols[d] == stack[d].col
  {
    seq(|stack|, d requires 0 <= d < |stack| => stack[d].col)
  }

  /** The open operators are the rightmost spine, and the stack points at them. */
  predicate Linked(roots: Forest, stack: seq<StackEntry>) {
    forall d: nat :: d < |stack| ==> OnSpine(roots, stack[d].node, d)
  }

  lemma LinkedDeep(roots: Forest, stack: seq<StackEntry>)
    requires Linked(roots, stack)
    ensures stack != [] ==> Deep(roots, |stack| - 1)
  {
    assert stack != [] ==> OnSpine(roots, stack[|stack| - 1].node, |stack| - 1);
  }

  /** Pop entries at or deeper than the column. */
  method PopDeeper(stack: seq<StackEntry>, col: int) returns (kept: seq<StackEntry>)
    ensures kept <= stack && Cols(kept) == PopTo(Cols(stack), col)
  {
    kept := stack;
    while |kept| > 0 && kept[|kept| - 1].col >= col
      invariant kept <= stack
      invariant PopTo(Cols(stack), col) == PopTo(Cols(kept), col)
    {
      assert Cols(kept)[..|kept| - 1] == Cols(kept[..|kept| - 1]);
      kept := kept[..|kept| - 1];
    }
  }

  lemma LinkedPrefix(roots: Forest, stack: seq<StackEntry>, kept: seq<StackEntry>)
    requires Linked(roots, stack) && kept <= stack
    ensures Linked(roots, kept) && (kept != [] ==> Deep(roots, |kept| - 1))
  {
    forall d: nat | d < |kept| ensures OnSpine(roots, kept[d].node, d) {
      assert OnSpine(roots, stack[d].node, d);
    }
    LinkedDeep(roots, kept);
  }

  lemma RootSpine(roots: Forest, node: PlanNode, col: int)
    ensures Linked(roots + [node], [StackEntry(col, Pointer([|roots|], |roots| + 1))])
    ensures roots + [node] == AppendAt(roots, 0, node)
  {
  }

  lemma ColsThen(kept: seq<StackEntry>, stack: seq<StackEntry>)
    requires |stack| == |kept| + 1 && kept <= stack
    ensures Cols(stack) == Cols(kept) + [stack[|kept|].col]
  {
  }

  /** A bullet row: pop to its parent, append, push. */
  method PushOperator(roots: Forest, stack: seq<StackEntry>, col: nat, op: string)
    returns (roots': Forest, stack': seq<StackEntry>)
    requires Linked(roots, stack)
    ensures Linked(roots', stack')
    ensures Cols(stack') == PopTo(Cols(stack), col) + [col]
    ensures (|stack'| - 1 > 0 ==> Deep(roots, |stack'| - 2))
            && roots' == AppendAt(roots, |stack'| - 1, PlanNode(op, map[], []))
  {
    var kept := PopDeeper(stack, col);
    LinkedPrefix(roots, stack, kept);
    if |kept| == 0 {
      var node := PlanNode(op, map[], []);
      RootSpine(roots, node, col);
      roots' := roots + [node];
      stack' := [StackEntry(col, Pointer([|roots'| - 1], |roots'|))];
    } else {
      roots', stack' := PushBelow(roots, kept, col, op);
    }
    ColsThen(kept, stack');
  }

  /** Append to the children of the stack's top, and push. */
  method PushBelow(roots: Forest, kept: seq<StackEntry>, col: nat, op: string)
    returns (roots': Forest, stack': seq<StackEntry>)
    requires kept != [] && Linked(roots, kept) && Deep(roots, |kept| - 1)
    ensures Linked(roots', stack') && roots' == AppendAt(roots, |kept|, PlanNode(op, map[], []))
    ensures |stack'| == |kept| + 1 && kept <= stack' && stack'[|kept|].col == col
  {
    var node := PlanNode(op, map[], []);
    var parent := kept[|kept| - 1].node;
    roots' := AppendThrough(roots, parent, node, |kept| - 1);
    PushedSpine(roots, kept, node, col, roots');
    var children := SliceAt(roots', parent.path);
    stack' := kept + [StackEntry(col, Pointer(parent.path + [|children| - 1], |children|))];
  }

  /** Appending through a pointer needs it to be fresh. */
  method AppendThrough(roots: Forest, parent: Pointer, node: PlanNode, ghost d: nat) returns (roots': Forest)
    requires OnSpine(roots, parent, d)
    ensures roots' == AppendAt(roots, d + 1, node)
  {
    OnSpineFresh(roots, parent, d);
    AppendOnSpine(roots, d, node);
    roots' := Append(roots, parent, node);
  }

  function Append(roots: Forest, p: Pointer, node: PlanNode): Forest
    requires Fresh(roots, p)
  {
    AppendChild(roots, p.path, node)
  }

  function Set(roots: Forest, p: Pointer, k: string, v: string): Forest
    requires Fresh(roots, p)
  {
    SetAttr(roots, p.path, k, v)
  }

  lemma {:induction false} PushedSpine(roots: Forest, stack: seq<StackEntry>, node: PlanNode, col: int, roots': Forest)
    requires stack != [] && Linked(roots, stack) && Deep(roots, |stack| - 1) && roots' == AppendAt(roots, |stack|, node)
    ensures var parent := stack[|stack| - 1].node;
            && ValidPath(roots', parent.path) && SliceAt(roots', parent.path) != []
            && var children := SliceAt(roots', parent.path);
               Linked(roots', stack + [StackEntry(col, Pointer(parent.path + [|children| - 1], |children|))])
  {
    var d := |stack|;
    assert OnSpine(roots, stack[d - 1].node, d - 1);
    AppendKeepsSpine(roots, d, node, d - 1);
    var pushed := PointerBelow(roots', stack[d - 1].node.path, d);
    StaysLinked(roots, stack, node);
    LinkedThen(roots', stack, StackEntry(col, pushed));
  }

  /** The pointer to the rightmost node at depth d, from the path to its parent. */
  lemma {:induction false} PointerBelow(f: Forest, path: seq<nat>, d: nat) returns (p: Pointer)
    requires d > 0 && Deep(f, d) && Deep(f, d - 1) && path == RightPath(f, d - 1)
    ensures ValidPath(f, path) && SliceAt(f, path) != []
    ensures p == Pointer(path + [|SliceAt(f, path)| - 1], |SliceAt(f, path)|) && OnSpine(f, p, d)
  {
    RightPathPrefix(f, d);
    RightPathValid(f, d);
    SplitLast(RightPath(f, d), d);
    p := Pointer(path + [|SliceAt(f, path)| - 1], |SliceAt(f, path)|);
  }

  lemma {:induction false} StaysLinked(roots: Forest, stack: seq<StackEntry>, node: PlanNode)
    requires stack != [] && Linked(roots, stack) && Deep(roots, |stack| - 1)
    ensures Linked(AppendAt(roots, |stack|, node), stack)
  {
    forall j: nat | j < |stack| ensures OnSpine(AppendAt(roots, |stack|, node), stack[j].node, j) {
      assert OnSpine(roots, stack[j].node, j);
      AppendKeepsSpine(roots, |stack|, node, j);
    }
  }

  lemma {:induction false} LinkedThen(roots: Forest, stack: seq<StackEntry>, entry: StackEntry)
    requires Linked(roots, stack) && OnSpine(roots, entry.node, |stack|)
    ensures Linked(roots, stack + [entry])
  {
  }

  lemma SplitLast<T>(s: seq<T>, d: nat)
    requires |s| == d + 1
    ensures s == s[..d] + [s[d]]
  {
  }

  /** ownerByColumn: from the top of the stack. */
  method OwnerByColumn(stack: seq<StackEntry>, col: int) returns (owner: Option<Pointer>)
    ensures var d := OwnerAt(Cols(stack), col);
            owner == (if d.None? then None else Some(stack[d.value].node))
  {
    var i := |stack|;
    assert Cols(stack)[..i] == Cols(stack);
    while i > 0
      invariant i <= |stack|
      invariant OwnerAt(Cols(stack), col) == OwnerAt(Cols(stack)[..i], col)
    {
      assert Cols(stack)[..i][..i - 1] == Cols(stack)[..i - 1];
      i := i - 1;
      if stack[i].col == col {
        return Some(stack[i].node);
      }
    }
    return None;
  }

  /** A content row under the tree. */
  method AttachAttribute(roots: Forest, stack: seq<StackEntry>, col: int, text: string, row: nat)
    returns (r: Result<Forest, ParseError>)
    requires Linked(roots, stack) && (stack != [] ==> Deep(roots, |stack| - 1))
    ensures var p := Parser(None, roots, Cols(stack), false);
            match ReadAttribute(p, col, text, row)
            case Err(e) => r == Err(e)
            case Ok(p') => r == Ok(p'.roots) && Linked(p'.roots, stack) && p' == p.(roots := p'.roots)
  {
    var owner := OwnerByColumn(stack, col - 2);
    if owner.None? {
      return Err(NoOwner(row, col));
    }
    var kv := SplitKV(text);
    if kv.None? {
      return Err(BadAttribute(row));
    }
    ghost var d := OwnerAt(Cols(stack), col - 2).value;
    assert OnSpine(roots, stack[d].node, d);
    OnSpineFresh(roots, owner.value, d);
    SetOnSpine(roots, d, kv.value.0, kv.value.1);
    var roots' := Set(roots, owner.value, kv.value.0, kv.value.1);
    forall j: nat | j < |stack| ensures OnSpine(roots', stack[j].node, j) {
      assert OnSpine(roots, stack[j].node, j);
      SetKeepsSpine(roots, d, kv.value.0, kv.value.1, j);
    }
    return Ok(roots');
  }

  /** A row that is neither blank nor an operator's. */
  method ReadContent(header: Option<map<string, string>>, roots: Forest, stack: seq<StackEntry>, inHeader: bool,
                     line: string, row: nat)
    returns (error: Option<ParseError>, header': Option<map<string, string>>, roots': Forest)
    requires Linked(roots, stack) && (stack != [] ==> Deep(roots, |stack| - 1))
    ensures error.None? ==> Linked(roots', stack)
    ensures var p := Parser(header, roots, Cols(stack), inHeader);
            var (col, text) := ContentOf(line);
            var r := if text == "" then Ok(p)
                     else if inHeader then ReadHeader(p, text, row)
                     else ReadAttribute(p, col, text, row);
            r == if error.Some? then Err(error.value) else Ok(Parser(header', roots', Cols(stack), inHeader))
  {
    error, header', roots' := None, header, roots;
    var col, content := FindContent(line);
    if content == "" {
      return;
    }
    if inHeader {
      var kv := SplitKV(content);
      if kv.None? {
        error := Some(BadHeader(row));
      } else {
        header' := Some(if header.None? then map[kv.value.0 := kv.value.1] else header.value[kv.value.0 := kv.value.1]);
      }
    } else {
      var attached := AttachAttribute(roots, stack, col, content, row);
      match attached {
        case Err(e) => error := Some(e);
        case Ok(f) => roots' := f;
      }
    }
  }

  /** The loop's body. */
  method ReadOne(header: Option<map<string, string>>, roots: Forest, stack: seq<StackEntry>, inHeader: bool,
                 raw: string, row: nat)
    returns (error: Option<ParseError>, header': Option<map<string, string>>, roots': Forest,
             stack': seq<StackEntry>, inHeader': bool)
    requires Linked(roots, stack) && (stack != [] ==> Deep(roots, |stack| - 1))
    ensures error.None? ==> Linked(roots', stack')
    ensures ReadRow(Parser(header, roots, Cols(stack), inHeader), raw, row)
            == if error.Some? then Err(error.value) else Ok(Parser(header', roots', Cols(stack'), inHeader'))
  {
    error, header', roots', stack', inHeader' := None, header, roots, stack, inHeader;
    var line := TrimRightBlanks(raw);
    if line == "" || TrimSpace(line) == SEPARATOR {
      inHeader' := false;
      return;
    }
    var found := ParseOperatorLine(line);
    if found.Some? {
      inHeader' := false;
      var (col, op) := found.value;
      if op == "" {
        error := Some(NoOperatorName(row));
      } else {
        roots', stack' := PushOperator(roots, stack, col, op);
      }
    } else {
      error, header', roots' := ReadContent(header, roots, stack, inHeader, line, row);
    }
  }

  method ParseExplainTree(rows: seq<string>) returns (r: Result<Explained, ParseError>)
    ensures r == Parse(rows)
  {
    var header: Option<map<string, string>> := None;
    var roots: Forest := [];
    var stack: seq<StackEntry> := [];
    var inHeader := true;
    assert rows[0..] == rows;
    for i := 0 to |rows|
      invariant Linked(roots, stack) && (stack != [] ==> Deep(roots, |stack| - 1))
      invariant ReadRows(START, rows, 0) == ReadRows(Parser(header, roots, Cols(stack), inHeader), rows[i..], i)
    {
      assert rows[i..][0] == rows[i] && rows[i..][1..] == rows[i + 1..];
      var error: Option<ParseError>;
      error, header, roots, stack, inHeader := ReadOne(header, roots, stack, inHeader, rows[i], i);
      if error.Some? {
        return Err(error.value);
      }
      LinkedDeep(roots, stack);
    }
    return Ok(Explained(header, roots));
  }
}
