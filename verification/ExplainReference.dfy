/**
 A second reading of EXPLAIN rows that keeps no stack: an operator's parent is the
 nearest earlier operator with a smaller column, and an attribute at column c belongs
 to the operator at column c - 2 with nothing at or left of it since.  The parser
 builds the forest whose preorder this is, and fails on the same rows.
 */
module ExplainReference {

  import opened Options
  import opened ExplainTree

  /** One operator, as met in preorder; `parent` is its parent's place, or -1. */
  datatype Visit = Visit(op: string, attrs: map<string, string>, parent: int)

  function Size(f: Forest): nat {
    if f == [] then 0 else Size(f[..|f| - 1]) + 1 + Size(f[|f| - 1].children)
  }

  /** The forest's operators in preorder, numbered from `base`. */
  function Preorder(f: Forest, base: nat, parent: int): (visits: seq<Visit>)
    ensures |visits| == Size(f)
  {
    if f == [] then []
    else
      var last := f[|f| - 1];
      var at := base + Size(f[..|f| - 1]);
      Preorder(f[..|f| - 1], base, parent) + [Visit(last.op, last.attrs, parent)] + Preorder(last.children, at + 1, at)
  }

  // ---- columns alone ----

  /** The nearest earlier operator whose column is smaller, or -1. */
  function NearestSmaller(cols: seq<int>, col: int): (i: int)
    ensures -1 <= i < |cols|
    ensures i >= 0 ==> cols[i] < col
    ensures forall j :: i < j < |cols| ==> cols[j] >= col
  {
    if cols == [] then -1
    else if cols[|cols| - 1] < col then |cols| - 1
    else NearestSmaller(cols[..|cols| - 1], col)
  }

  lemma {:induction false} NearestSmallerIs(cols: seq<int>, col: int, i: int)
    requires -1 <= i < |cols| && (i >= 0 ==> cols[i] < col)
    requires forall j :: i < j < |cols| ==> cols[j] >= col
    ensures NearestSmaller(cols, col) == i
  {
    if i < |cols| - 1 { NearestSmallerIs(cols[..|cols| - 1], col, i); }
  }

  /** Operator i is at the column, and every later one is right of it. */
  predicate IsOpenAt(cols: seq<int>, col: int, i: nat) {
    i < |cols| && cols[i] == col && forall j :: i < j < |cols| ==> cols[j] > col
  }

  function OpenAt(cols: seq<int>, col: int): (r: Option<nat>)
    ensures r.Some? ==> IsOpenAt(cols, col, r.value)
    ensures r.None? ==> forall i: nat :: !IsOpenAt(cols, col, i)
  {
    var i := NearestSmaller(cols, col + 1);
    if i >= 0 && cols[i] == col then Some(i) else None
  }

  // ---- the reference ----

  datatype Flat = Flat(header: Option<map<string, string>>, visits: seq<Visit>, cols: seq<int>, inHeader: bool)

  const NOTHING_READ := Flat(None, [], [], true)

  function FlatAttribute(r: Flat, col: int, text: string, row: nat): (out: Result<Flat, ParseError>)
    requires |r.cols| == |r.visits|
    ensures out.Ok? ==> |out.value.cols| == |out.value.visits|
  {
    match OpenAt(r.cols, col - 2)
    case None => Err(NoOwner(row, col))
    case Some(i) =>
      match SplitKV(text)
      case None => Err(BadAttribute(row))
      case Some((k, v)) => Ok(r.(visits := r.visits[i := r.visits[i].(attrs := r.visits[i].attrs[k := v])]))
  }

  function FlatRow(r: Flat, raw: string, row: nat): (out: Result<Flat, ParseError>)
    requires |r.cols| == |r.visits|
    ensures out.Ok? ==> |out.value.cols| == |out.value.visits|
  {
    match Classify(raw)
    case Visual => Ok(r.(inHeader := false))
    case Operator(col, op) =>
      if op == "" then Err(NoOperatorName(row))
      else Ok(r.(inHeader := false,
                 visits := r.visits + [Visit(op, map[], NearestSmaller(r.cols, col))], cols := r.cols + [col]))
    case Continuation => Ok(r)
    case Content(col, text) =>
      if r.inHeader then
        match SplitKV(text)
        case None => Err(BadHeader(row))
        case Some((k, v)) => Ok(r.(header := Some(if r.header.Some? then r.header.value[k := v] else map[k := v])))
      else FlatAttribute(r, col, text, row)
  }

  function FlatRows(r: Flat, rows: seq<string>, row: nat): (out: Result<Flat, ParseError>)
    requires |r.cols| == |r.visits|
    decreases |rows|
  {
    if rows == [] then Ok(r)
    else match FlatRow(r, rows[0], row)
      case Err(e) => Err(e)
      case Ok(r') => FlatRows(r', rows[1..], row + 1)
  }

  // ---- the rightmost spine in preorder ----

  /** The preorder place of the rightmost node at depth d. */
  function RightIndex(f: Forest, d: nat): (i: nat)
    requires Deep(f, d)
    ensures i < Size(f)
    decreases d
  {
    Size(f[..|f| - 1]) + if d == 0 then 0 else 1 + RightIndex(f[|f| - 1].children, d - 1)
  }

  lemma PreorderLast(init: Forest, last: PlanNode, base: nat, parent: int)
    ensures Size(init + [last]) == Size(init) + 1 + Size(last.children)
    ensures var at := base + Size(init);
            Preorder(init + [last], base, parent)
            == Preorder(init, base, parent) + [Visit(last.op, last.attrs, parent)] + Preorder(last.children, at + 1, at)
  {
    var f := init + [last];
    assert f[..|f| - 1] == init && f[|f| - 1] == last;
  }

  /** g is f with a leaf under the rightmost node at depth d - 1. */
  predicate Grown(f: Forest, g: Forest, d: nat, leaf: PlanNode)
    decreases d
  {
    if d == 0 then g == f + [leaf]
    else
      && f != [] && g != []
      && var init, last, last' := f[..|f| - 1], f[|f| - 1], g[|g| - 1];
      && f == init + [last] && g == init + [last'] && last' == last.(children := last'.children)
      && Grown(last.children, last'.children, d - 1, leaf)
  }

  lemma {:induction false} AppendGrows(f: Forest, d: nat, leaf: PlanNode)
    requires d > 0 ==> Deep(f, d - 1)
    ensures Grown(f, AppendAt(f, d, leaf), d, leaf)
    decreases d
  {
    if d > 0 { AppendGrows(f[|f| - 1].children, d - 1, leaf); }
  }

  /** Where an operator appended at depth d finds its parent. */
  function ParentAt(f: Forest, d: nat, base: nat, parent: int): int
    requires d > 0 ==> Deep(f, d - 1)
  {
    if d == 0 then parent else base + RightIndex(f, d - 1)
  }

  lemma LastGrows(init: Forest, last: PlanNode, below: Forest, w: Visit, base: nat, parent: int)
    requires var at := base + Size(init); Preorder(below, at + 1, at) == Preorder(last.children, at + 1, at) + [w]
    ensures Preorder(init + [last.(children := below)], base, parent) == Preorder(init + [last], base, parent) + [w]
  {
    PreorderLast(init, last, base, parent);
    PreorderLast(init, last.(children := below), base, parent);
  }

  lemma RootGrows(f: Forest, leaf: PlanNode, base: nat, parent: int)
    requires leaf.attrs == map[] && leaf.children == []
    ensures Preorder(f + [leaf], base, parent) == Preorder(f, base, parent) + [Visit(leaf.op, map[], parent)]
  {
    PreorderLast(f, leaf, base, parent);
  }

  /** Appending a leaf on the right appends to the preorder. */
  lemma {:induction false} PreorderAppend(f: Forest, g: Forest, d: nat, leaf: PlanNode, base: nat, parent: int)
    requires Grown(f, g, d, leaf) && (d > 0 ==> Deep(f, d - 1))
    requires leaf.attrs == map[] && leaf.children == []
    ensures Preorder(g, base, parent)
            == Preorder(f, base, parent) + [Visit(leaf.op, map[], ParentAt(f, d, base, parent))]
    decreases d
  {
    if d == 0 {
      RootGrows(f, leaf, base, parent);
    } else {
      var init, last, below := f[..|f| - 1], f[|f| - 1], g[|g| - 1].children;
      var at := base + Size(init);
      PreorderAppend(last.children, below, d - 1, leaf, at + 1, at);
      LastGrows(init, last, below, Visit(leaf.op, map[], ParentAt(f, d, base, parent)), base, parent);
    }
  }

  lemma {:induction false} IndexAppend(f: Forest, g: Forest, d: nat, leaf: PlanNode, j: nat)
    requires Grown(f, g, d, leaf) && j <= d
    ensures Deep(g, j) && (if j == d then RightIndex(g, d) == Size(f)
                           else Deep(f, j) && RightIndex(g, j) == RightIndex(f, j))
    decreases d
  {
    if d == 0 {
      assert g[..|g| - 1] == f;
    } else if j > 0 {
      IndexAppend(f[|f| - 1].children, g[|g| - 1].children, d - 1, leaf, j - 1);
    }
  }

  function SetVisit(visits: seq<Visit>, i: nat, k: string, v: string): seq<Visit>
    requires i < |visits|
  {
    visits[i := visits[i].(attrs := visits[i].attrs[k := v])]
  }

  /** g is f with an attribute set in the rightmost node at depth d. */
  predicate Changed(f: Forest, g: Forest, d: nat, k: string, v: string)
    decreases d
  {
    && f != [] && g != []
    && var init, last, last' := f[..|f| - 1], f[|f| - 1], g[|g| - 1];
    && f == init + [last] && g == init + [last']
    && if d == 0 then last' == last.(attrs := last.attrs[k := v])
       else last' == last.(children := last'.children) && Changed(last.children, last'.children, d - 1, k, v)
  }

  lemma {:induction false} SetChanges(f: Forest, d: nat, k: string, v: string)
    requires Deep(f, d)
    ensures Changed(f, SetAttrAt(f, d, k, v), d, k, v)
    decreases d
  {
    if d > 0 { SetChanges(f[|f| - 1].children, d - 1, k, v); }
  }

  lemma LastSet(init: Forest, last: PlanNode, k: string, v: string, base: nat, parent: int)
    ensures |Preorder(init + [last], base, parent)| > Size(init)
    ensures Preorder(init + [last.(attrs := last.attrs[k := v])], base, parent)
            == SetVisit(Preorder(init + [last], base, parent), Size(init), k, v)
  {
    PreorderLast(init, last, base, parent);
    PreorderLast(init, last.(attrs := last.attrs[k := v]), base, parent);
  }

  lemma LastSetBelow(f: Forest, g: Forest, init: Forest, last: PlanNode, below: Forest, i: nat, k: string, v: string,
                     base: nat, parent: int)
    requires f == init + [last] && g == init + [last.(children := below)] && i < Size(last.children)
    requires var at := base + Size(init);
             Preorder(below, at + 1, at) == SetVisit(Preorder(last.children, at + 1, at), i, k, v)
    ensures Size(f) > Size(init) + 1 + i
    ensures Preorder(g, base, parent) == SetVisit(Preorder(f, base, parent), Size(init) + 1 + i, k, v)
  {
    PreorderLast(init, last, base, parent);
    PreorderLast(init, last.(children := below), base, parent);
  }

  lemma {:induction false} PreorderSet(f: Forest, g: Forest, d: nat, k: string, v: string, base: nat, parent: int)
    requires Deep(f, d) && Changed(f, g, d, k, v)
    ensures Preorder(g, base, parent) == SetVisit(Preorder(f, base, parent), RightIndex(f, d), k, v)
    decreases d
  {
    var init, last := f[..|f| - 1], f[|f| - 1];
    if d == 0 {
      LastSet(init, last, k, v, base, parent);
    } else {
      assert RightIndex(f, d) == Size(init) + 1 + RightIndex(last.children, d - 1);
      var at, below := base + Size(init), g[|g| - 1].children;
      PreorderSet(last.children, below, d - 1, k, v, at + 1, at);
      LastSetBelow(f, g, init, last, below, RightIndex(last.children, d - 1), k, v, base, parent);
    }
  }

  lemma {:induction false} IndexSet(f: Forest, d: nat, k: string, v: string, j: nat)
    requires Deep(f, d) && Deep(f, j)
    ensures Deep(SetAttrAt(f, d, k, v), j) && RightIndex(SetAttrAt(f, d, k, v), j) == RightIndex(f, j)
    decreases d
  {
    var r := SetAttrAt(f, d, k, v);
    assert r[..|r| - 1] == f[..|f| - 1];
    if d > 0 && j > 0 { IndexSet(f[|f| - 1].children, d - 1, k, v, j - 1); }
  }

  // ---- the stack's columns against all columns ----

  function Last(spine: seq<nat>): int {
    if spine == [] then -1 else spine[|spine| - 1]
  }

  /** The open operators among all operators read: each is the nearest smaller column before the next. */
  predicate Chain(all: seq<int>, cols: seq<int>, spine: seq<nat>) {
    && |spine| == |cols|
    && (spine != [] ==>
          var d := |spine| - 1;
          && spine[d] < |all| && all[spine[d]] == cols[d]
          && NearestSmaller(all[..spine[d]], cols[d]) == Last(spine[..d])
          && Chain(all, cols[..d], spine[..d]))
  }

  lemma {:induction false} ChainGrows(all: seq<int>, cols: seq<int>, spine: seq<nat>, col: int)
    requires Chain(all, cols, spine)
    ensures Chain(all + [col], cols, spine)
  {
    if spine != [] {
      var d := |spine| - 1;
      assert (all + [col])[..spine[d]] == all[..spine[d]];
      ChainGrows(all, cols[..d], spine[..d], col);
    }
  }

  /** What popping leaves on top is the nearest smaller column. */
  lemma {:induction false} PoppedToNearest(all: seq<int>, cols: seq<int>, spine: seq<nat>, col: int)
    requires Chain(all, cols, spine)
    requires forall i :: Last(spine) < i < |all| ==> all[i] >= col
    ensures var k := |PopTo(cols, col)|;
            NearestSmaller(all, col) == Last(spine[..k]) && Chain(all, PopTo(cols, col), spine[..k])
  {
    var d := |spine| - 1;
    if cols == [] || cols[d] < col {
      NearestSmallerIs(all, col, Last(spine));
      assert spine[..|cols|] == spine;
    } else {
      var before := all[..spine[d]];
      forall i | Last(spine[..d]) < i < |all| ensures all[i] >= col {
        if i < spine[d] { assert before[i] >= cols[d]; }
      }
      PoppedToNearest(all, cols[..d], spine[..d], col);
      var k := |PopTo(cols, col)|;
      assert spine[..d][..k] == spine[..k];
    }
  }

  /** All open operators are left of a column right of the topmost one. */
  lemma {:induction false} NoOwnerAbove(all: seq<int>, cols: seq<int>, spine: seq<nat>, col: int)
    requires Chain(all, cols, spine) && (cols != [] ==> cols[|cols| - 1] < col)
    ensures OwnerAt(cols, col).None?
  {
    if cols != [] {
      var d := |spine| - 1;
      if d > 0 { assert all[..spine[d]][spine[d - 1]] == cols[..d][d - 1]; }
      NoOwnerAbove(all, cols[..d], spine[..d], col);
    }
  }

  /** The operator found on the stack is the one open at the column. */
  lemma {:induction false} OwnerIsOpen(all: seq<int>, cols: seq<int>, spine: seq<nat>, col: int)
    requires Chain(all, cols, spine)
    ensures match OwnerAt(cols, col)
            case None => PopTo(cols, col + 1) == [] || PopTo(cols, col + 1)[|PopTo(cols, col + 1)| - 1] != col
            case Some(d) => |PopTo(cols, col + 1)| == d + 1
  {
    if cols != [] {
      var d := |spine| - 1;
      if cols[d] > col {
        OwnerIsOpen(all, cols[..d], spine[..d], col);
      } else if cols[d] < col {
        NoOwnerAbove(all, cols, spine, col);
      }
    }
  }

  // ---- the parser reads what the reference reads ----

  predicate OnRight(f: Forest, spine: seq<nat>) {
    forall d: nat :: d < |spine| ==> Deep(f, d) && spine[d] == RightIndex(f, d)
  }

  predicate Matches(p: Parser, r: Flat, spine: seq<nat>) {
    && p.header == r.header && p.inHeader == r.inHeader
    && Preorder(p.roots, 0, -1) == r.visits && |r.visits| == |r.cols|
    && Chain(r.cols, p.cols, spine) && Last(spine) == |r.cols| - 1
    && OnRight(p.roots, spine)
  }

  lemma OpenedTree(f: Forest, g: Forest, kept: seq<nat>, op: string)
    requires OnRight(f, kept) && Grown(f, g, |kept|, PlanNode(op, map[], []))
    ensures Preorder(g, 0, -1) == Preorder(f, 0, -1) + [Visit(op, map[], Last(kept))]
    ensures OnRight(g, kept + [Size(f)])
  {
    var leaf, k := PlanNode(op, map[], []), |kept|;
    if k > 0 { assert Deep(f, k - 1) && kept[k - 1] == RightIndex(f, k - 1); }
    PreorderAppend(f, g, k, leaf, 0, -1);
    forall d: nat | d <= k ensures Deep(g, d) && (kept + [Size(f)])[d] == RightIndex(g, d) {
      IndexAppend(f, g, k, leaf, d);
    }
  }

  lemma OpenedColumns(all: seq<int>, cols: seq<int>, spine: seq<nat>, col: int)
    requires Chain(all, cols, spine) && Last(spine) == |all| - 1
    ensures var kept := PopTo(cols, col);
            NearestSmaller(all, col) == Last(spine[..|kept|])
            && Chain(all + [col], kept + [col], spine[..|kept|] + [|all|])
  {
    var kept := PopTo(cols, col);
    var open := spine[..|kept|];
    PoppedToNearest(all, cols, spine, col);
    ChainGrows(all, kept, open, col);
    assert (all + [col])[..|all|] == all && (kept + [col])[..|kept|] == kept && (open + [|all|])[..|kept|] == open;
  }

  /** p' is p with an operator opened at the column. */
  predicate Opened(p: Parser, p': Parser, col: nat, op: string) {
    && p'.header == p.header && !p'.inHeader && p'.cols == PopTo(p.cols, col) + [col]
    && Grown(p.roots, p'.roots, |PopTo(p.cols, col)|, PlanNode(op, map[], []))
  }

  lemma OpenOpens(p: Parser, col: nat, op: string)
    requires Sound(p)
    ensures Opened(p, Open(p, col, op), col, op)
  {
    var k := |PopTo(p.cols, col)|;
    if k > 0 { DeepBelow(p.roots, |p.cols| - 1, k - 1); }
    AppendGrows(p.roots, k, PlanNode(op, map[], []));
  }

  lemma OpenMatches(p: Parser, p': Parser, r: Flat, spine: seq<nat>, col: nat, op: string) returns (spine': seq<nat>)
    requires Matches(p, r, spine) && Opened(p, p', col, op)
    ensures Matches(p', Flat(r.header, r.visits + [Visit(op, map[], NearestSmaller(r.cols, col))],
                             r.cols + [col], false),
                    spine')
  {
    var open := spine[..|PopTo(p.cols, col)|];
    OpenedColumns(r.cols, p.cols, spine, col);
    assert OnRight(p.roots, open);
    assert Size(p.roots) == |r.cols|;
    OpenedTree(p.roots, p'.roots, open, op);
    spine' := open + [|r.cols|];
  }

  lemma SetTree(f: Forest, spine: seq<nat>, d: nat, k: string, v: string)
    requires OnRight(f, spine) && d < |spine|
    ensures Deep(f, d) && spine[d] < Size(f)
    ensures var g := SetAttrAt(f, d, k, v);
            Preorder(g, 0, -1) == SetVisit(Preorder(f, 0, -1), spine[d], k, v) && OnRight(g, spine)
  {
    assert Deep(f, d) && spine[d] == RightIndex(f, d);
    var g := SetAttrAt(f, d, k, v);
    SetChanges(f, d, k, v);
    PreorderSet(f, g, d, k, v, 0, -1);
    forall j: nat | j < |spine| ensures Deep(g, j) && spine[j] == RightIndex(g, j) {
      IndexSet(f, d, k, v, j);
    }
  }

  /** The operator found on the stack is the one open at the column, or there is neither. */
  lemma OwnerColumns(all: seq<int>, cols: seq<int>, spine: seq<nat>, col: int)
    requires Chain(all, cols, spine) && Last(spine) == |all| - 1
    ensures match OwnerAt(cols, col)
            case None => OpenAt(all, col).None?
            case Some(d) => OpenAt(all, col) == Some(spine[d])
  {
    PoppedToNearest(all, cols, spine, col + 1);
    OwnerIsOpen(all, cols, spine, col);
    var kept := PopTo(cols, col + 1);
    if kept != [] { assert all[spine[..|kept|][|kept| - 1]] == kept[|kept| - 1]; }
  }

  lemma AttributeMatches(p: Parser, r: Flat, spine: seq<nat>, col: int, text: string, row: nat)
    requires Matches(p, r, spine) && Sound(p)
    ensures match ReadAttribute(p, col, text, row)
            case Err(e) => FlatAttribute(r, col, text, row) == Err(e)
            case Ok(p') => FlatAttribute(r, col, text, row).Ok?
                           && Matches(p', FlatAttribute(r, col, text, row).value, spine)
  {
    OwnerColumns(r.cols, p.cols, spine, col - 2);
    var owner, kv := OwnerAt(p.cols, col - 2), SplitKV(text);
    if owner.Some? && kv.Some? {
      SetTree(p.roots, spine, owner.value, kv.value.0, kv.value.1);
    }
  }

  lemma RowMatches(p: Parser, r: Flat, spine: seq<nat>, raw: string, row: nat) returns (spine': seq<nat>)
    requires Matches(p, r, spine) && Sound(p)
    ensures match ReadRow(p, raw, row)
            case Err(e) => FlatRow(r, raw, row) == Err(e)
            case Ok(p') => FlatRow(r, raw, row).Ok? && Matches(p', FlatRow(r, raw, row).value, spine')
  {
    spine' := spine;
    var c := Classify(raw);
    if c.Operator? && c.op != "" {
      OpenOpens(p, c.bullet, c.op);
      spine' := OpenMatches(p, Open(p, c.bullet, c.op), r, spine, c.bullet, c.op);
    } else if c.Content? && !p.inHeader {
      AttributeMatches(p, r, spine, c.col, c.text, row);
    }
  }

  lemma {:induction false} RowsMatch(p: Parser, r: Flat, spine: seq<nat>, rows: seq<string>, row: nat)
      returns (spine': seq<nat>)
    requires Matches(p, r, spine) && Sound(p)
    ensures match ReadRows(p, rows, row)
            case Err(e) => FlatRows(r, rows, row) == Err(e)
            case Ok(p') => FlatRows(r, rows, row).Ok? && Matches(p', FlatRows(r, rows, row).value, spine')
    decreases |rows|
  {
    spine' := spine;
    if rows == [] {
    } else {
      spine' := RowMatches(p, r, spine, rows[0], row);
      var next := ReadRow(p, rows[0], row);
      if next.Ok? {
        spine' := RowsMatch(next.value, FlatRow(r, rows[0], row).value, spine', rows[1..], row + 1);
      }
    }
  }

  /**
   On every list of rows the stack parser fails exactly as the stackless reading does, or
   returns its header and the forest with its preorder: the bullet rows in order, each
   under the nearest earlier operator with a smaller column.
   */
  lemma ParseIsReference(rows: seq<string>)
    ensures match Parse(rows)
            case Err(e) => FlatRows(NOTHING_READ, rows, 0) == Err(e)
            case Ok(out) =>
              && FlatRows(NOTHING_READ, rows, 0).Ok?
              && FlatRows(NOTHING_READ, rows, 0).value.header == out.header
              && FlatRows(NOTHING_READ, rows, 0).value.visits == Preorder(out.plan, 0, -1)
  {
    assert Matches(START, NOTHING_READ, []);
    var spine := RowsMatch(START, NOTHING_READ, [], rows, 0);
  }

  predicate Increasing(cols: seq<int>) {
    forall d, d' :: 0 <= d < d' < |cols| ==> cols[d] < cols[d']
  }

  lemma {:induction false} ChainIncreases(all: seq<int>, cols: seq<int>, spine: seq<nat>)
    requires Chain(all, cols, spine)
    ensures Increasing(cols)
  {
    if |cols| > 1 {
      var n := |cols| - 1;
      ChainIncreases(all, cols[..n], spine[..n]);
      assert all[..spine[n]][spine[n - 1]] == all[spine[n - 1]] == cols[..n][n - 1];
    }
  }

  /** At every point of every accepted input the open operators' columns increase strictly along the rightmost spine. */
  lemma StackIncreases(rows: seq<string>)
    ensures match ReadRows(START, rows, 0)
            case Err(_) => true
            case Ok(p) => Increasing(p.cols) && (p.cols != [] ==> Deep(p.roots, |p.cols| - 1))
  {
    assert Matches(START, NOTHING_READ, []);
    var spine := RowsMatch(START, NOTHING_READ, [], rows, 0);
    var out := ReadRows(START, rows, 0);
    if out.Ok? {
      ChainIncreases(FlatRows(NOTHING_READ, rows, 0).value.cols, out.value.cols, spine);
    }
  }

  // ---- a preorder with parents determines the forest ----

  lemma {:induction false} ParentsWithin(f: Forest, base: nat, parent: int, i: nat)
    requires i < Size(f)
    ensures var q := Preorder(f, base, parent)[i].parent; q == parent || base <= q
  {
    var init, last := f[..|f| - 1], f[|f| - 1];
    var at := base + Size(init);
    if i < Size(init) {
      ParentsWithin(init, base, parent, i);
    } else if i > Size(init) {
      ParentsWithin(last.children, at + 1, at, i - Size(init) - 1);
      assert Preorder(f, base, parent)[i] == Preorder(last.children, at + 1, at)[i - Size(init) - 1];
    }
  }

  lemma BelowLastRoot(f: Forest, base: nat, parent: int, i: nat)
    requires f != [] && parent < base && Size(f[..|f| - 1]) < i < Size(f)
    ensures Preorder(f, base, parent)[i].parent != parent
  {
    var init, last := f[..|f| - 1], f[|f| - 1];
    var at := base + Size(init);
    ParentsWithin(last.children, at + 1, at, i - Size(init) - 1);
    assert Preorder(f, base, parent)[i] == Preorder(last.children, at + 1, at)[i - Size(init) - 1];
  }

  lemma LastRootVisit(f: Forest, base: nat, parent: int)
    requires f != []
    ensures Size(f[..|f| - 1]) < Size(f) && Preorder(f, base, parent)[Size(f[..|f| - 1])].parent == parent
  {
  }

  /** The last root is where the outer parent is named for the last time. */
  lemma LastRootNotEarlier(f: Forest, g: Forest, base: nat, parent: int)
    requires f != [] && g != [] && parent < base && Preorder(f, base, parent) == Preorder(g, base, parent)
    ensures Size(f[..|f| - 1]) <= Size(g[..|g| - 1])
  {
    var i := Size(f[..|f| - 1]);
    LastRootVisit(f, base, parent);
    if i > Size(g[..|g| - 1]) {
      BelowLastRoot(g, base, parent, i);
    }
  }

  lemma PartsOf(f: Forest, base: nat, parent: int, visits: seq<Visit>, n: nat)
    requires f != [] && visits == Preorder(f, base, parent) && n == Size(f[..|f| - 1])
    ensures var last := f[|f| - 1];
            && f == f[..|f| - 1] + [last] && n < |visits|
            && Preorder(f[..|f| - 1], base, parent) == visits[..n]
            && visits[n] == Visit(last.op, last.attrs, parent)
            && Preorder(last.children, base + n + 1, base + n) == visits[n + 1..]
  {
  }

  /** So the stackless reading leaves the parser no choice of forest. */
  lemma {:induction false} PreorderDetermines(f: Forest, g: Forest, base: nat, parent: int)
    requires parent < base && Preorder(f, base, parent) == Preorder(g, base, parent)
    ensures f == g
    decreases Size(f)
  {
    if f != [] && g != [] {
      var n := SameParts(f, g, base, parent);
      PreorderDetermines(f[..|f| - 1], g[..|g| - 1], base, parent);
      PreorderDetermines(f[|f| - 1].children, g[|g| - 1].children, base + n + 1, base + n);
    } else {
      assert Size(f) == |Preorder(f, base, parent)| == Size(g);
    }
  }

  lemma SameParts(f: Forest, g: Forest, base: nat, parent: int) returns (n: nat)
    requires f != [] && g != [] && parent < base && Preorder(f, base, parent) == Preorder(g, base, parent)
    ensures var u, v := f[|f| - 1], g[|g| - 1];
            && f == f[..|f| - 1] + [u] && g == g[..|g| - 1] + [v] && u.op == v.op && u.attrs == v.attrs
            && Size(f[..|f| - 1]) < Size(f) && Size(u.children) < Size(f)
            && Preorder(f[..|f| - 1], base, parent) == Preorder(g[..|g| - 1], base, parent)
            && Preorder(u.children, base + n + 1, base + n) == Preorder(v.children, base + n + 1, base + n)
  {
    LastRootNotEarlier(f, g, base, parent);
    LastRootNotEarlier(g, f, base, parent);
    n := Size(f[..|f| - 1]);
    PartsOf(f, base, parent, Preorder(f, base, parent), n);
    PartsOf(g, base, parent, Preorder(f, base, parent), n);
  }
}
