/** Explicit transaction blocks in a statement list, and the two rules over them. */
module TxnBlocks {

  /** What the rules see of a statement. */
  datatype Stmt = Begin | Close | Ddl | Dml | Other

  /** The statements strictly between `start` and `end` are inside. */
  datatype Block = Block(start: nat, end: nat)

  /** Closings minus openings in [from, until). */
  function Surplus(stmts: seq<Stmt>, from: nat, until: nat): int
    requires from <= until <= |stmts|
    decreases until
  {
    if from == until then 0
    else
      Surplus(stmts, from, until - 1)
      + if stmts[until - 1].Close? then 1 else if stmts[until - 1].Begin? then -1 else 0
  }

  lemma {:induction false} SurplusSplits(stmts: seq<Stmt>, from: nat, mid: nat, until: nat)
    requires from <= mid <= until <= |stmts|
    ensures Surplus(stmts, from, until) == Surplus(stmts, from, mid) + Surplus(stmts, mid, until)
    decreases until
  {
    if mid < until { SurplusSplits(stmts, from, mid, until - 1); }
  }

  /** Closings never outnumber openings from `from` on and before `i`. */
  predicate NeverClosed(stmts: seq<Stmt>, from: nat, i: nat)
    requires i <= |stmts|
  {
    forall j :: from <= j <= i ==> Surplus(stmts, from, j) <= 0
  }

  /** The first place where closings outnumber openings by one, or the end of the input. */
  predicate IsEnd(stmts: seq<Stmt>, start: nat, end: nat) {
    && start < end <= |stmts| && NeverClosed(stmts, start + 1, end)
    && (end < |stmts| ==> Surplus(stmts, start + 1, end + 1) == 1)
  }

  /** Before its end a block has not been closed. */
  lemma NotClosedYet(stmts: seq<Stmt>, start: nat, i: nat, end: nat)
    requires IsEnd(stmts, start, end)
    ensures start < i < end ==> Surplus(stmts, start + 1, i + 1) <= 0
  {
  }

  lemma EndIsUnique(stmts: seq<Stmt>, start: nat, e: nat, e': nat)
    requires IsEnd(stmts, start, e) && IsEnd(stmts, start, e')
    ensures e == e'
  {
    NotClosedYet(stmts, start, e, e');
    NotClosedYet(stmts, start, e', e);
  }

  /** The places of the first i statements that open a block. */
  function Begins(stmts: seq<Stmt>, i: nat): seq<nat>
    requires i <= |stmts|
  {
    if i == 0 then [] else Begins(stmts, i - 1) + if stmts[i - 1].Begin? then [i - 1] else []
  }

  /** One block per BEGIN, in order, each ending where it is first closed. */
  predicate BlocksOf(stmts: seq<Stmt>, blocks: seq<Block>) {
    && |blocks| == |Begins(stmts, |stmts|)|
    && forall x :: 0 <= x < |blocks| ==>
       blocks[x].start == Begins(stmts, |stmts|)[x] && IsEnd(stmts, blocks[x].start, blocks[x].end)
  }

  /** Block x of those opened among the first i statements, closed or not. */
  predicate Closed(stmts: seq<Stmt>, b: Block, i: nat)
    requires i <= |stmts|
  {
    b.end < i && IsEnd(stmts, b.start, b.end)
  }

  /** Still open, with `inside` blocks open inside it. */
  predicate Open(stmts: seq<Stmt>, b: Block, i: nat, inside: nat)
    requires i <= |stmts|
  {
    && b.end == |stmts| && b.start < i && NeverClosed(stmts, b.start + 1, i)
    && Surplus(stmts, b.start + 1, i) + inside == 0
  }

  predicate Stacked(stmts: seq<Stmt>, blocks: seq<Block>, openStack: seq<nat>, i: nat)
    requires i <= |stmts|
  {
    && |blocks| == |Begins(stmts, i)|
    && (forall x :: 0 <= x < |blocks| ==> blocks[x].start == Begins(stmts, i)[x])
    && (forall p, q :: 0 <= p < q < |openStack| ==> openStack[p] != openStack[q])
    && (forall p :: 0 <= p < |openStack| ==>
          openStack[p] < |blocks| && Open(stmts, blocks[openStack[p]], i, |openStack| - 1 - p))
    && (forall x :: 0 <= x < |blocks| && x !in openStack ==> Closed(stmts, blocks[x], i))
  }

  /** One turn of the scan. */
  method ScanOne(stmts: seq<Stmt>, i: nat, blocks: seq<Block>, openStack: seq<nat>)
      returns (blocks': seq<Block>, openStack': seq<nat>)
    requires i < |stmts| && Stacked(stmts, blocks, openStack, i)
    ensures Stacked(stmts, blocks', openStack', i + 1)
  {
    blocks', openStack' := blocks, openStack;
    if stmts[i].Begin? {
      Opened(stmts, blocks, openStack, i);
      blocks' := blocks + [Block(i, |stmts|)];
      openStack' := openStack + [|blocks'| - 1];
    } else if stmts[i].Close? {
      if |openStack| == 0 {
        Passed(stmts, blocks, openStack, i);
        return;
      }
      ClosedTop(stmts, blocks, openStack, i);
      var top := openStack[|openStack| - 1];
      openStack' := openStack[..|openStack| - 1];
      blocks' := blocks[top := blocks[top].(end := i)];
    } else {
      Passed(stmts, blocks, openStack, i);
    }
  }

  method ExplicitTxnBlocks(stmts: seq<Stmt>) returns (blocks: seq<Block>)
    ensures BlocksOf(stmts, blocks)
  {
    blocks := [];
    var openStack: seq<nat> := [];
    for i := 0 to |stmts|
      invariant Stacked(stmts, blocks, openStack, i)
    {
      blocks, openStack := ScanOne(stmts, i, blocks, openStack);
    }
    AtEndOfInput(stmts, blocks, openStack);
  }

  lemma OpenAtEnd(stmts: seq<Stmt>, blocks: seq<Block>, openStack: seq<nat>, x: nat)
    requires Stacked(stmts, blocks, openStack, |stmts|) && x in openStack
    ensures x < |blocks| && IsEnd(stmts, blocks[x].start, blocks[x].end)
  {
    var p :| 0 <= p < |openStack| && openStack[p] == x;
    assert Open(stmts, blocks[openStack[p]], |stmts|, |openStack| - 1 - p);
  }

  lemma AtEndOfInput(stmts: seq<Stmt>, blocks: seq<Block>, openStack: seq<nat>)
    requires Stacked(stmts, blocks, openStack, |stmts|)
    ensures BlocksOf(stmts, blocks)
  {
    forall x | 0 <= x < |blocks| ensures IsEnd(stmts, blocks[x].start, blocks[x].end) {
      if x in openStack { OpenAtEnd(stmts, blocks, openStack, x); }
    }
  }

  lemma OpenNext(stmts: seq<Stmt>, b: Block, i: nat, inside: nat, next: nat)
    requires i < |stmts| && Open(stmts, b, i, inside)
    requires next == inside + (if stmts[i].Begin? then 1 else if stmts[i].Close? then -1 else 0)
    ensures Open(stmts, b, i + 1, next)
  {
  }

  lemma Passed(stmts: seq<Stmt>, blocks: seq<Block>, openStack: seq<nat>, i: nat)
    requires i < |stmts| && Stacked(stmts, blocks, openStack, i) && !stmts[i].Begin?
             && (stmts[i].Close? ==> openStack == [])
    ensures Stacked(stmts, blocks, openStack, i + 1)
  {
    forall p | 0 <= p < |openStack| ensures Open(stmts, blocks[openStack[p]], i + 1, |openStack| - 1 - p) {
      OpenNext(stmts, blocks[openStack[p]], i, |openStack| - 1 - p, |openStack| - 1 - p);
    }
  }

  lemma Opened(stmts: seq<Stmt>, blocks: seq<Block>, openStack: seq<nat>, i: nat)
    requires i < |stmts| && Stacked(stmts, blocks, openStack, i) && stmts[i].Begin?
    ensures Stacked(stmts, blocks + [Block(i, |stmts|)], openStack + [|blocks|], i + 1)
  {
    var blocks', stack' := blocks + [Block(i, |stmts|)], openStack + [|blocks|];
    forall p | 0 <= p < |stack'|
      ensures stack'[p] < |blocks'| && Open(stmts, blocks'[stack'[p]], i + 1, |stack'| - 1 - p)
    {
      if p < |openStack| { StillOpen(stmts, blocks, openStack, i, p); }
    }
    forall x | 0 <= x < |blocks'| && x !in stack' ensures Closed(stmts, blocks'[x], i + 1) {
      StillClosed(stmts, blocks, openStack, i, x);
    }
  }

  lemma StillOpen(stmts: seq<Stmt>, blocks: seq<Block>, openStack: seq<nat>, i: nat, p: nat)
    requires i < |stmts| && Stacked(stmts, blocks, openStack, i) && stmts[i].Begin? && p < |openStack|
    ensures openStack[p] < |blocks| && Open(stmts, blocks[openStack[p]], i + 1, |openStack| - p)
  {
    OpenNext(stmts, blocks[openStack[p]], i, |openStack| - 1 - p, |openStack| - p);
  }

  lemma StillClosed(stmts: seq<Stmt>, blocks: seq<Block>, openStack: seq<nat>, i: nat, x: nat)
    requires i < |stmts| && Stacked(stmts, blocks, openStack, i)
    requires x <= |blocks| && x !in openStack + [|blocks|]
    ensures x < |blocks| && Closed(stmts, blocks[x], i + 1)
  {
    assert (openStack + [|blocks|])[|openStack|] == |blocks|;
    assert x !in openStack;
  }

  lemma AfterPop(openStack: seq<nat>, x: nat)
    requires openStack != []
    ensures x in openStack ==> x == openStack[|openStack| - 1] || x in openStack[..|openStack| - 1]
  {
    assert openStack == openStack[..|openStack| - 1] + [openStack[|openStack| - 1]];
  }

  lemma ClosedTop(stmts: seq<Stmt>, blocks: seq<Block>, openStack: seq<nat>, i: nat)
    requires i < |stmts| && Stacked(stmts, blocks, openStack, i) && stmts[i].Close? && openStack != []
    ensures var top := openStack[|openStack| - 1];
            Stacked(stmts, blocks[top := blocks[top].(end := i)], openStack[..|openStack| - 1], i + 1)
  {
    var n := |openStack| - 1;
    var top, stack' := openStack[n], openStack[..n];
    var blocks' := blocks[top := blocks[top].(end := i)];
    assert Open(stmts, blocks[openStack[n]], i, 0);
    assert Closed(stmts, blocks'[top], i + 1);
    forall p | 0 <= p < |stack'| ensures Open(stmts, blocks'[stack'[p]], i + 1, |stack'| - 1 - p) {
      OpenNext(stmts, blocks[openStack[p]], i, |openStack| - 1 - p, |stack'| - 1 - p);
    }
    forall x | 0 <= x < |blocks'| && x !in stack' ensures Closed(stmts, blocks'[x], i + 1) {
      AfterPop(openStack, x);
    }
  }

  /** So the scan can only return these blocks. */
  lemma {:induction false} BlocksAreUnique(stmts: seq<Stmt>, blocks: seq<Block>, blocks': seq<Block>)
    requires BlocksOf(stmts, blocks) && BlocksOf(stmts, blocks')
    ensures blocks == blocks'
  {
    forall x | 0 <= x < |blocks| ensures blocks[x] == blocks'[x] {
      EndIsUnique(stmts, blocks[x].start, blocks[x].end, blocks'[x].end);
    }
  }

  /** Where an outer block is closed, an inner one that reaches further would have been closed twice. */
  lemma Crossing(stmts: seq<Stmt>, a: Block, inner: nat)
    requires IsEnd(stmts, a.start, a.end) && a.start < inner < a.end < |stmts| && stmts[inner].Begin?
    ensures Surplus(stmts, inner + 1, a.end + 1) >= 2
  {
    SurplusSplits(stmts, a.start + 1, inner + 1, a.end + 1);
    assert Surplus(stmts, a.start + 1, inner) <= 0;
  }

  /** Two blocks are either apart or one inside the other. */
  lemma Laminar(stmts: seq<Stmt>, a: Block, b: Block)
    requires IsEnd(stmts, a.start, a.end) && IsEnd(stmts, b.start, b.end) && a.start < b.start
    requires b.start < |stmts| && stmts[b.start].Begin?
    ensures a.end <= b.start || b.end <= a.end
  {
    NotClosedYet(stmts, b.start, a.end, b.end);
    if b.start < a.end < |stmts| { Crossing(stmts, a, b.start); }
  }

  // ---- the rules ----

  predicate Increasing(places: seq<nat>) {
    forall x, y :: 0 <= x < y < |places| ==> places[x] < places[y]
  }

  /** Statement i of the block is a schema change, and not the block's first. */
  predicate Additional(stmts: seq<Stmt>, b: Block, i: nat) {
    && b.start < i < b.end && i < |stmts| && stmts[i].Ddl?
    && exists j :: b.start < j < i && stmts[j].Ddl?
  }

  /** The places of the block's additional schema changes, in order. */
  ghost predicate AreAdditional(stmts: seq<Stmt>, b: Block, places: seq<nat>) {
    Increasing(places) && forall i: nat :: i in places <==> Additional(stmts, b, i)
  }

  function Flatten(parts: seq<seq<nat>>): seq<nat> {
    if parts == [] then [] else Flatten(parts[..|parts| - 1]) + parts[|parts| - 1]
  }

  /** Block by block, the places of the additional schema changes. */
  ghost predicate AdditionalByBlock(stmts: seq<Stmt>, blocks: seq<Block>, parts: seq<seq<nat>>) {
    |parts| == |blocks| && forall x :: 0 <= x < |blocks| ==> AreAdditional(stmts, blocks[x], parts[x])
  }

  /** The rule on one block. */
  method ExtraInBlock(stmts: seq<Stmt>, blk: Block) returns (places: seq<nat>)
    requires blk.start < blk.end <= |stmts|
    ensures AreAdditional(stmts, blk, places)
  {
    places := [];
    var seenFirst := false;
    for i := blk.start + 1 to blk.end
      invariant seenFirst <==> exists j :: blk.start < j < i && stmts[j].Ddl?
      invariant Increasing(places)
      invariant forall k: nat :: k in places <==> k < i && Additional(stmts, blk, k)
    {
      if !stmts[i].Ddl? { continue; }
      if !seenFirst {
        seenFirst := true;
        continue;
      }
      Grows(places, i);
      places := places + [i];
    }
  }

  lemma Grows(places: seq<nat>, i: nat)
    requires Increasing(places) && forall k: nat :: k in places ==> k < i
    ensures Increasing(places + [i])
  {
    forall x | 0 <= x < |places| ensures places[x] < i { assert places[x] in places; }
  }

  /** multipleDDLInTxnRule: the places it reports. */
  method MultipleDDLInTxn(stmts: seq<Stmt>) returns (findings: seq<nat>)
    ensures exists blocks, parts ::
              BlocksOf(stmts, blocks) && AdditionalByBlock(stmts, blocks, parts) && findings == Flatten(parts)
  {
    findings := [];
    var found := ExplicitTxnBlocks(stmts);
    ghost var parts: seq<seq<nat>> := [];
    for x := 0 to |found|
      invariant AdditionalByBlock(stmts, found[..x], parts) && findings == Flatten(parts)
    {
      assert IsEnd(stmts, found[x].start, found[x].end);
      var places := ExtraInBlock(stmts, found[x]);
      assert (parts + [places])[..x] == parts;
      parts := parts + [places];
      findings := findings + places;
    }
    assert found[..|found|] == found;
  }

  lemma {:induction false} IncreasingIsUnique(a: seq<nat>, b: seq<nat>)
    requires Increasing(a) && Increasing(b) && forall i: nat :: i in a <==> i in b
    ensures a == b
  {
    if a == [] {
      assert forall k :: 0 <= k < |b| ==> b[k] in b;
    } else {
      var x := a[|a| - 1];
      assert x in b;
      var y := b[|b| - 1];
      assert y in a;
      assert x == y;
      var a', b' := a[..|a| - 1], b[..|b| - 1];
      assert a == a' + [x] && b == b' + [x];
      forall i: nat {:trigger i in a'} ensures i in a' <==> i in b' {
        assert i in a <==> i in b;
        assert i in a' <==> i in a && i != x;
        assert i in b' <==> i in b && i != x;
      }
      IncreasingIsUnique(a', b');
    }
  }

  /** So the rule can only report these places. */
  lemma FindingsAreUnique(stmts: seq<Stmt>, blocks: seq<Block>, parts: seq<seq<nat>>, parts': seq<seq<nat>>)
    requires AdditionalByBlock(stmts, blocks, parts) && AdditionalByBlock(stmts, blocks, parts')
    ensures parts == parts'
  {
    forall x | 0 <= x < |parts| ensures parts[x] == parts'[x] {
      assert AreAdditional(stmts, blocks[x], parts[x]) && AreAdditional(stmts, blocks[x], parts'[x]);
      IncreasingIsUnique(parts[x], parts'[x]);
    }
  }

  // ---- how many ----

  /** The schema changes inside the block. */
  function SchemaChanges(stmts: seq<Stmt>, b: Block): set<nat> {
    set i: nat | b.start < i < b.end && i < |stmts| && stmts[i].Ddl?
  }

  function Max0(n: int): nat {
    if n < 0 then 0 else n
  }

  /** Over all blocks, how many schema changes there are beyond the first of each. */
  function Excess(stmts: seq<Stmt>, blocks: seq<Block>): nat {
    if blocks == [] then 0
    else Excess(stmts, blocks[..|blocks| - 1]) + Max0(|SchemaChanges(stmts, blocks[|blocks| - 1])| - 1)
  }

  function Elements(places: seq<nat>): set<nat> {
    set x | x in places
  }

  lemma ElementsThen(init: seq<nat>, last: nat)
    requires forall x :: x in init ==> x < last
    ensures |Elements(init + [last])| == |Elements(init)| + 1
  {
    assert Elements(init + [last]) == Elements(init) + {last};
  }

  lemma {:induction false} IncreasingCounts(places: seq<nat>)
    requires Increasing(places)
    ensures |Elements(places)| == |places|
  {
    if places != [] {
      var init, last := places[..|places| - 1], places[|places| - 1];
      assert places == init + [last];
      IncreasingCounts(init);
      ElementsThen(init, last);
    }
  }

  lemma {:induction false} LeastOf(s: set<nat>) returns (m: nat)
    requires s != {}
    ensures m in s && forall i :: i in s ==> m <= i
    decreases |s|
  {
    var x :| x in s;
    m := x;
    if s != {x} {
      assert s - {x} != {} by { assert s == s - {x} + {x}; }
      var r := LeastOf(s - {x});
      m := if x < r then x else r;
    }
  }

  /** A block has one finding fewer than it has schema changes, unless it has none. */
  lemma FindingsInBlock(stmts: seq<Stmt>, b: Block, places: seq<nat>)
    requires AreAdditional(stmts, b, places)
    ensures |places| == Max0(|SchemaChanges(stmts, b)| - 1)
  {
    var all, found := SchemaChanges(stmts, b), Elements(places);
    IncreasingCounts(places);
    if all == {} {
      assert found == {} by { assert forall i | i in found :: Additional(stmts, b, i) && i in all; }
    } else {
      var first := LeastOf(all);
      forall i: nat ensures i in found <==> i in all && i != first {
        assert i in places <==> Additional(stmts, b, i);
        if i in all && i != first { assert b.start < first < i && stmts[first].Ddl?; }
        if Additional(stmts, b, i) {
          var j :| b.start < j < i && stmts[j].Ddl?;
          assert j in all;
        }
      }
      assert found == all - {first};
    }
  }

  /** The rule makes exactly that many findings. */
  lemma {:induction false} FindingsCount(stmts: seq<Stmt>, blocks: seq<Block>, parts: seq<seq<nat>>)
    requires AdditionalByBlock(stmts, blocks, parts)
    ensures |Flatten(parts)| == Excess(stmts, blocks)
  {
    if blocks != [] {
      var n := |blocks| - 1;
      assert AreAdditional(stmts, blocks[n], parts[n]);
      FindingsInBlock(stmts, blocks[n], parts[n]);
      FindingsCount(stmts, blocks[..n], parts[..n]);
    }
  }

  /** The block holds a schema change and a data change. */
  predicate Mixes(stmts: seq<Stmt>, b: Block) {
    && (exists i :: b.start < i < b.end && i < |stmts| && stmts[i].Ddl?)
    && (exists i :: b.start < i < b.end && i < |stmts| && stmts[i].Dml?)
  }

  function MixedStarts(stmts: seq<Stmt>, blocks: seq<Block>): seq<nat> {
    if blocks == [] then []
    else MixedStarts(stmts, blocks[..|blocks| - 1])
         + if Mixes(stmts, blocks[|blocks| - 1]) then [blocks[|blocks| - 1].start] else []
  }

  /** ddlAndDMLInTxnRule: one finding per mixed block, at its BEGIN. */
  method DdlAndDMLInTxn(stmts: seq<Stmt>) returns (findings: seq<nat>)
    ensures exists blocks :: BlocksOf(stmts, blocks) && findings == MixedStarts(stmts, blocks)
  {
    findings := [];
    var found := ExplicitTxnBlocks(stmts);
    for x := 0 to |found|
      invariant findings == MixedStarts(stmts, found[..x])
    {
      var blk := found[x];
      assert found[..x + 1][..x] == found[..x];
      assert IsEnd(stmts, blk.start, blk.end);
      var hasDDL, hasDML := false, false;
      for i := blk.start + 1 to blk.end
        invariant hasDDL <==> exists j :: blk.start < j < i && stmts[j].Ddl?
        invariant hasDML <==> exists j :: blk.start < j < i && stmts[j].Dml?
      {
        match stmts[i] {
          case Ddl => hasDDL := true;
          case Dml => hasDML := true;
          case _ =>
        }
      }
      if !hasDDL || !hasDML { continue; }
      findings := findings + [blk.start];
    }
    assert found[..|found|] == found;
  }
}
