/**
 The two edit distances.  Each is defined as the least cost of an alignment through a
 recurrence on prefixes; the row-by-row programs compute that recurrence.
 */
module EditDistance {

  import opened Bytes

  function Min(x: nat, y: nat): nat {
    if x <= y then x else y
  }

  /** a ends in the two bytes b ends in, swapped. */
  predicate SwapsAt(a: Bytes, b: Bytes, i: nat, j: nat)
    requires i <= |a| && j <= |b|
  {
    i >= 2 && j >= 2 && a[i - 1] == b[j - 2] && a[i - 2] == b[j - 1]
  }

  /**
   The best last edit, given what is left: up for a deletion, left for an insertion, diag
   for a kept or substituted byte.
   */
  function Cell(up: nat, left: nat, diag: nat, same: bool): (d: nat)
    ensures d <= up + 1 && d <= left + 1 && d <= diag + if same then 0 else 1
    ensures d == up + 1 || d == left + 1 || d == diag + if same then 0 else 1
  {
    Min(Min(up + 1, left + 1), diag + if same then 0 else 1)
  }

  /** The distance of a[..i] and b[..j]; `swaps` says whether swapping neighbours is one edit. */
  function Dist(a: Bytes, b: Bytes, i: nat, j: nat, swaps: bool): nat
    requires i <= |a| && j <= |b|
    decreases i + j
  {
    if i == 0 then j
    else if j == 0 then i
    else
      var edited := Cell(Dist(a, b, i - 1, j, swaps), Dist(a, b, i, j - 1, swaps), Dist(a, b, i - 1, j - 1, swaps),
                         a[i - 1] == b[j - 1]);
      if swaps && SwapsAt(a, b, i, j) then Min(edited, Dist(a, b, i - 2, j - 2, swaps) + 1) else edited
  }

  function Lev(a: Bytes, b: Bytes): nat {
    Dist(a, b, |a|, |b|, false)
  }

  function Osa(a: Bytes, b: Bytes): nat {
    Dist(a, b, |a|, |b|, true)
  }

  // ---- alignments ----

  datatype Edit =
    | Keep(c: Byte)
    | Substitute(x: Byte, y: Byte)
    | Insert(c: Byte)
    | Delete(c: Byte)
    | Swap(x: Byte, y: Byte)

  function From(e: Edit): Bytes {
    match e
    case Keep(c) => [c]
    case Substitute(x, _) => [x]
    case Insert(_) => []
    case Delete(c) => [c]
    case Swap(x, y) => [x, y]
  }

  function To(e: Edit): Bytes {
    match e
    case Keep(c) => [c]
    case Substitute(_, y) => [y]
    case Insert(c) => [c]
    case Delete(_) => []
    case Swap(x, y) => [y, x]
  }

  function Source(al: seq<Edit>): Bytes {
    if al == [] then [] else Source(al[..|al| - 1]) + From(al[|al| - 1])
  }

  function Target(al: seq<Edit>): Bytes {
    if al == [] then [] else Target(al[..|al| - 1]) + To(al[|al| - 1])
  }

  function Cost(al: seq<Edit>): nat {
    if al == [] then 0 else Cost(al[..|al| - 1]) + if al[|al| - 1].Keep? then 0 else 1
  }

  predicate Allowed(al: seq<Edit>, swaps: bool) {
    swaps || forall k :: 0 <= k < |al| ==> !al[k].Swap?
  }

  lemma Snoc(al: seq<Edit>, e: Edit)
    ensures Source(al + [e]) == Source(al) + From(e)
    ensures Target(al + [e]) == Target(al) + To(e)
    ensures Cost(al + [e]) == Cost(al) + if e.Keep? then 0 else 1
  {
    assert (al + [e])[..|al|] == al;
  }

  /** No alignment costs less than the distance. */
  lemma {:induction false} NoCheaperAlignment(a: Bytes, b: Bytes, i: nat, j: nat, swaps: bool, al: seq<Edit>)
    requires i <= |a| && j <= |b| && Source(al) == a[..i] && Target(al) == b[..j] && Allowed(al, swaps)
    ensures Dist(a, b, i, j, swaps) <= Cost(al)
    decreases |al|
  {
    if al == [] {
    } else {
      var init, e := al[..|al| - 1], al[|al| - 1];
      var i', j' := i - |From(e)|, j - |To(e)|;
      assert a[..i'] == Source(init) && a[i'..i] == From(e) && b[..j'] == Target(init) && b[j'..j] == To(e);
      NoCheaperAlignment(a, b, i', j', swaps, init);
      if i == 0 || j == 0 {
        LengthsApart(al);
      } else {
        LastEdit(a, b, i, j, swaps, e);
      }
    }
  }

  lemma {:induction false} LengthsApart(al: seq<Edit>)
    ensures |Source(al)| <= |Target(al)| + Cost(al) && |Target(al)| <= |Source(al)| + Cost(al)
  {
    if al != [] { LengthsApart(al[..|al| - 1]); }
  }

  lemma LastEdit(a: Bytes, b: Bytes, i: nat, j: nat, swaps: bool, e: Edit)
    requires 0 < i <= |a| && 0 < j <= |b| && |From(e)| <= i && |To(e)| <= j && (e.Swap? ==> swaps)
    requires a[i - |From(e)|..i] == From(e) && b[j - |To(e)|..j] == To(e)
    ensures Dist(a, b, i, j, swaps)
            <= Dist(a, b, i - |From(e)|, j - |To(e)|, swaps) + if e.Keep? then 0 else 1
  {
    if e.Swap? {
      assert a[i - 2..i][0] == a[i - 2] && a[i - 2..i][1] == a[i - 1];
      assert b[j - 2..j][0] == b[j - 2] && b[j - 2..j][1] == b[j - 1];
    } else if e.Keep? {
      assert a[i - 1..i][0] == a[i - 1] && b[j - 1..j][0] == b[j - 1];
    }
  }

  lemma Glue(a: Bytes, i: nat, n: nat)
    requires i <= n <= |a|
    ensures a[..i] + a[i..n] == a[..n]
  {
  }

  /** And one costs exactly the distance. */
  lemma {:induction false} CheapestAlignment(a: Bytes, b: Bytes, i: nat, j: nat, swaps: bool) returns (al: seq<Edit>)
    requires i <= |a| && j <= |b|
    ensures Source(al) == a[..i] && Target(al) == b[..j] && Allowed(al, swaps) && Cost(al) == Dist(a, b, i, j, swaps)
    decreases i + j
  {
    if i == 0 && j == 0 {
      al := [];
    } else {
      var e := BestLast(a, b, i, j, swaps);
      var i', j' := i - |From(e)|, j - |To(e)|;
      var init := CheapestAlignment(a, b, i', j', swaps);
      Snoc(init, e);
      al := init + [e];
      Glue(a, i', i);
      Glue(b, j', j);
    }
  }

  lemma LastByte(a: Bytes, i: nat)
    requires 0 < i <= |a|
    ensures a[i - 1..i] == [a[i - 1]] && a[..i] == a[..i - 1] + [a[i - 1]]
  {
  }

  /** The last edit e leads from the prefixes without it to these. */
  predicate Ends(a: Bytes, b: Bytes, i: nat, j: nat, swaps: bool, e: Edit) {
    && i <= |a| && j <= |b| && |From(e)| <= i && |To(e)| <= j && |From(e)| + |To(e)| > 0 && (e.Swap? ==> swaps)
    && a[i - |From(e)|..i] == From(e) && b[j - |To(e)|..j] == To(e)
    && Dist(a, b, i, j, swaps) == Dist(a, b, i - |From(e)|, j - |To(e)|, swaps) + if e.Keep? then 0 else 1
  }

  lemma LastTwo(a: Bytes, i: nat)
    requires 2 <= i <= |a|
    ensures a[i - 2..i] == [a[i - 2], a[i - 1]]
  {
  }

  /** The distance comes from one of the four last edits. */
  lemma Options(a: Bytes, b: Bytes, i: nat, j: nat, swaps: bool, d: nat)
    requires 0 < i <= |a| && 0 < j <= |b| && d == Dist(a, b, i, j, swaps)
    ensures || d == Dist(a, b, i - 1, j, swaps) + 1
            || d == Dist(a, b, i, j - 1, swaps) + 1
            || d == Dist(a, b, i - 1, j - 1, swaps) + (if a[i - 1] == b[j - 1] then 0 else 1)
            || (swaps && SwapsAt(a, b, i, j) && d == Dist(a, b, i - 2, j - 2, swaps) + 1)
  {
  }

  lemma EndsInDelete(a: Bytes, b: Bytes, i: nat, j: nat, swaps: bool)
    requires 0 < i <= |a| && j <= |b| && Dist(a, b, i, j, swaps) == Dist(a, b, i - 1, j, swaps) + 1
    ensures Ends(a, b, i, j, swaps, Delete(a[i - 1]))
  {
    LastByte(a, i);
  }

  lemma EndsInInsert(a: Bytes, b: Bytes, i: nat, j: nat, swaps: bool)
    requires i <= |a| && 0 < j <= |b| && Dist(a, b, i, j, swaps) == Dist(a, b, i, j - 1, swaps) + 1
    ensures Ends(a, b, i, j, swaps, Insert(b[j - 1]))
  {
    LastByte(b, j);
  }

  lemma EndsInBoth(a: Bytes, b: Bytes, i: nat, j: nat, swaps: bool) returns (e: Edit)
    requires 0 < i <= |a| && 0 < j <= |b|
    requires Dist(a, b, i, j, swaps) == Dist(a, b, i - 1, j - 1, swaps) + if a[i - 1] == b[j - 1] then 0 else 1
    ensures Ends(a, b, i, j, swaps, e)
  {
    LastByte(a, i);
    LastByte(b, j);
    e := if a[i - 1] == b[j - 1] then Keep(a[i - 1]) else Substitute(a[i - 1], b[j - 1]);
  }

  lemma EndsInSwap(a: Bytes, b: Bytes, i: nat, j: nat)
    requires 2 <= i <= |a| && 2 <= j <= |b| && SwapsAt(a, b, i, j)
    requires Dist(a, b, i, j, true) == Dist(a, b, i - 2, j - 2, true) + 1
    ensures Ends(a, b, i, j, true, Swap(a[i - 2], a[i - 1]))
  {
    LastTwo(a, i);
    LastTwo(b, j);
  }

  lemma BestLast(a: Bytes, b: Bytes, i: nat, j: nat, swaps: bool) returns (e: Edit)
    requires i <= |a| && j <= |b| && i + j > 0
    ensures Ends(a, b, i, j, swaps, e)
  {
    if i == 0 {
      EndsInInsert(a, b, i, j, swaps);
      e := Insert(b[j - 1]);
    } else if j == 0 {
      EndsInDelete(a, b, i, j, swaps);
      e := Delete(a[i - 1]);
    } else {
      var d := Dist(a, b, i, j, swaps);
      Options(a, b, i, j, swaps, d);
      if d == Dist(a, b, i - 1, j, swaps) + 1 {
        EndsInDelete(a, b, i, j, swaps);
        e := Delete(a[i - 1]);
      } else if d == Dist(a, b, i, j - 1, swaps) + 1 {
        EndsInInsert(a, b, i, j, swaps);
        e := Insert(b[j - 1]);
      } else if d == Dist(a, b, i - 1, j - 1, swaps) + if a[i - 1] == b[j - 1] then 0 else 1 {
        e := EndsInBoth(a, b, i, j, swaps);
      } else {
        EndsInSwap(a, b, i, j);
        e := Swap(a[i - 2], a[i - 1]);
      }
    }
  }

  /** The distance is the least cost of an alignment. */
  ghost predicate LeastCost(a: Bytes, b: Bytes, swaps: bool, d: nat) {
    && (forall al :: Source(al) == a && Target(al) == b && Allowed(al, swaps) ==> d <= Cost(al))
    && (exists al :: Source(al) == a && Target(al) == b && Allowed(al, swaps) && d == Cost(al))
  }

  lemma DistanceIsLeastCost(a: Bytes, b: Bytes)
    ensures LeastCost(a, b, false, Lev(a, b))
    ensures LeastCost(a, b, true, Osa(a, b))
  {
    assert a[..|a|] == a && b[..|b|] == b;
    forall al, swaps | Source(al) == a && Target(al) == b && Allowed(al, swaps)
      ensures Dist(a, b, |a|, |b|, swaps) <= Cost(al)
    {
      NoCheaperAlignment(a, b, |a|, |b|, swaps, al);
    }
    var plain := CheapestAlignment(a, b, |a|, |b|, false);
    var swapped := CheapestAlignment(a, b, |a|, |b|, true);
  }

  // ---- the two distances compared ----

  function Unswap(al: seq<Edit>): seq<Edit> {
    if al == [] then []
    else
      var e := al[|al| - 1];
      Unswap(al[..|al| - 1]) + if e.Swap? then [Substitute(e.x, e.y), Substitute(e.y, e.x)] else [e]
  }

  lemma TwoSubstitutions(al: seq<Edit>, e: Edit)
    requires e.Swap?
    ensures var r := al + [Substitute(e.x, e.y), Substitute(e.y, e.x)];
            Source(r) == Source(al) + From(e) && Target(r) == Target(al) + To(e) && Cost(r) == Cost(al) + 2
  {
    var once := al + [Substitute(e.x, e.y)];
    Snoc(al, Substitute(e.x, e.y));
    Snoc(once, Substitute(e.y, e.x));
    assert al + [Substitute(e.x, e.y), Substitute(e.y, e.x)] == once + [Substitute(e.y, e.x)];
  }

  /** Every swap can be done by two substitutions. */
  lemma {:induction false} UnswapDoubles(al: seq<Edit>)
    ensures Source(Unswap(al)) == Source(al) && Target(Unswap(al)) == Target(al)
    ensures Allowed(Unswap(al), false) && Cost(Unswap(al)) <= 2 * Cost(al)
  {
    if al != [] {
      var init, e := al[..|al| - 1], al[|al| - 1];
      UnswapDoubles(init);
      if e.Swap? {
        TwoSubstitutions(Unswap(init), e);
      } else {
        Snoc(Unswap(init), e);
      }
    }
  }

  /** The length pre-filter is exact, and swaps save at most half. */
  lemma DistancesCompared(a: Bytes, b: Bytes)
    ensures |a| <= |b| + Osa(a, b) && |b| <= |a| + Osa(a, b)
    ensures Osa(a, b) <= Lev(a, b) <= 2 * Osa(a, b)
  {
    assert a[..|a|] == a && b[..|b|] == b;
    var plain := CheapestAlignment(a, b, |a|, |b|, false);
    NoCheaperAlignment(a, b, |a|, |b|, true, plain);
    var swapped := CheapestAlignment(a, b, |a|, |b|, true);
    LengthsApart(swapped);
    UnswapDoubles(swapped);
    NoCheaperAlignment(a, b, |a|, |b|, false, Unswap(swapped));
  }

  // ---- Levenshtein is a metric ----

  /** Do x, then y. */
  function Compose(x: seq<Edit>, y: seq<Edit>): seq<Edit>
    decreases |x| + |y|
  {
    if x != [] && x[|x| - 1].Delete? then Compose(x[..|x| - 1], y) + [x[|x| - 1]]
    else if y != [] && y[|y| - 1].Insert? then Compose(x, y[..|y| - 1]) + [y[|y| - 1]]
    else if x == [] || y == [] then []
    else Compose(x[..|x| - 1], y[..|y| - 1]) + Fused(x[|x| - 1], y[|y| - 1])
  }

  /** One byte produced by e and taken by f. */
  function Fused(e: Edit, f: Edit): seq<Edit> {
    if e.Insert? then (if f.Delete? || To(f) == [] then [] else [Insert(To(f)[0])])
    else if From(e) == [] then []
    else if f.Delete? || To(f) == [] then [Delete(From(e)[0])]
    else if From(e)[0] == To(f)[0] then [Keep(From(e)[0])]
    else [Substitute(From(e)[0], To(f)[0])]
  }

  predicate Meets(e: Edit, f: Edit) {
    !e.Delete? && !f.Insert? && !e.Swap? && !f.Swap? && To(e) == From(f)
  }

  lemma FusedOne(e: Edit, f: Edit)
    requires Meets(e, f)
    ensures var g := Fused(e, f);
            if g == [] then From(e) == [] && To(f) == []
            else |g| == 1 && !g[0].Swap? && From(g[0]) == From(e) && To(g[0]) == To(f)
                 && (e.Keep? && f.Keep? ==> g[0].Keep?)
  {
  }

  lemma FusedEdits(r: seq<Edit>, e: Edit, f: Edit)
    requires Meets(e, f)
    ensures Source(r + Fused(e, f)) == Source(r) + From(e)
    ensures Target(r + Fused(e, f)) == Target(r) + To(f)
    ensures Cost(r + Fused(e, f)) <= Cost(r) + (if e.Keep? then 0 else 1) + (if f.Keep? then 0 else 1)
    ensures forall k :: 0 <= k < |Fused(e, f)| ==> !Fused(e, f)[k].Swap?
  {
    var g := Fused(e, f);
    FusedOne(e, f);
    if g == [] {
      assert r + g == r;
    } else {
      Snoc(r, g[0]);
      assert g == [g[0]];
    }
  }

  predicate Composes(x: seq<Edit>, y: seq<Edit>, r: seq<Edit>) {
    && Source(r) == Source(x) && Target(r) == Target(y) && Cost(r) <= Cost(x) + Cost(y) && Allowed(r, false)
  }

  lemma AfterDelete(x: seq<Edit>, y: seq<Edit>, r: seq<Edit>, e: Edit)
    requires Composes(x, y, r) && e.Delete?
    ensures Composes(x + [e], y, r + [e])
  {
    Snoc(x, e);
    Snoc(r, e);
  }

  lemma AfterInsert(x: seq<Edit>, y: seq<Edit>, r: seq<Edit>, f: Edit)
    requires Composes(x, y, r) && f.Insert?
    ensures Composes(x, y + [f], r + [f])
  {
    Snoc(y, f);
    Snoc(r, f);
  }

  lemma AfterBoth(x: seq<Edit>, y: seq<Edit>, r: seq<Edit>, e: Edit, f: Edit)
    requires Composes(x, y, r) && Meets(e, f)
    ensures Composes(x + [e], y + [f], r + Fused(e, f))
  {
    Snoc(x, e);
    Snoc(y, f);
    FusedEdits(r, e, f);
  }

  lemma SameLast(s: Bytes, t: Bytes, x: Byte, y: Byte)
    requires s + [x] == t + [y]
    ensures s == t && x == y
  {
    var r := s + [x];
    assert r[|s|] == x && r[|t|] == y && r[..|s|] == s && r[..|t|] == t;
  }

  /** The byte the last edit of x produces is the one the last edit of y takes. */
  lemma Meet(x: seq<Edit>, y: seq<Edit>, e: Edit, f: Edit)
    requires Target(x + [e]) == Source(y + [f]) && !e.Delete? && !f.Insert? && !e.Swap? && !f.Swap?
    ensures Target(x) == Source(y) && Meets(e, f)
  {
    Snoc(x, e);
    Snoc(y, f);
    assert To(e) == [To(e)[0]] && From(f) == [From(f)[0]];
    SameLast(Target(x), Source(y), To(e)[0], From(f)[0]);
  }

  lemma SplitLast(x: seq<Edit>)
    requires x != [] && Allowed(x, false)
    ensures var init, e := x[..|x| - 1], x[|x| - 1];
            x == init + [e] && Allowed(init, false) && !e.Swap? && Source(x) == Source(init) + From(e)
            && Target(x) == Target(init) + To(e)
  {
  }

  lemma {:induction false} ComposeWorks(x: seq<Edit>, y: seq<Edit>)
    requires Allowed(x, false) && Allowed(y, false) && Target(x) == Source(y)
    ensures Composes(x, y, Compose(x, y))
    decreases |x| + |y|
  {
    if x != [] { SplitLast(x); }
    if y != [] { SplitLast(y); }
    if x != [] && x[|x| - 1].Delete? {
      ComposeWorks(x[..|x| - 1], y);
      AfterDelete(x[..|x| - 1], y, Compose(x[..|x| - 1], y), x[|x| - 1]);
    } else if y != [] && y[|y| - 1].Insert? {
      ComposeWorks(x, y[..|y| - 1]);
      AfterInsert(x, y[..|y| - 1], Compose(x, y[..|y| - 1]), y[|y| - 1]);
    } else if x == [] || y == [] {
    } else {
      var x', e, y', f := x[..|x| - 1], x[|x| - 1], y[..|y| - 1], y[|y| - 1];
      Meet(x', y', e, f);
      ComposeWorks(x', y');
      AfterBoth(x', y', Compose(x', y'), e, f);
    }
  }

  lemma Triangle(a: Bytes, b: Bytes, c: Bytes)
    ensures Lev(a, c) <= Lev(a, b) + Lev(b, c)
  {
    assert a[..|a|] == a && b[..|b|] == b && c[..|c|] == c;
    var x := CheapestAlignment(a, b, |a|, |b|, false);
    var y := CheapestAlignment(b, c, |b|, |c|, false);
    ComposeWorks(x, y);
    NoCheaperAlignment(a, c, |a|, |c|, false, Compose(x, y));
  }

  function Back(e: Edit): Edit {
    match e
    case Keep(_) => e
    case Substitute(x, y) => Substitute(y, x)
    case Insert(c) => Delete(c)
    case Delete(c) => Insert(c)
    case Swap(x, y) => Swap(y, x)
  }

  /** The same alignment read from the target to the source. */
  lemma {:induction false} ReadBack(al: seq<Edit>, swaps: bool) returns (back: seq<Edit>)
    requires Allowed(al, swaps)
    ensures Source(back) == Target(al) && Target(back) == Source(al) && Cost(back) == Cost(al) && Allowed(back, swaps)
  {
    if al == [] {
      back := [];
    } else {
      var init := ReadBack(al[..|al| - 1], swaps);
      Snoc(init, Back(al[|al| - 1]));
      back := init + [Back(al[|al| - 1])];
    }
  }

  lemma NotFurtherBack(a: Bytes, b: Bytes, swaps: bool)
    ensures Dist(b, a, |b|, |a|, swaps) <= Dist(a, b, |a|, |b|, swaps)
  {
    assert a[..|a|] == a && b[..|b|] == b;
    var al := CheapestAlignment(a, b, |a|, |b|, swaps);
    var back := ReadBack(al, swaps);
    NoCheaperAlignment(b, a, |b|, |a|, swaps, back);
  }

  lemma Symmetric(a: Bytes, b: Bytes)
    ensures Lev(a, b) == Lev(b, a) && Osa(a, b) == Osa(b, a)
  {
    NotFurtherBack(a, b, false);
    NotFurtherBack(b, a, false);
    NotFurtherBack(a, b, true);
    NotFurtherBack(b, a, true);
  }

  lemma {:induction false} FreeKeepsAll(al: seq<Edit>)
    requires Cost(al) == 0
    ensures Source(al) == Target(al)
  {
    if al != [] { FreeKeepsAll(al[..|al| - 1]); }
  }

  lemma {:induction false} SameOn(a: Bytes, i: nat, swaps: bool)
    requires i <= |a|
    ensures Dist(a, a, i, i, swaps) == 0
  {
    if i > 0 { SameOn(a, i - 1, swaps); }
  }

  lemma ZeroIffEqual(a: Bytes, b: Bytes)
    ensures Lev(a, b) == 0 <==> a == b
    ensures Osa(a, b) == 0 <==> a == b
  {
    assert a[..|a|] == a && b[..|b|] == b;
    SameOn(a, |a|, true);
    SameOn(a, |a|, false);
    var plain := CheapestAlignment(a, b, |a|, |b|, false);
    var swapped := CheapestAlignment(a, b, |a|, |b|, true);
    if Cost(plain) == 0 { FreeKeepsAll(plain); }
    if Cost(swapped) == 0 { FreeKeepsAll(swapped); }
  }
}
