/** The row-by-row programs. */
module EditRows {

  import opened Bytes
  import opened EditDistance

  function Least(x: int, y: int, z: int): int {
    if x <= y && x <= z then x else if y <= z then y else z
  }

  /** A row holds the distances of a[..i] to the first n prefixes of b. */
  predicate IsRow(row: seq<int>, a: Bytes, b: Bytes, i: nat, n: nat, swaps: bool)
    requires i <= |a|
  {
    n <= |row| == |b| + 1 && forall j :: 0 <= j < n ==> row[j] == Dist(a, b, i, j, swaps)
  }

  /** What the next cell of the current row must be, without swaps. */
  lemma PlainCell(a: Bytes, b: Bytes, i: nat, j: nat, prev: seq<int>, curr: seq<int>)
    requires 1 <= i <= |a| && 1 <= j <= |b|
    requires IsRow(prev, a, b, i - 1, |b| + 1, false) && IsRow(curr, a, b, i, j, false)
    ensures Dist(a, b, i, j, false)
            == Least(prev[j] + 1, curr[j - 1] + 1, prev[j - 1] + if a[i - 1] == b[j - 1] then 0 else 1)
  {
  }

  /** diag's levenshtein: two rows, exchanged after each byte of a. */
  method Levenshtein(a: Bytes, b: Bytes) returns (d: int)
    ensures d == Lev(a, b)
  {
    if a == b {
      ZeroIffEqual(a, b);
      return 0;
    }
    if |a| == 0 { return |b|; }
    if |b| == 0 { return |a|; }
    var prev, curr := new int[|b| + 1](_ => 0), new int[|b| + 1](_ => 0);
    for j := 0 to |b| + 1
      invariant forall k :: 0 <= k < j ==> prev[k] == k
    {
      prev[j] := j;
    }
    for i := 1 to |a| + 1
      invariant fresh(prev) && fresh(curr) && prev != curr && curr.Length == |b| + 1
      invariant IsRow(prev[..], a, b, i - 1, |b| + 1, false)
    {
      curr[0] := i;
      for j := 1 to |b| + 1
        invariant IsRow(prev[..], a, b, i - 1, |b| + 1, false)
        invariant IsRow(curr[..], a, b, i, j, false)
      {
        var cost := 1;
        if a[i - 1] == b[j - 1] { cost := 0; }
        PlainCell(a, b, i, j, prev[..], curr[..]);
        curr[j] := Least(prev[j] + 1, curr[j - 1] + 1, prev[j - 1] + cost);
      }
      prev, curr := curr, prev;
    }
    d := prev[|b|];
  }

  /** semcheck's copy of it. */
  method SemcheckLevenshtein(a: Bytes, b: Bytes) returns (d: int)
    ensures d == Lev(a, b)
  {
    if a == b {
      ZeroIffEqual(a, b);
      return 0;
    }
    if |a| == 0 { return |b|; }
    if |b| == 0 { return |a|; }
    var prev, curr := new int[|b| + 1](_ => 0), new int[|b| + 1](_ => 0);
    for j := 0 to |b| + 1
      invariant forall k :: 0 <= k < j ==> prev[k] == k
    {
      prev[j] := j;
    }
    for i := 1 to |a| + 1
      invariant fresh(prev) && fresh(curr) && prev != curr && curr.Length == |b| + 1
      invariant IsRow(prev[..], a, b, i - 1, |b| + 1, false)
    {
      curr[0] := i;
      for j := 1 to |b| + 1
        invariant IsRow(prev[..], a, b, i - 1, |b| + 1, false)
        invariant IsRow(curr[..], a, b, i, j, false)
      {
        var cost := 1;
        if a[i - 1] == b[j - 1] { cost := 0; }
        PlainCell(a, b, i, j, prev[..], curr[..]);
        curr[j] := Least(prev[j] + 1, curr[j - 1] + 1, prev[j - 1] + cost);
      }
      prev, curr := curr, prev;
    }
    d := prev[|b|];
  }

  /** What the next cell of the current row must be. */
  lemma NextCell(a: Bytes, b: Bytes, i: nat, j: nat, prevPrev: seq<int>, prev: seq<int>, curr: seq<int>)
    requires 1 <= i <= |a| && 1 <= j <= |b|
    requires IsRow(prev, a, b, i - 1, |b| + 1, true) && IsRow(curr, a, b, i, j, true)
    requires i >= 2 ==> IsRow(prevPrev, a, b, i - 2, |b| + 1, true)
    ensures var best := Least(prev[j] + 1, curr[j - 1] + 1, prev[j - 1] + if a[i - 1] == b[j - 1] then 0 else 1);
            Dist(a, b, i, j, true) ==
            if i >= 2 && j >= 2 && a[i - 1] == b[j - 2] && a[i - 2] == b[j - 1] && prevPrev[j - 2] + 1 < best
            then prevPrev[j - 2] + 1
            else best
  {
  }

  /** One pass of damerauLevenshtein's outer loop: fill the current row from the two before it. */
  method OsaRow(a: Bytes, b: Bytes, i: nat, prevPrev: array<int>, prev: array<int>, curr: array<int>)
    requires 1 <= i <= |a| && prevPrev != curr && prev != curr && curr.Length == prevPrev.Length == |b| + 1
    requires IsRow(prev[..], a, b, i - 1, |b| + 1, true)
    requires i >= 2 ==> IsRow(prevPrev[..], a, b, i - 2, |b| + 1, true)
    modifies curr
    ensures IsRow(curr[..], a, b, i, |b| + 1, true)
  {
    curr[0] := i;
    for j := 1 to |b| + 1
      invariant IsRow(curr[..], a, b, i, j, true)
    {
      var cost := 1;
      if a[i - 1] == b[j - 1] { cost := 0; }
      var best := Least(prev[j] + 1, curr[j - 1] + 1, prev[j - 1] + cost);
      if i >= 2 && j >= 2 && a[i - 1] == b[j - 2] && a[i - 2] == b[j - 1] {
        var t := prevPrev[j - 2] + 1;
        if t < best { best := t; }
      }
      NextCell(a, b, i, j, prevPrev[..], prev[..], curr[..]);
      curr[j] := best;
    }
  }

  /** damerauLevenshtein: three rows, rotated after each byte of a. */
  method DamerauLevenshtein(a: Bytes, b: Bytes) returns (d: int)
    ensures d == Osa(a, b)
  {
    if a == b {
      ZeroIffEqual(a, b);
      return 0;
    }
    if |a| == 0 { return |b|; }
    if |b| == 0 { return |a|; }
    var prevPrev, prev, curr := new int[|b| + 1](_ => 0), new int[|b| + 1](_ => 0), new int[|b| + 1](_ => 0);
    for j := 0 to |b| + 1
      invariant forall k :: 0 <= k < j ==> prev[k] == k
    {
      prev[j] := j;
    }
    for i := 1 to |a| + 1
      invariant fresh(prevPrev) && fresh(prev) && fresh(curr)
      invariant prevPrev != prev && prevPrev != curr && prev != curr && curr.Length == prevPrev.Length == |b| + 1
      invariant IsRow(prev[..], a, b, i - 1, |b| + 1, true)
      invariant i >= 2 ==> IsRow(prevPrev[..], a, b, i - 2, |b| + 1, true)
    {
      OsaRow(a, b, i, prevPrev, prev, curr);
      prevPrev, prev, curr := prev, curr, prevPrev;
    }
    d := prev[|b|];
  }
}
