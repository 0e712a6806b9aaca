/** "Did you mean?": scoring, filtering and ranking candidate names. */
module Suggest {

  import opened Options
  import opened Bytes
  import opened EditDistance
  import opened Ranking
  import EditRows

  /** strings.ToLower and strings.EqualFold. */
  datatype Folding = Folding(lower: Bytes -> Bytes, same: (Bytes, Bytes) -> bool)

  datatype Suggestion = Suggestion(replacement: Bytes, start: nat, end: nat, distance: nat, swaps: bool)

  const MAX_SUGGESTIONS: nat := 3
  const KEYWORD_CAP := 2

  function MaxDistance(length: nat): (limit: int)
    ensures 1 <= limit <= 3
  {
    if length <= 3 then 1 else if length <= 6 then 2 else 3
  }

  function AbsDiff(x: int, y: int): int {
    if x > y then x - y else y - x
  }

  function Distance(a: Bytes, b: Bytes, swaps: bool): nat {
    if swaps then Osa(a, b) else Lev(a, b)
  }

  function Take<T>(n: int, s: seq<T>): seq<T> {
    if |s| > n && n >= 0 then s[..n] else s
  }

  // ---- one candidate ----

  predicate Skipped(misspelled: Bytes, c: Bytes, f: Folding) {
    c == [] || f.same(c, misspelled)
  }

  function Score(misspelled: Bytes, c: Bytes, swaps: bool, f: Folding): Scored {
    Scored(c, Distance(f.lower(misspelled), f.lower(c), swaps))
  }

  /** What a suggestion should be: a different name within the limit. */
  predicate Near(misspelled: Bytes, c: Bytes, limit: int, swaps: bool, f: Folding) {
    !Skipped(misspelled, c, f) && Score(misspelled, c, swaps, f).distance <= limit
  }

  /** What the program keeps; no limit, no length filter. */
  predicate Kept(misspelled: Bytes, c: Bytes, limit: Option<int>, swaps: bool, f: Folding) {
    match limit
    case None => !Skipped(misspelled, c, f)
    case Some(n) => Near(misspelled, c, n, swaps, f) && AbsDiff(|c|, |misspelled|) <= n
  }

  /** The length filter does no harm: the lengths it compares are within the limit, or those that matter are not. */
  predicate SafeLengths(token: nat, cand: nat, lowToken: nat, lowCand: nat, limit: int) {
    AbsDiff(cand, token) <= limit || AbsDiff(lowCand, lowToken) > limit
  }

  predicate Safe(misspelled: Bytes, c: Bytes, limit: int, f: Folding) {
    SafeLengths(|misspelled|, |c|, |f.lower(misspelled)|, |f.lower(c)|, limit)
  }

  lemma NearLengths(misspelled: Bytes, c: Bytes, limit: int, swaps: bool, f: Folding)
    ensures Near(misspelled, c, limit, swaps, f) ==> AbsDiff(|f.lower(c)|, |f.lower(misspelled)|) <= limit
  {
    DistancesCompared(f.lower(misspelled), f.lower(c));
  }

  /** On such lengths the program keeps exactly the near candidates. */
  lemma SafeIsExact(misspelled: Bytes, c: Bytes, limit: int, swaps: bool, f: Folding)
    requires Safe(misspelled, c, limit, f)
    ensures Kept(misspelled, c, Some(limit), swaps, f) <==> Near(misspelled, c, limit, swaps, f)
  {
    NearLengths(misspelled, c, limit, swaps, f);
  }

  /** Whatever the strings of these lengths, lower-casing to those, the program keeps exactly the near ones. */
  ghost predicate FilterExact(token: nat, cand: nat, lowToken: nat, lowCand: nat, limit: int, swaps: bool) {
    forall m: Bytes, c: Bytes, f: Folding |
      |m| == token && |c| == cand && |f.lower(m)| == lowToken && |f.lower(c)| == lowCand ::
      Kept(m, c, Some(limit), swaps, f) <==> Near(m, c, limit, swaps, f)
  }

  function Zeros(n: nat): (s: Bytes)
    ensures |s| == n
  {
    seq(n, _ => 0)
  }

  lemma {:induction false} ZerosAligned(n: nat, more: nat) returns (al: seq<Edit>)
    ensures Source(al) == Zeros(n) && Target(al) == Zeros(n + more) && Cost(al) == more && Allowed(al, false)
    decreases n + more
  {
    if n == 0 && more == 0 {
      al := [];
    } else {
      var e := if more > 0 then Insert(0) else Keep(0);
      var init := ZerosAligned(if more > 0 then n else n - 1, if more > 0 then more - 1 else 0);
      Snoc(init, e);
      al := init + [e];
      assert Zeros(n + more) == Zeros(n + more - 1) + [0];
      assert more == 0 ==> Zeros(n) == Zeros(n - 1) + [0];
    }
  }

  /** Runs of one byte are no farther apart than their lengths. */
  lemma ZerosAreClose(n: nat, k: nat, swaps: bool)
    ensures Distance(Zeros(n), Zeros(k), swaps) <= AbsDiff(k, n)
  {
    var low, high := if n <= k then n else k, if n <= k then k else n;
    var a, b := Zeros(low), Zeros(high);
    var al := ZerosAligned(low, high - low);
    assert a[..low] == a && b[..high] == b;
    NoCheaperAlignment(a, b, low, high, false, al);
    DistancesCompared(a, b);
    Symmetric(a, b);
  }

  /** On any other lengths some candidate is near and dropped. */
  lemma UnsafeDrops(token: nat, cand: nat, lowToken: nat, lowCand: nat, limit: int, swaps: bool)
      returns (m: Bytes, c: Bytes, f: Folding)
    requires cand > 0 && !SafeLengths(token, cand, lowToken, lowCand, limit)
    ensures |m| == token && |c| == cand && |f.lower(m)| == lowToken && |f.lower(c)| == lowCand
    ensures Near(m, c, limit, swaps, f) && !Kept(m, c, Some(limit), swaps, f)
  {
    m, c := Zeros(token), Zeros(cand);
    f := Folding(s => if |s| == token then Zeros(lowToken) else Zeros(lowCand), (s, t) => s == t);
    ZerosAreClose(lowToken, lowCand, swaps);
  }

  /**
   The filter is right on all strings of given lengths exactly when the lengths are safe, or
   the candidate is empty.
   */
  lemma PrefilterExact(token: nat, cand: nat, lowToken: nat, lowCand: nat, limit: int, swaps: bool)
    ensures FilterExact(token, cand, lowToken, lowCand, limit, swaps)
            <==> cand == 0 || SafeLengths(token, cand, lowToken, lowCand, limit)
  {
    forall m: Bytes, c: Bytes, f: Folding |
      && |m| == token && |c| == cand && |f.lower(m)| == lowToken && |f.lower(c)| == lowCand
      && SafeLengths(token, cand, lowToken, lowCand, limit)
      ensures Kept(m, c, Some(limit), swaps, f) <==> Near(m, c, limit, swaps, f)
    {
      SafeIsExact(m, c, limit, swaps, f);
    }
    if cand > 0 && !SafeLengths(token, cand, lowToken, lowCand, limit) {
      var m, c, f := UnsafeDrops(token, cand, lowToken, lowCand, limit, swaps);
    }
  }

  /**
   Lower-casing the Kelvin sign (U+212A, three bytes) gives "k", so the filter drops
   U+212A "y" as a fix for "kx", which is one edit away.
   */
  lemma PrefilterDropsKelvin(f: Folding)
    requires f.lower([107, 120]) == [107, 120] && f.lower([226, 132, 170, 121]) == [107, 121]
    requires !f.same([226, 132, 170, 121], [107, 120])
    ensures Near([107, 120], [226, 132, 170, 121], 1, false, f)
    ensures !Kept([107, 120], [226, 132, 170, 121], Some(1), false, f)
  {
    var a, b: Bytes := [107, 120], [107, 121];
    var al := [Keep(107), Substitute(120, 121)];
    Snoc([], Keep(107));
    Snoc([Keep(107)], Substitute(120, 121));
    assert [] + [Keep(107)] == [Keep(107)] && [Keep(107)] + [Substitute(120, 121)] == al;
    assert a[..2] == a && b[..2] == b;
    NoCheaperAlignment(a, b, 2, 2, false, al);
  }

  // ---- all candidates ----

  function Hits(misspelled: Bytes, cands: seq<Bytes>, limit: Option<int>, swaps: bool, f: Folding): seq<Scored> {
    if cands == [] then []
    else
      var c := cands[|cands| - 1];
      Hits(misspelled, cands[..|cands| - 1], limit, swaps, f)
      + if Kept(misspelled, c, limit, swaps, f) then [Score(misspelled, c, swaps, f)] else []
  }

  lemma {:induction false} HitsAreKept(misspelled: Bytes, cands: seq<Bytes>, limit: Option<int>,
                                       swaps: bool, f: Folding, x: Scored)
    ensures x in Hits(misspelled, cands, limit, swaps, f) <==>
            exists i :: 0 <= i < |cands| && Kept(misspelled, cands[i], limit, swaps, f)
                        && x == Score(misspelled, cands[i], swaps, f)
  {
    if cands != [] {
      var init, c := cands[..|cands| - 1], cands[|cands| - 1];
      HitsAreKept(misspelled, init, limit, swaps, f, x);
      if i :| 0 <= i < |cands| && Kept(misspelled, cands[i], limit, swaps, f)
              && x == Score(misspelled, cands[i], swaps, f) {
        if i < |init| { assert init[i] == cands[i]; }
      }
      if x in Hits(misspelled, init, limit, swaps, f) {
        var i :| 0 <= i < |init| && Kept(misspelled, init[i], limit, swaps, f)
                 && x == Score(misspelled, init[i], swaps, f);
        assert cands[i] == init[i];
      }
    }
  }

  function Ranked(misspelled: Bytes, cands: seq<Bytes>, limit: Option<int>, swaps: bool, prefer: bool,
                  f: Folding): seq<Scored>
  {
    Sort(Order(|misspelled|, prefer), Hits(misspelled, cands, limit, swaps, f))
  }

  function Dress(s: seq<Scored>, start: nat, length: nat, swaps: bool): (out: seq<Suggestion>)
    ensures |out| == |s|
    ensures forall i :: 0 <= i < |s| ==> out[i] == Suggestion(s[i].name, start, start + length, s[i].distance, swaps)
  {
    if s == [] then []
    else Dress(s[..|s| - 1], start, length, swaps)
         + [Suggestion(s[|s| - 1].name, start, start + length, s[|s| - 1].distance, swaps)]
  }

  function Suggestions(misspelled: Bytes, cands: seq<Bytes>, pos: Option<nat>, limit: int, swaps: bool, prefer: bool,
                       f: Folding): seq<Suggestion>
  {
    if misspelled == [] || pos.None? || cands == [] || limit <= 0 then []
    else Dress(Take(MAX_SUGGESTIONS, Ranked(misspelled, cands, Some(limit), swaps, prefer, f)), pos.value,
               |misspelled|, swaps)
  }

  method SuggestWithDistance(misspelled: Bytes, cands: seq<Bytes>, pos: Option<nat>, limit: int, swaps: bool,
                             prefer: bool, f: Folding)
    returns (out: seq<Suggestion>)
    ensures out == Suggestions(misspelled, cands, pos, limit, swaps, prefer, f)
  {
    if misspelled == [] || pos.None? || cands == [] || limit <= 0 { return []; }
    var hits: seq<Scored> := [];
    for i := 0 to |cands|
      invariant hits == Hits(misspelled, cands[..i], Some(limit), swaps, f)
    {
      var c := cands[i];
      assert cands[..i + 1] == cands[..i] + [c];
      if c == [] || f.same(c, misspelled) { continue; }
      if AbsDiff(|c|, |misspelled|) > limit { continue; }
      var d: int;
      if swaps {
        d := EditRows.DamerauLevenshtein(f.lower(misspelled), f.lower(c));
      } else {
        d := EditRows.Levenshtein(f.lower(misspelled), f.lower(c));
      }
      if d > limit { continue; }
      hits := hits + [Scored(c, d)];
    }
    assert cands[..|cands|] == cands;
    if hits == [] { return []; }
    hits := Sort(Order(|misspelled|, prefer), hits);
    if |hits| > MAX_SUGGESTIONS { hits := hits[..MAX_SUGGESTIONS]; }
    out := [];
    for i := 0 to |hits|
      invariant out == Dress(hits[..i], pos.value, |misspelled|, swaps)
    {
      assert hits[..i + 1][..i] == hits[..i];
      out := out + [Suggestion(hits[i].name, pos.value, pos.value + |misspelled|, hits[i].distance, swaps)];
    }
    assert hits[..|hits|] == hits;
  }

  function Scores(out: seq<Suggestion>): seq<Scored> {
    seq(|out|, i requires 0 <= i < |out| => Scored(out[i].replacement, out[i].distance))
  }

  lemma RestIsNoBetter(o: Order, best: seq<Scored>, rest: seq<Scored>, i: nat, x: Scored)
    requires IsSorted(o, best + rest) && i < |best| && x in multiset(rest)
    ensures !Less(o, x, best[i])
  {
    assert x in rest;
    var j :| 0 <= j < |rest| && rest[j] == x;
    var sorted := best + rest;
    assert sorted[|best| + j] == x && sorted[i] == best[i];
  }

  lemma RestAreNoBetter(o: Order, best: seq<Scored>, rest: seq<Scored>)
    requires IsSorted(o, best + rest)
    ensures forall i, x :: 0 <= i < |best| && x in multiset(rest) ==> !Less(o, x, best[i])
  {
    forall i, x | 0 <= i < |best| && x in multiset(rest) ensures !Less(o, x, best[i]) {
      RestIsNoBetter(o, best, rest, i, x);
    }
  }

  lemma TakenAreBest(o: Order, hits: seq<Scored>, n: nat)
    ensures var best := Take(n, Sort(o, hits));
            && |best| == (if |hits| > n then n else |hits|)
            && IsSorted(o, best) && multiset(best) <= multiset(hits)
            && forall i, x :: 0 <= i < |best| && x in multiset(hits) - multiset(best) ==> !Less(o, x, best[i])
  {
    SortSorts(o, hits);
    var sorted := Sort(o, hits);
    assert |multiset(sorted)| == |multiset(hits)|;
    var k := if |hits| > n then n else |hits|;
    assert Take(n, sorted) == sorted[..k];
    CutIn(o, sorted, k, hits);
  }

  lemma CutIn(o: Order, sorted: seq<Scored>, k: nat, hits: seq<Scored>)
    requires IsSorted(o, sorted) && k <= |sorted| && multiset(sorted) == multiset(hits)
    ensures var best := sorted[..k];
            && IsSorted(o, best) && multiset(best) <= multiset(hits)
            && forall i, x :: 0 <= i < |best| && x in multiset(hits) - multiset(best) ==> !Less(o, x, best[i])
  {
    assert sorted == sorted[..k] + sorted[k..];
    BestOfBoth(o, sorted[..k], sorted[k..], hits);
  }

  lemma BestOfBoth(o: Order, best: seq<Scored>, rest: seq<Scored>, hits: seq<Scored>)
    requires multiset(hits) == multiset(best) + multiset(rest) && IsSorted(o, best + rest)
    ensures IsSorted(o, best) && multiset(best) <= multiset(hits)
    ensures forall i, x :: 0 <= i < |best| && x in multiset(hits) - multiset(best) ==> !Less(o, x, best[i])
  {
    RestAreNoBetter(o, best, rest);
    assert multiset(hits) - multiset(best) == multiset(rest);
    assert forall i :: 0 <= i < |best| ==> (best + rest)[i] == best[i];
  }

  /** The result is the three best of everything the filter keeps, best first, over the misspelled token's bytes. */
  lemma TopThree(misspelled: Bytes, cands: seq<Bytes>, pos: Option<nat>, limit: int, swaps: bool, prefer: bool,
                 f: Folding)
    requires misspelled != [] && pos.Some? && limit > 0
    ensures var out, hits := Suggestions(misspelled, cands, pos, limit, swaps, prefer, f),
                             Hits(misspelled, cands, Some(limit), swaps, f);
            var o, best := Order(|misspelled|, prefer), Scores(out);
            && |out| == (if |hits| > MAX_SUGGESTIONS then MAX_SUGGESTIONS else |hits|)
            && IsSorted(o, best) && multiset(best) <= multiset(hits)
            && (forall i, x :: 0 <= i < |best| && x in multiset(hits) - multiset(best) ==> !Less(o, x, best[i]))
            && (forall i :: 0 <= i < |out| ==>
                  out[i].start == pos.value && out[i].end == pos.value + |misspelled| && out[i].swaps == swaps)
  {
    var hits := Hits(misspelled, cands, Some(limit), swaps, f);
    var o := Order(|misspelled|, prefer);
    TakenAreBest(o, hits, MAX_SUGGESTIONS);
    assert Scores(Suggestions(misspelled, cands, pos, limit, swaps, prefer, f)) == Take(MAX_SUGGESTIONS, Sort(o, hits));
  }

  // ---- the suggestions, read off the names ----

  /** A name the program may suggest. */
  predicate Eligible(token: Bytes, c: Bytes, limit: int, swaps: bool, f: Folding) {
    && c != [] && !f.same(c, token) && -limit <= |c| - |token| <= limit
    && (if swaps then Osa(f.lower(token), f.lower(c)) else Lev(f.lower(token), f.lower(c))) <= limit
  }

  /** Fewer edits first; where asked for, names as long as the token next; then by the names' bytes. */
  predicate Precedes(length: nat, prefer: bool, a: Bytes, da: int, b: Bytes, db: int) {
    || da < db
    || (da == db && prefer && |a| == length && |b| != length)
    || (da == db && (prefer ==> (|a| == length <==> |b| == length)) && (a == b || Below(a, b)))
  }

  lemma PrecedesExactly(length: nat, prefer: bool, x: Scored, y: Scored)
    ensures Precedes(length, prefer, x.name, x.distance, y.name, y.distance) <==> !Less(Order(length, prefer), y, x)
  {
    BelowIsTotal(x.name, y.name);
  }

  /** Each suggestion is an eligible name with its distance, over the token's bytes. */
  lemma SuggestedIsEligible(token: Bytes, cands: seq<Bytes>, pos: Option<nat>, limit: int, swaps: bool, prefer: bool,
                            f: Folding, i: nat)
    requires i < |Suggestions(token, cands, pos, limit, swaps, prefer, f)|
    ensures pos.Some? && token != []
    ensures var s := Suggestions(token, cands, pos, limit, swaps, prefer, f)[i];
            && s.replacement in cands && Eligible(token, s.replacement, limit, swaps, f)
            && s.start == pos.value && s.end == pos.value + |token| && s.swaps == swaps
            && s.distance == if swaps then Osa(f.lower(token), f.lower(s.replacement))
                             else Lev(f.lower(token), f.lower(s.replacement))
  {
    var out, hits := Suggestions(token, cands, pos, limit, swaps, prefer, f), Hits(token, cands, Some(limit), swaps, f);
    TopThree(token, cands, pos, limit, swaps, prefer, f);
    var x := Scores(out)[i];
    assert x in multiset(Scores(out)) && x in multiset(hits);
    HitsAreKept(token, cands, Some(limit), swaps, f, x);
  }

  /** There are at most three, best first. */
  lemma SuggestionsInOrder(token: Bytes, cands: seq<Bytes>, pos: Option<nat>, limit: int, swaps: bool, prefer: bool,
                           f: Folding)
    ensures var out := Suggestions(token, cands, pos, limit, swaps, prefer, f);
            && |out| <= 3
            && forall i, j :: 0 <= i < j < |out| ==>
                 Precedes(|token|, prefer, out[i].replacement, out[i].distance, out[j].replacement, out[j].distance)
  {
    var out := Suggestions(token, cands, pos, limit, swaps, prefer, f);
    if out != [] {
      TopThree(token, cands, pos, limit, swaps, prefer, f);
      forall i, j | 0 <= i < j < |out|
        ensures Precedes(|token|, prefer, out[i].replacement, out[i].distance, out[j].replacement, out[j].distance)
      {
        PrecedesExactly(|token|, prefer, Scores(out)[i], Scores(out)[j]);
      }
    }
  }

  /** And an eligible name is only left out for three that precede it. */
  lemma LeftOutForBetter(token: Bytes, cands: seq<Bytes>, pos: Option<nat>, limit: int, swaps: bool, prefer: bool,
                         f: Folding, c: Bytes)
    requires token != [] && pos.Some? && limit > 0 && c in cands && Eligible(token, c, limit, swaps, f)
    requires var out := Suggestions(token, cands, pos, limit, swaps, prefer, f);
             forall i :: 0 <= i < |out| ==> out[i].replacement != c
    ensures var out := Suggestions(token, cands, pos, limit, swaps, prefer, f);
            && |out| == 3
            && forall i :: 0 <= i < |out| ==>
                 Precedes(|token|, prefer, out[i].replacement, out[i].distance, c,
                          Distance(f.lower(token), f.lower(c), swaps))
  {
    var out, hits := Suggestions(token, cands, pos, limit, swaps, prefer, f), Hits(token, cands, Some(limit), swaps, f);
    var best, x := Scores(out), Score(token, c, swaps, f);
    TopThree(token, cands, pos, limit, swaps, prefer, f);
    HitsAreKept(token, cands, Some(limit), swaps, f, x);
    assert Kept(token, c, Some(limit), swaps, f);
    NotTaken(best, hits, x);
    AllPrecede(|token|, prefer, best, x);
    assert forall i :: 0 <= i < |out| ==> best[i].name == out[i].replacement && best[i].distance == out[i].distance;
  }

  lemma AllPrecede(length: nat, prefer: bool, best: seq<Scored>, x: Scored)
    requires forall i :: 0 <= i < |best| ==> !Less(Order(length, prefer), x, best[i])
    ensures forall i :: 0 <= i < |best| ==>
              Precedes(length, prefer, best[i].name, best[i].distance, x.name, x.distance)
  {
    forall i | 0 <= i < |best|
      ensures Precedes(length, prefer, best[i].name, best[i].distance, x.name, x.distance)
    {
      PrecedesExactly(length, prefer, best[i], x);
    }
  }

  lemma NotTaken(best: seq<Scored>, hits: seq<Scored>, x: Scored)
    requires multiset(best) <= multiset(hits) && x in hits && forall i :: 0 <= i < |best| ==> best[i].name != x.name
    ensures x in multiset(hits) - multiset(best) && |best| < |hits|
  {
    assert x !in best && x in multiset(hits);
    assert |multiset(hits) - multiset(best)| == |hits| - |best|;
  }

  /** The scores of the near candidates, whatever their lengths. */
  function NearHits(misspelled: Bytes, cands: seq<Bytes>, limit: int, swaps: bool, f: Folding): seq<Scored> {
    if cands == [] then []
    else
      var c := cands[|cands| - 1];
      NearHits(misspelled, cands[..|cands| - 1], limit, swaps, f)
      + if Near(misspelled, c, limit, swaps, f) then [Score(misspelled, c, swaps, f)] else []
  }

  /** No near candidate has a length the filter refuses. */
  predicate NoneRefused(misspelled: Bytes, cands: seq<Bytes>, limit: int, swaps: bool, f: Folding) {
    forall i :: 0 <= i < |cands| && Near(misspelled, cands[i], limit, swaps, f) ==>
      AbsDiff(|cands[i]|, |misspelled|) <= limit
  }

  lemma {:induction false} HitsAgainstNear(misspelled: Bytes, cands: seq<Bytes>, limit: int, swaps: bool, f: Folding)
    ensures |Hits(misspelled, cands, Some(limit), swaps, f)| <= |NearHits(misspelled, cands, limit, swaps, f)|
    ensures NoneRefused(misspelled, cands, limit, swaps, f) ==>
              Hits(misspelled, cands, Some(limit), swaps, f) == NearHits(misspelled, cands, limit, swaps, f)
    ensures |Hits(misspelled, cands, Some(limit), swaps, f)| == |NearHits(misspelled, cands, limit, swaps, f)| ==>
              NoneRefused(misspelled, cands, limit, swaps, f)
  {
    if cands != [] {
      var init, c := cands[..|cands| - 1], cands[|cands| - 1];
      HitsAgainstNear(misspelled, init, limit, swaps, f);
      assert forall i :: 0 <= i < |init| ==> init[i] == cands[i];
    }
  }

  /** The hits are all near candidates exactly when none of them has a length the filter refuses. */
  lemma HitsAreAllNear(misspelled: Bytes, cands: seq<Bytes>, limit: int, swaps: bool, f: Folding)
    ensures Hits(misspelled, cands, Some(limit), swaps, f) == NearHits(misspelled, cands, limit, swaps, f)
            <==> NoneRefused(misspelled, cands, limit, swaps, f)
  {
    HitsAgainstNear(misspelled, cands, limit, swaps, f);
  }

  predicate AllSafe(misspelled: Bytes, cands: seq<Bytes>, limit: int, f: Folding) {
    forall i :: 0 <= i < |cands| ==> Safe(misspelled, cands[i], limit, f)
  }

  lemma SafeRefusesNone(misspelled: Bytes, cands: seq<Bytes>, limit: int, swaps: bool, f: Folding)
    requires AllSafe(misspelled, cands, limit, f)
    ensures NoneRefused(misspelled, cands, limit, swaps, f)
  {
    forall i | 0 <= i < |cands| && Near(misspelled, cands[i], limit, swaps, f)
      ensures AbsDiff(|cands[i]|, |misspelled|) <= limit
    {
      SafeIsExact(misspelled, cands[i], limit, swaps, f);
    }
  }

  /** On safe lengths, which a caller can compare beforehand, the hits are all near candidates. */
  lemma NothingFilteredOut(misspelled: Bytes, cands: seq<Bytes>, limit: int, swaps: bool, f: Folding)
    requires AllSafe(misspelled, cands, limit, f)
    ensures Hits(misspelled, cands, Some(limit), swaps, f) == NearHits(misspelled, cands, limit, swaps, f)
  {
    SafeRefusesNone(misspelled, cands, limit, swaps, f);
    HitsAreAllNear(misspelled, cands, limit, swaps, f);
  }

  // ---- the two callers in diag ----

  function SuggestNames(misspelled: Bytes, cands: seq<Bytes>, pos: Option<nat>, f: Folding): seq<Suggestion> {
    Suggestions(misspelled, cands, pos, MaxDistance(|misspelled|), false, false, f)
  }

  method Suggest(misspelled: Bytes, cands: seq<Bytes>, pos: Option<nat>, f: Folding) returns (out: seq<Suggestion>)
    ensures out == SuggestNames(misspelled, cands, pos, f)
    ensures var n := |misspelled|;
            out == Suggestions(misspelled, cands, pos, if n <= 3 then 1 else if n <= 6 then 2 else 3, false, false, f)
  {
    if misspelled == [] { return []; }
    out := SuggestWithDistance(misspelled, cands, pos, MaxDistance(|misspelled|), false, false, f);
  }

  function LowerByte(c: Byte): Byte {
    if 65 <= c <= 90 then c + 32 else c
  }

  function LowerAscii(s: Bytes): (r: Bytes)
    ensures |r| == |s| && forall i :: 0 <= i < |s| ==> r[i] == LowerByte(s[i])
  {
    seq(|s|, i requires 0 <= i < |s| => LowerByte(s[i]))
  }

  predicate IsAscii(s: Bytes) {
    forall i :: 0 <= i < |s| ==> s[i] < 128
  }

  /** On ASCII strings strings.ToLower lower-cases letter by letter. */
  ghost predicate LowersAscii(f: Folding) {
    forall s :: IsAscii(s) ==> f.lower(s) == LowerAscii(s)
  }

  /** So between ASCII strings the filter is always right. */
  lemma {:induction false} AsciiIsSafe(misspelled: Bytes, cands: seq<Bytes>, limit: int, f: Folding)
    requires LowersAscii(f) && IsAscii(misspelled) && forall i :: 0 <= i < |cands| ==> IsAscii(cands[i])
    ensures AllSafe(misspelled, cands, limit, f)
  {
    LowerKeepsLength(misspelled, f);
    forall i | 0 <= i < |cands| ensures Safe(misspelled, cands[i], limit, f) {
      LowerKeepsLength(cands[i], f);
    }
  }

  lemma LowerKeepsLength(s: Bytes, f: Folding)
    requires LowersAscii(f) && IsAscii(s)
    ensures |f.lower(s)| == |s|
  {
  }

  /** lowerASCII: no copy when nothing is upper-case. */
  method LowerASCII(s: Bytes) returns (r: Bytes)
    ensures r == LowerAscii(s) && |r| == |s|
    ensures forall i :: 0 <= i < |s| ==> r[i] == if 65 <= s[i] <= 90 then s[i] + 32 else s[i]
  {
    var needs := false;
    for i := 0 to |s|
      invariant !needs && forall k :: 0 <= k < i ==> LowerByte(s[k]) == s[k]
    {
      if s[i] >= 65 && s[i] <= 90 {
        needs := true;
        break;
      }
    }
    if !needs { return s; }
    var b := new Byte[|s|](_ => 0);
    for i := 0 to |s|
      invariant forall k :: 0 <= k < i ==> b[k] == LowerByte(s[k])
    {
      var c := s[i];
      if c >= 65 && c <= 90 { c := c + 32; }
      b[i] := c;
    }
    return b[..];
  }

  /** `keywords` is the lexer's table in the order keywordCandidates lists it, lower-cased. */
  method SuggestKeyword(token: Bytes, keywords: seq<Bytes>, pos: Option<nat>, f: Folding) returns (out: seq<Suggestion>)
    ensures out == if LowerAscii(token) in keywords then []
                   else Suggestions(token, keywords, pos, if |token| <= 3 then 1 else 2, true, true, f)
  {
    if token == [] || pos.None? { return []; }
    var low := LowerASCII(token);
    if low in keywords { return []; }
    var limit := KEYWORD_CAP;
    if MaxDistance(|token|) < limit { limit := MaxDistance(|token|); }
    out := SuggestWithDistance(token, keywords, pos, limit, true, true, f);
  }

  // ---- semcheck's sample ----

  function Names(s: seq<Scored>): seq<Bytes> {
    seq(|s|, i requires 0 <= i < |s| => s[i].name)
  }

  function Sample(misspelled: Bytes, cands: seq<Bytes>, limit: int, f: Folding): seq<Bytes> {
    if limit <= 0 then [] else Names(Take(limit, Ranked(misspelled, cands, None, false, false, f)))
  }

  method SampleNearest(misspelled: Bytes, cands: seq<Bytes>, limit: int, f: Folding) returns (out: seq<Bytes>)
    ensures out == Sample(misspelled, cands, limit, f)
  {
    if limit <= 0 || cands == [] { return []; }
    var hits: seq<Scored> := [];
    var low := f.lower(misspelled);
    for i := 0 to |cands|
      invariant hits == Hits(misspelled, cands[..i], None, false, f)
    {
      var c := cands[i];
      assert cands[..i + 1] == cands[..i] + [c];
      if c == [] || f.same(c, misspelled) { continue; }
      var d := EditRows.SemcheckLevenshtein(low, f.lower(c));
      hits := hits + [Scored(c, d)];
    }
    assert cands[..|cands|] == cands;
    if hits == [] { return []; }
    hits := Sort(Order(|misspelled|, false), hits);
    if |hits| > limit { hits := hits[..limit]; }
    out := Names(hits);
  }

  /** The sample is the nearest names, nearest first. */
  lemma SampleIsNearest(misspelled: Bytes, cands: seq<Bytes>, limit: nat, f: Folding) returns (best: seq<Scored>)
    requires limit > 0
    ensures Sample(misspelled, cands, limit, f) == Names(best)
    ensures var hits, o := Hits(misspelled, cands, None, false, f), Order(|misspelled|, false);
            && |best| == (if |hits| > limit then limit else |hits|)
            && IsSorted(o, best) && multiset(best) <= multiset(hits)
            && forall i, x :: 0 <= i < |best| && x in multiset(hits) - multiset(best) ==> !Less(o, x, best[i])
  {
    best := Take(limit, Ranked(misspelled, cands, None, false, false, f));
    TakenAreBest(Order(|misspelled|, false), Hits(misspelled, cands, None, false, f), limit);
  }

  /** The scores of the other names, beyond the limit. */
  function FarHits(misspelled: Bytes, cands: seq<Bytes>, limit: int, f: Folding): seq<Scored> {
    if cands == [] then []
    else
      var c := cands[|cands| - 1];
      FarHits(misspelled, cands[..|cands| - 1], limit, f)
      + if Skipped(misspelled, c, f) || Near(misspelled, c, limit, false, f) then []
        else [Score(misspelled, c, false, f)]
  }

  lemma OneMoreHit(near: seq<Scored>, far: seq<Scored>, all: seq<Scored>, x: Scored)
    requires multiset(all) == multiset(near) + multiset(far)
    ensures multiset(all + [x]) == multiset(near + [x]) + multiset(far)
    ensures multiset(all + [x]) == multiset(near) + multiset(far + [x])
  {
  }

  /** Without a limit the program keeps the near names and the far ones. */
  lemma {:induction false} NearAndFar(misspelled: Bytes, cands: seq<Bytes>, limit: int, f: Folding)
    ensures multiset(Hits(misspelled, cands, None, false, f))
            == multiset(NearHits(misspelled, cands, limit, false, f)) + multiset(FarHits(misspelled, cands, limit, f))
  {
    if cands != [] {
      var init := cands[..|cands| - 1];
      NearAndFar(misspelled, init, limit, f);
      OneMoreHit(NearHits(misspelled, init, limit, false, f), FarHits(misspelled, init, limit, f),
                 Hits(misspelled, init, None, false, f), Score(misspelled, cands[|cands| - 1], false, f));
    }
  }

  lemma {:induction false} NearAreNear(misspelled: Bytes, cands: seq<Bytes>, limit: int, f: Folding)
    ensures forall x :: x in NearHits(misspelled, cands, limit, false, f) ==> x.distance <= limit
    ensures forall x :: x in FarHits(misspelled, cands, limit, f) ==> x.distance > limit
  {
    if cands != [] { NearAreNear(misspelled, cands[..|cands| - 1], limit, f); }
  }

  lemma TakePrefix<T>(p: seq<T>, q: seq<T>, n: nat, m: nat)
    requires n <= m
    ensures Take(n, p) <= Take(m, p + q)
  {
  }

  lemma NamesPrefix(s: seq<Scored>, t: seq<Scored>)
    requires s <= t
    ensures Names(s) <= Names(t)
  {
  }

  lemma ScoresOfDressed(s: seq<Scored>, start: nat, length: nat, swaps: bool)
    ensures Scores(Dress(s, start, length, swaps)) == s
  {
  }

  /** The names suggested are the first names of the sample shown beside them. */
  lemma SuggestionsHeadTheSample(misspelled: Bytes, cands: seq<Bytes>, pos: Option<nat>, limit: int, f: Folding)
    requires AllSafe(misspelled, cands, MaxDistance(|misspelled|), f)
    requires limit >= MAX_SUGGESTIONS
    ensures Names(Scores(SuggestNames(misspelled, cands, pos, f))) <= Sample(misspelled, cands, limit, f)
  {
    if misspelled != [] && pos.Some? && cands != [] {
      var o, cap := Order(|misspelled|, false), MaxDistance(|misspelled|);
      var near, all := Hits(misspelled, cands, Some(cap), false, f), Hits(misspelled, cands, None, false, f);
      var far := FarHits(misspelled, cands, cap, f);
      NothingFilteredOut(misspelled, cands, cap, false, f);
      NearAndFar(misspelled, cands, cap, f);
      NearAreNear(misspelled, cands, cap, f);
      SortSplits(o, near, far, all, cap);
      ScoresOfDressed(Take(MAX_SUGGESTIONS, Sort(o, near)), pos.value, |misspelled|, false);
      TakePrefix(Sort(o, near), Sort(o, far), MAX_SUGGESTIONS, limit);
      NamesPrefix(Take(MAX_SUGGESTIONS, Sort(o, near)), Take(limit, Sort(o, all)));
    }
  }

  lemma OneHit(m: Bytes, init: seq<Bytes>, c: Bytes, limit: Option<int>, f: Folding)
    ensures Hits(m, init + [c], limit, false, f)
            == Hits(m, init, limit, false, f) + if Kept(m, c, limit, false, f) then [Score(m, c, false, f)] else []
  {
    assert (init + [c])[..|init|] == init;
  }

  lemma TwoHits(m: Bytes, c: Bytes, d: Bytes, limit: Option<int>, f: Folding)
    requires Kept(m, d, limit, false, f)
    ensures Hits(m, [c, d], limit, false, f)
            == (if Kept(m, c, limit, false, f) then [Score(m, c, false, f)] else []) + [Score(m, d, false, f)]
  {
    OneHit(m, [], c, limit, f);
    OneHit(m, [c], d, limit, f);
    assert [] + [c] == [c] && [c] + [d] == [c, d];
  }

  lemma SortOne(o: Order, x: Scored)
    ensures Sort(o, [x]) == [x]
  {
    SortSorts(o, [x]);
    SortIsUnique(o, Sort(o, [x]), [x]);
  }

  lemma SortTwo(o: Order, x: Scored, y: Scored)
    requires Less(o, x, y)
    ensures Sort(o, [x, y]) == [x, y]
  {
    LessIsTotal(o, x, y);
    SortSorts(o, [x, y]);
    SortIsUnique(o, Sort(o, [x, y]), [x, y]);
  }

  lemma OnlySuggestion(m: Bytes, c: Bytes, d: Bytes, f: Folding)
    requires m != [] && !Kept(m, c, Some(MaxDistance(|m|)), false, f) && Kept(m, d, Some(MaxDistance(|m|)), false, f)
    ensures Names(Scores(SuggestNames(m, [c, d], Some(0), f))) == [d]
  {
    var o, y := Order(|m|, false), Score(m, d, false, f);
    TwoHits(m, c, d, Some(MaxDistance(|m|)), f);
    SortOne(o, y);
    ScoresOfDressed([y], 0, |m|, false);
  }

  lemma BothSampled(m: Bytes, c: Bytes, d: Bytes, limit: nat, f: Folding)
    requires limit >= 2 && !Skipped(m, c, f) && !Skipped(m, d, f)
    requires Less(Order(|m|, false), Score(m, c, false, f), Score(m, d, false, f))
    ensures Sample(m, [c, d], limit, f) == [c, d]
  {
    TwoHits(m, c, d, None, f);
    SortTwo(Order(|m|, false), Score(m, c, false, f), Score(m, d, false, f));
  }

  /** On unsafe lengths the suggestions need not head the sample: some token and two candidates show it. */
  lemma UnsafeMisleads(token: nat, cand: nat, lowToken: nat, lowCand: nat, limit: nat)
      returns (m: Bytes, c: Bytes, d: Bytes, f: Folding)
    requires token > 0 && cand > 0 && limit >= MAX_SUGGESTIONS
    requires !SafeLengths(token, cand, lowToken, lowCand, MaxDistance(token))
    ensures |m| == token && |c| == cand && |f.lower(m)| == lowToken && |f.lower(c)| == lowCand
    ensures Safe(m, d, MaxDistance(token), f)
    ensures !(Names(Scores(SuggestNames(m, [c, d], Some(0), f))) <= Sample(m, [c, d], limit, f))
  {
    var cap := MaxDistance(token);
    m, c, d := Zeros(token), Zeros(cand), seq(token, _ => 1);
    f := Folding(s => if s == d then Zeros(lowToken + cap)
                      else if |s| == token then Zeros(lowToken)
                      else Zeros(lowCand),
                 (s, t) => s == t);
    assert m[0] == 0 && d[0] == 1 && c[0] == 0;
    LowerThree(lowToken, lowCand, cap);
    OnlySuggestion(m, c, d, f);
    BothSampled(m, c, d, limit, f);
    assert [d][0] != [c, d][0];
  }

  lemma LowerThree(lowToken: nat, lowCand: nat, cap: nat)
    requires AbsDiff(lowCand, lowToken) <= cap
    ensures Lev(Zeros(lowToken), Zeros(lowCand)) <= cap == Lev(Zeros(lowToken), Zeros(lowToken + cap))
  {
    ZerosAreClose(lowToken, lowCand, false);
    ZerosAreClose(lowToken, lowToken + cap, false);
    DistancesCompared(Zeros(lowToken), Zeros(lowToken + cap));
  }
}
