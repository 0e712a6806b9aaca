/** Sorting scored names: the order has no ties, so every sort gives the same result. */
module Ranking {

  import opened Bytes

  datatype Scored = Scored(name: Bytes, distance: nat)

  /** How ties at the same distance are broken before the name decides. */
  datatype Order = Order(length: nat, preferSameLen: bool)

  predicate Less(o: Order, x: Scored, y: Scored) {
    if x.distance != y.distance then x.distance < y.distance
    else if o.preferSameLen && (|x.name| == o.length) != (|y.name| == o.length) then |x.name| == o.length
    else Below(x.name, y.name)
  }

  lemma LessIsTotal(o: Order, x: Scored, y: Scored)
    ensures !(Less(o, x, y) && Less(o, y, x))
    ensures x == y <==> !Less(o, x, y) && !Less(o, y, x)
  {
    BelowIsTotal(x.name, y.name);
  }

  /** Not after is transitive. */
  lemma NotAfterTransitive(o: Order, x: Scored, y: Scored, z: Scored)
    requires !Less(o, y, x) && !Less(o, z, y)
    ensures !Less(o, z, x)
  {
    LessIsTotal(o, x, y);
    LessIsTotal(o, y, z);
    LessIsTotal(o, x, z);
    if Below(x.name, y.name) && Below(y.name, z.name) { BelowIsTransitive(x.name, y.name, z.name); }
  }

  predicate IsSorted(o: Order, s: seq<Scored>) {
    forall i, j :: 0 <= i < j < |s| ==> !Less(o, s[j], s[i])
  }

  function Insert(o: Order, x: Scored, s: seq<Scored>): seq<Scored> {
    if s == [] || !Less(o, s[0], x) then [x] + s else [s[0]] + Insert(o, x, s[1..])
  }

  function Sort(o: Order, s: seq<Scored>): seq<Scored> {
    if s == [] then [] else Insert(o, s[|s| - 1], Sort(o, s[..|s| - 1]))
  }

  lemma {:induction false} InsertSorts(o: Order, x: Scored, s: seq<Scored>)
    requires IsSorted(o, s)
    ensures IsSorted(o, Insert(o, x, s)) && multiset(Insert(o, x, s)) == multiset(s) + multiset{x}
  {
    if s == [] {
    } else if !Less(o, s[0], x) {
      forall j | 0 <= j < |s| ensures !Less(o, s[j], x) {
        if j > 0 { NotAfterTransitive(o, x, s[0], s[j]); }
      }
    } else {
      var rest := Insert(o, x, s[1..]);
      InsertSorts(o, x, s[1..]);
      assert s == [s[0]] + s[1..];
      LessIsTotal(o, s[0], x);
      forall j | 0 <= j < |rest| ensures !Less(o, rest[j], s[0]) {
        assert rest[j] in multiset(rest);
        if rest[j] != x {
          assert rest[j] in multiset(s[1..]);
          assert rest[j] in s[1..];
        }
      }
    }
  }

  lemma {:induction false} SortSorts(o: Order, s: seq<Scored>)
    ensures IsSorted(o, Sort(o, s)) && multiset(Sort(o, s)) == multiset(s)
  {
    if s != [] {
      SortSorts(o, s[..|s| - 1]);
      InsertSorts(o, s[|s| - 1], Sort(o, s[..|s| - 1]));
      assert s == s[..|s| - 1] + [s[|s| - 1]];
    }
  }

  lemma FirstIsLeast(o: Order, s: seq<Scored>, x: Scored)
    requires IsSorted(o, s) && x in multiset(s)
    ensures s != [] && !Less(o, x, s[0])
  {
    assert x in s;
    var k :| 0 <= k < |s| && s[k] == x;
    LessIsTotal(o, s[0], x);
  }

  /** However the library sorts, it can only return this. */
  lemma {:induction false} SortIsUnique(o: Order, s: seq<Scored>, t: seq<Scored>)
    requires IsSorted(o, s) && IsSorted(o, t) && multiset(s) == multiset(t)
    ensures s == t
  {
    if s == [] || t == [] {
      assert |multiset(s)| == |multiset(t)|;
    } else {
      assert s[0] in multiset(s) && t[0] in multiset(t);
      FirstIsLeast(o, s, t[0]);
      FirstIsLeast(o, t, s[0]);
      LessIsTotal(o, s[0], t[0]);
      assert s == [s[0]] + s[1..] && t == [t[0]] + t[1..];
      assert multiset(s[1..]) == multiset(s) - multiset{s[0]} == multiset(t[1..]);
      SortIsUnique(o, s[1..], t[1..]);
    }
  }

  lemma SortHolds(o: Order, s: seq<Scored>)
    ensures forall i :: 0 <= i < |Sort(o, s)| ==> Sort(o, s)[i] in s
  {
    SortSorts(o, s);
    forall i | 0 <= i < |Sort(o, s)| ensures Sort(o, s)[i] in s {
      assert Sort(o, s)[i] in multiset(Sort(o, s));
      assert Sort(o, s)[i] in multiset(s);
    }
  }

  lemma NearBeforeFar(o: Order, near: seq<Scored>, far: seq<Scored>, limit: int)
    requires IsSorted(o, near) && IsSorted(o, far)
    requires forall i :: 0 <= i < |near| ==> near[i].distance <= limit
    requires forall i :: 0 <= i < |far| ==> far[i].distance > limit
    ensures IsSorted(o, near + far)
  {
  }

  /** If everything in s is nearer than everything in t, sorting them together puts s first. */
  lemma SortSplits(o: Order, s: seq<Scored>, t: seq<Scored>, all: seq<Scored>, limit: int)
    requires multiset(all) == multiset(s) + multiset(t)
    requires forall x :: x in s ==> x.distance <= limit
    requires forall x :: x in t ==> x.distance > limit
    ensures Sort(o, all) == Sort(o, s) + Sort(o, t)
  {
    SortSorts(o, s);
    SortSorts(o, t);
    SortSorts(o, all);
    SortHolds(o, s);
    SortHolds(o, t);
    NearBeforeFar(o, Sort(o, s), Sort(o, t), limit);
    SortIsUnique(o, Sort(o, all), Sort(o, s) + Sort(o, t));
  }
}
