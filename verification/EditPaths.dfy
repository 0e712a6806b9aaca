/** Levenshtein's distance as the length of a shortest chain of single-byte edits. */
module EditPaths {

  import opened Bytes
  import opened EditDistance

  /** t is s without its byte i. */
  predicate Drops(s: Bytes, t: Bytes, i: nat) {
    i < |s| && t == s[..i] + s[i + 1..]
  }

  predicate Changes(s: Bytes, t: Bytes, i: nat) {
    i < |s| && |s| == |t| && s[..i] == t[..i] && s[i + 1..] == t[i + 1..]
  }

  /** One byte deleted, inserted or replaced. */
  predicate EditedAt(s: Bytes, t: Bytes, i: nat) {
    Drops(s, t, i) || Drops(t, s, i) || Changes(s, t, i)
  }

  ghost predicate OneEdit(s: Bytes, t: Bytes) {
    exists i: nat :: EditedAt(s, t, i)
  }

  ghost predicate IsPath(p: seq<Bytes>) {
    p != [] && forall k :: 0 <= k < |p| - 1 ==> OneEdit(p[k], p[k + 1])
  }

  // ---- no path is shorter ----

  function KeepAll(s: Bytes): (al: seq<Edit>)
    ensures Source(al) == s && Target(al) == s && Cost(al) == 0 && Allowed(al, false)
  {
    if s == [] then []
    else
      var init := KeepAll(s[..|s| - 1]);
      Snoc(init, Keep(s[|s| - 1]));
      assert s[..|s| - 1] + [s[|s| - 1]] == s;
      init + [Keep(s[|s| - 1])]
  }

  lemma Longer(s: Bytes, u: Bytes)
    requires u != []
    ensures s + u[..|u| - 1] + [u[|u| - 1]] == s + u
  {
  }

  lemma {:induction false} KeepsAfter(al: seq<Edit>, u: Bytes) returns (r: seq<Edit>)
    requires Allowed(al, false)
    ensures Source(r) == Source(al) + u && Target(r) == Target(al) + u && Cost(r) == Cost(al) && Allowed(r, false)
  {
    if u == [] {
      r := al;
    } else {
      var init := KeepsAfter(al, u[..|u| - 1]);
      Snoc(init, Keep(u[|u| - 1]));
      r := init + [Keep(u[|u| - 1])];
      Longer(Source(al), u);
      Longer(Target(al), u);
    }
  }

  lemma ReplacedIsClose(before: Bytes, e: Edit, after: Bytes)
    requires !e.Swap?
    ensures Lev(before + From(e) + after, before + To(e) + after) <= 1
  {
    var s, t := before + From(e) + after, before + To(e) + after;
    Snoc(KeepAll(before), e);
    var al := KeepsAfter(KeepAll(before) + [e], after);
    assert s[..|s|] == s && t[..|t|] == t;
    NoCheaperAlignment(s, t, |s|, |t|, false, al);
  }

  lemma DropIsClose(s: Bytes, t: Bytes, i: nat)
    requires Drops(s, t, i)
    ensures Lev(s, t) <= 1
  {
    ReplacedIsClose(s[..i], Delete(s[i]), s[i + 1..]);
    assert s == s[..i] + [s[i]] + s[i + 1..] && t == s[..i] + [] + s[i + 1..];
  }

  lemma OneEditIsClose(s: Bytes, t: Bytes)
    requires OneEdit(s, t)
    ensures Lev(s, t) <= 1
  {
    var i: nat :| EditedAt(s, t, i);
    if Drops(s, t, i) {
      DropIsClose(s, t, i);
    } else if Drops(t, s, i) {
      DropIsClose(t, s, i);
      Symmetric(s, t);
    } else {
      ReplacedIsClose(s[..i], Substitute(s[i], t[i]), s[i + 1..]);
      assert s == s[..i] + [s[i]] + s[i + 1..] && t == s[..i] + [t[i]] + s[i + 1..];
    }
  }

  lemma {:induction false} NoShorterPath(p: seq<Bytes>)
    requires IsPath(p)
    ensures Lev(p[0], p[|p| - 1]) <= |p| - 1
  {
    if |p| == 1 {
      ZeroIffEqual(p[0], p[0]);
    } else {
      var q := p[..|p| - 1];
      forall k | 0 <= k < |q| - 1 ensures OneEdit(q[k], q[k + 1]) {
        assert OneEdit(p[k], p[k + 1]);
      }
      NoShorterPath(q);
      assert OneEdit(p[|p| - 2], p[|p| - 2 + 1]);
      OneEditIsClose(p[|p| - 2], p[|p| - 1]);
      Triangle(p[0], p[|p| - 2], p[|p| - 1]);
    }
  }

  // ---- one is as short ----

  lemma DropsBefore(s: Bytes, t: Bytes, i: nat, u: Bytes)
    requires Drops(s, t, i)
    ensures Drops(s + u, t + u, i)
  {
    assert (s + u)[..i] == s[..i] && (s + u)[i + 1..] == s[i + 1..] + u;
  }

  lemma OneEditBefore(s: Bytes, t: Bytes, u: Bytes)
    requires OneEdit(s, t)
    ensures OneEdit(s + u, t + u)
  {
    var i: nat :| EditedAt(s, t, i);
    if Drops(s, t, i) {
      DropsBefore(s, t, i, u);
    } else if Drops(t, s, i) {
      DropsBefore(t, s, i, u);
    } else {
      assert (s + u)[..i] == s[..i] && (s + u)[i + 1..] == s[i + 1..] + u;
      assert (t + u)[..i] == t[..i] && (t + u)[i + 1..] == t[i + 1..] + u;
    }
    assert EditedAt(s + u, t + u, i);
  }

  lemma LastIsOneEdit(s: Bytes, e: Edit)
    requires !e.Swap? && !e.Keep?
    ensures OneEdit(s + From(e), s + To(e))
  {
    assert EditedAt(s + From(e), s + To(e), |s|);
  }

  /** Every path of steps, with the same bytes after each. */
  lemma PathBefore(p: seq<Bytes>, u: Bytes) returns (q: seq<Bytes>)
    requires IsPath(p)
    ensures IsPath(q) && |q| == |p| && q[0] == p[0] + u && q[|q| - 1] == p[|p| - 1] + u
  {
    q := seq(|p|, k requires 0 <= k < |p| => p[k] + u);
    forall k | 0 <= k < |q| - 1 ensures OneEdit(q[k], q[k + 1]) {
      OneEditBefore(p[k], p[k + 1], u);
    }
  }

  /** An alignment is a path of as many steps as it costs. */
  lemma {:induction false} PathOf(al: seq<Edit>) returns (p: seq<Bytes>)
    requires Allowed(al, false)
    ensures IsPath(p) && p[0] == Source(al) && p[|p| - 1] == Target(al) && |p| == Cost(al) + 1
  {
    if al == [] {
      p := [[]];
    } else {
      var init, e := al[..|al| - 1], al[|al| - 1];
      var q := PathOf(init);
      q := PathBefore(q, From(e));
      if e.Keep? {
        p := q;
      } else {
        LastIsOneEdit(Target(init), e);
        p := q + [Target(init) + To(e)];
        forall k | 0 <= k < |p| - 1 ensures OneEdit(p[k], p[k + 1]) {
          if k < |q| - 1 { assert OneEdit(q[k], q[k + 1]); }
        }
      }
    }
  }

  /** The distance is the number of single-byte edits of a shortest path, and there is one. */
  lemma ShortestPath(a: Bytes, b: Bytes)
    ensures forall p :: IsPath(p) && p[0] == a && p[|p| - 1] == b ==> Lev(a, b) <= |p| - 1
    ensures exists p :: IsPath(p) && p[0] == a && p[|p| - 1] == b && |p| - 1 == Lev(a, b)
  {
    forall p | IsPath(p) && p[0] == a && p[|p| - 1] == b ensures Lev(a, b) <= |p| - 1 {
      NoShorterPath(p);
    }
    assert a[..|a|] == a && b[..|b|] == b;
    var al := CheapestAlignment(a, b, |a|, |b|, false);
    var p := PathOf(al);
  }
}
