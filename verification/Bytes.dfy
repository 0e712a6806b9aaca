/** Byte strings, as Go's strings are. */
module Bytes {

  newtype Byte = b: int | 0 <= b < 256

  type Bytes = seq<Byte>

  /** Go's `<` on strings: the first differing byte decides, a proper prefix is smaller. */
  predicate Below(s: Bytes, t: Bytes) {
    t != [] && (s == [] || s[0] < t[0] || (s[0] == t[0] && Below(s[1..], t[1..])))
  }

  /** s and t agree on their first n bytes, and there s ends before t or has the smaller byte. */
  predicate SmallerAt(s: Bytes, t: Bytes, n: int) {
    && 0 <= n <= |s| && n < |t| && (forall k :: 0 <= k < n ==> s[k] == t[k])
    && (n == |s| || s[n] < t[n])
  }

  lemma {:induction false} BelowExactly(s: Bytes, t: Bytes)
    ensures Below(s, t) <==> exists n :: SmallerAt(s, t, n)
  {
    if s == [] || t == [] || s[0] != t[0] {
      if Below(s, t) { assert SmallerAt(s, t, 0); }
    } else {
      BelowExactly(s[1..], t[1..]);
      if n :| SmallerAt(s[1..], t[1..], n) {
        assert forall k :: 0 < k <= n ==> s[k] == s[1..][k - 1] && t[k] == t[1..][k - 1];
        assert SmallerAt(s, t, n + 1);
      }
      if n :| SmallerAt(s, t, n) {
        assert SmallerAt(s[1..], t[1..], n - 1);
      }
    }
  }

  lemma {:induction false} BelowIsTotal(s: Bytes, t: Bytes)
    ensures !(Below(s, t) && Below(t, s))
    ensures s == t <==> !Below(s, t) && !Below(t, s)
  {
    if s != [] && t != [] && s[0] == t[0] {
      BelowIsTotal(s[1..], t[1..]);
      assert s == [s[0]] + s[1..] && t == [t[0]] + t[1..];
    }
  }

  lemma {:induction false} BelowIsTransitive(s: Bytes, t: Bytes, u: Bytes)
    requires Below(s, t) && Below(t, u)
    ensures Below(s, u)
  {
    if s != [] && s[0] == t[0] == u[0] { BelowIsTransitive(s[1..], t[1..], u[1..]); }
  }
}
