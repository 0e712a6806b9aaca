/** Character indices and byte offsets in UTF-8 text (section 3 of RFC 3629). */
module Utf8 {

  import opened Bytes

  /** A Unicode scalar value: no surrogates. */
  type Scalar = r: int | 0 <= r < 0x110000 && !(0xD800 <= r < 0xE000) witness 0

  function ByteOf(n: int): Byte
    requires 0 <= n < 256
  {
    n as Byte
  }

  /** The encoding of one scalar value. */
  function Encode(r: Scalar): (s: Bytes)
    ensures 1 <= |s| <= 4
  {
    if r < 0x80 then [ByteOf(r)]
    else if r < 0x800 then [ByteOf(0xC0 + r / 64), ByteOf(0x80 + r % 64)]
    else if r < 0x10000 then [ByteOf(0xE0 + r / 4096), ByteOf(0x80 + r / 64 % 64), ByteOf(0x80 + r % 64)]
    else [ByteOf(0xF0 + r / 262144), ByteOf(0x80 + r / 4096 % 64), ByteOf(0x80 + r / 64 % 64), ByteOf(0x80 + r % 64)]
  }

  function EncodeAll(runes: seq<Scalar>): Bytes {
    if runes == [] then [] else Encode(runes[0]) + EncodeAll(runes[1..])
  }

  predicate InRange(s: Bytes, i: nat, lo: Byte, hi: Byte) {
    i < |s| && lo <= s[i] <= hi
  }

  predicate Continues(s: Bytes, from: nat, to: nat) {
    forall i :: from <= i < to ==> InRange(s, i, 0x80, 0xBF)
  }

  /** How many bytes a range loop takes for the first character: one for a byte that starts no valid encoding. */
  function Width(s: Bytes): (n: nat)
    requires s != []
    ensures 1 <= n <= 4 && n <= |s|
  {
    var b := s[0];
    if 0xC2 <= b <= 0xDF && Continues(s, 1, 2) then assert InRange(s, 1, 0x80, 0xBF); 2
    else if 0xE0 <= b <= 0xEF && Continues(s, 1, 3)
            && InRange(s, 1, if b == 0xE0 then 0xA0 else 0x80, if b == 0xED then 0x9F else 0xBF) then
      assert InRange(s, 2, 0x80, 0xBF); 3
    else if 0xF0 <= b <= 0xF4 && Continues(s, 1, 4)
            && InRange(s, 1, if b == 0xF0 then 0x90 else 0x80, if b == 0xF4 then 0x8F else 0xBF) then
      assert InRange(s, 3, 0x80, 0xBF); 4
    else 1
  }

  /** The offset of character k, or the end. */
  function OffsetOfChar(s: Bytes, k: int): (n: nat)
    ensures n <= |s|
    decreases |s|
  {
    if k <= 0 || s == [] then 0 else Width(s) + OffsetOfChar(s[Width(s)..], k - 1)
  }

  method CharIndexToByteOffset(sql: Bytes, charIdx: int) returns (offset: nat)
    ensures offset == OffsetOfChar(sql, charIdx) && (charIdx <= 0 ==> offset == 0)
  {
    if charIdx <= 0 { return 0; }
    var count := 0;
    var i: nat := 0;
    while i < |sql|
      invariant i <= |sql| && 0 <= count <= charIdx
      invariant i + OffsetOfChar(sql[i..], charIdx - count) == OffsetOfChar(sql, charIdx)
    {
      if count == charIdx { return i; }
      count := count + 1;
      assert sql[i..][Width(sql[i..])..] == sql[i + Width(sql[i..])..];
      i := i + Width(sql[i..]);
    }
    return |sql|;
  }

  // ---- valid text ----

  lemma WidthOfTwo(r: Scalar, rest: Bytes)
    requires 0x80 <= r < 0x800
    ensures Width(Encode(r) + rest) == 2
  {
    var s := Encode(r) + rest;
    assert s[0] == ByteOf(0xC0 + r / 64) && s[1] == ByteOf(0x80 + r % 64);
  }

  lemma WidthOfThree(r: Scalar, rest: Bytes)
    requires 0x800 <= r < 0x10000
    ensures Width(Encode(r) + rest) == 3
  {
    var s := Encode(r) + rest;
    assert s[0] == ByteOf(0xE0 + r / 4096) && s[1] == ByteOf(0x80 + r / 64 % 64) && s[2] == ByteOf(0x80 + r % 64);
  }

  lemma WidthOfFour(r: Scalar, rest: Bytes)
    requires 0x10000 <= r
    ensures Width(Encode(r) + rest) == 4
  {
    var s := Encode(r) + rest;
    assert s[0] == ByteOf(0xF0 + r / 262144) && s[1] == ByteOf(0x80 + r / 4096 % 64);
    assert s[2] == ByteOf(0x80 + r / 64 % 64) && s[3] == ByteOf(0x80 + r % 64);
  }

  /** An encoding is as wide as the loop takes it to be, whatever follows. */
  lemma WidthOfEncoding(r: Scalar, rest: Bytes)
    ensures Width(Encode(r) + rest) == |Encode(r)|
  {
    if r < 0x80 {
      assert (Encode(r) + rest)[0] == ByteOf(r);
    } else if r < 0x800 {
      WidthOfTwo(r, rest);
    } else if r < 0x10000 {
      WidthOfThree(r, rest);
    } else {
      WidthOfFour(r, rest);
    }
  }

  lemma TwoBytes(s: Bytes) returns (r: Scalar)
    requires s != [] && Width(s) == 2
    ensures Encode(r) == s[..2]
  {
    assert Continues(s, 1, 2) && InRange(s, 1, 0x80, 0xBF);
    var b, c := s[0] as int, s[1] as int;
    r := (b - 0xC0) * 64 + (c - 0x80);
    assert r / 64 == b - 0xC0 && r % 64 == c - 0x80;
  }

  lemma ThreeBytes(s: Bytes) returns (r: Scalar)
    requires s != [] && Width(s) == 3
    ensures Encode(r) == s[..3]
  {
    assert InRange(s, 1, 0x80, 0xBF) && InRange(s, 2, 0x80, 0xBF);
    var b, c, d := s[0] as int, s[1] as int, s[2] as int;
    var n := (b - 0xE0) * 4096 + (c - 0x80) * 64 + (d - 0x80);
    assert n / 64 == (b - 0xE0) * 64 + (c - 0x80) && n % 64 == d - 0x80;
    assert n / 4096 == b - 0xE0 && n / 64 % 64 == c - 0x80;
    r := n;
  }

  lemma FourBytes(s: Bytes) returns (r: Scalar)
    requires s != [] && Width(s) == 4
    ensures Encode(r) == s[..4]
  {
    assert InRange(s, 1, 0x80, 0xBF) && InRange(s, 2, 0x80, 0xBF) && InRange(s, 3, 0x80, 0xBF);
    var b, c, d, e := s[0] as int, s[1] as int, s[2] as int, s[3] as int;
    var n := (b - 0xF0) * 262144 + (c - 0x80) * 4096 + (d - 0x80) * 64 + (e - 0x80);
    assert n / 64 == (b - 0xF0) * 4096 + (c - 0x80) * 64 + (d - 0x80) && n % 64 == e - 0x80;
    assert n / 4096 == (b - 0xF0) * 64 + (c - 0x80) && n / 64 % 64 == d - 0x80;
    assert n / 262144 == b - 0xF0 && n / 4096 % 64 == c - 0x80;
    r := n;
  }

  /** The text starts with the encoding of some scalar value. */
  ghost predicate StartsWith(s: Bytes, r: Scalar) {
    Encode(r) <= s
  }

  /**
   On any bytes: the loop takes a whole encoding where there is one, and a single byte
   where there is none.
   */
  lemma WidthExactly(s: Bytes)
    requires s != []
    ensures forall r :: StartsWith(s, r) ==> Width(s) == |Encode(r)|
    ensures (forall r :: !StartsWith(s, r)) ==> Width(s) == 1
  {
    forall r | StartsWith(s, r) ensures Width(s) == |Encode(r)| {
      assert s == Encode(r) + s[|Encode(r)|..];
      WidthOfEncoding(r, s[|Encode(r)|..]);
    }
    if Width(s) == 2 {
      var r := TwoBytes(s);
      assert StartsWith(s, r);
    } else if Width(s) == 3 {
      var r := ThreeBytes(s);
      assert StartsWith(s, r);
    } else if Width(s) == 4 {
      var r := FourBytes(s);
      assert StartsWith(s, r);
    }
  }

  lemma PrefixOfBoth(a: Bytes, b: Bytes, n: nat)
    requires n <= |b|
    ensures (a + b)[..|a| + n] == a + b[..n] && (a + b)[|a|..] == b
  {
  }

  lemma FirstOf(runes: seq<Scalar>, n: nat)
    requires 0 < n <= |runes|
    ensures EncodeAll(runes[..n]) == Encode(runes[0]) + EncodeAll(runes[1..][..n - 1])
  {
    assert runes[..n][0] == runes[0] && runes[..n][1..] == runes[1..][..n - 1];
  }

  /** In valid text the offset of character k ends a prefix of exactly min(k, length) characters. */
  lemma {:induction false} OffsetEndsPrefix(runes: seq<Scalar>, k: int)
    requires k >= 0
    ensures EncodeAll(runes)[..OffsetOfChar(EncodeAll(runes), k)]
            == EncodeAll(runes[..if k < |runes| then k else |runes|])
  {
    if k > 0 && runes != [] {
      var head, tail := Encode(runes[0]), EncodeAll(runes[1..]);
      WidthOfEncoding(runes[0], tail);
      PrefixOfBoth(head, tail, OffsetOfChar(tail, k - 1));
      OffsetEndsPrefix(runes[1..], k - 1);
      FirstOf(runes, if k < |runes| then k else |runes|);
    }
  }
}
