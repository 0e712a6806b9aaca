/** The string operations the parsers call, on sequences of Unicode code points. */
module Text {

  import opened Options

  /** unicode.IsSpace. */
  predicate IsSpace(c: char) {
    || c in {'\t', '\n', '\U{000B}', '\U{000C}', '\r', ' ', '\U{0085}', '\U{00A0}', '\U{1680}'}
    || '\U{2000}' <= c <= '\U{200A}'
    || c in {'\U{2028}', '\U{2029}', '\U{202F}', '\U{205F}', '\U{3000}'}
  }

  predicate IsBlank(c: char) {
    c == ' ' || c == '\t'
  }

  /** strings.TrimRight(s, " \t"). */
  function TrimRightBlanks(s: string): string {
    if s != "" && IsBlank(s[|s| - 1]) then TrimRightBlanks(s[..|s| - 1]) else s
  }

  function TrimRightSpace(s: string): string {
    if s != "" && IsSpace(s[|s| - 1]) then TrimRightSpace(s[..|s| - 1]) else s
  }

  function TrimLeftSpace(s: string): string {
    if s != "" && IsSpace(s[0]) then TrimLeftSpace(s[1..]) else s
  }

  /** strings.TrimSpace. */
  function TrimSpace(s: string): string {
    TrimRightSpace(TrimLeftSpace(s))
  }

  predicate Trimmed(s: string) {
    s != "" ==> !IsSpace(s[0]) && !IsSpace(s[|s| - 1])
  }

  predicate AllSpace(s: string) {
    forall i :: 0 <= i < |s| ==> IsSpace(s[i])
  }

  lemma {:induction false} TrimLeftPad(pad: string, s: string)
    requires AllSpace(pad) && (s != "" ==> !IsSpace(s[0]))
    ensures TrimLeftSpace(pad + s) == s
  {
    if pad == "" {
      assert pad + s == s;
    } else {
      assert (pad + s)[1..] == pad[1..] + s;
      TrimLeftPad(pad[1..], s);
    }
  }

  lemma {:induction false} TrimRightPad(s: string, pad: string)
    requires AllSpace(pad) && (s != "" ==> !IsSpace(s[|s| - 1]))
    ensures TrimRightSpace(s + pad) == s
  {
    if pad == "" {
      assert s + pad == s;
    } else {
      assert (s + pad)[..|s + pad| - 1] == s + pad[..|pad| - 1];
      TrimRightPad(s, pad[..|pad| - 1]);
    }
  }

  /** Trimming takes away exactly the surrounding space. */
  lemma TrimSpacePad(left: string, s: string, right: string)
    requires AllSpace(left) && AllSpace(right) && Trimmed(s)
    ensures TrimSpace(left + s + right) == s
  {
    if s == "" {
      assert left + s + right == (left + right) + "";
      TrimLeftPad(left + right, "");
    } else {
      assert left + s + right == left + (s + right);
      TrimLeftPad(left, s + right);
      TrimRightPad(s, right);
    }
  }

  lemma {:induction false} TrimLeftSplits(s: string) returns (pad: string)
    ensures AllSpace(pad) && s == pad + TrimLeftSpace(s)
    ensures TrimLeftSpace(s) != "" ==> !IsSpace(TrimLeftSpace(s)[0])
  {
    if s != "" && IsSpace(s[0]) {
      var rest := TrimLeftSplits(s[1..]);
      pad := [s[0]] + rest;
    } else {
      pad := "";
    }
  }

  lemma {:induction false} TrimRightSplits(s: string) returns (pad: string)
    ensures AllSpace(pad) && s == TrimRightSpace(s) + pad
    ensures TrimRightSpace(s) != "" ==> !IsSpace(TrimRightSpace(s)[|TrimRightSpace(s)| - 1])
  {
    if s != "" && IsSpace(s[|s| - 1]) {
      var rest := TrimRightSplits(s[..|s| - 1]);
      pad := rest + [s[|s| - 1]];
    } else {
      pad := "";
    }
  }

  /** And what is left has none around it. */
  lemma TrimSpaceTrimmed(s: string)
    ensures Trimmed(TrimSpace(s))
    ensures TrimSpace(TrimSpace(s)) == TrimSpace(s)
  {
    var left := TrimLeftSplits(s);
    var right := TrimRightSplits(TrimLeftSpace(s));
    var r := TrimSpace(s);
    assert Trimmed(r);
    assert "" + r + "" == r;
    TrimSpacePad("", r, "");
  }

  lemma TrimRightBlanksKeeps(s: string)
    requires s == "" || !IsBlank(s[|s| - 1])
    ensures TrimRightBlanks(s) == s
  {
  }

  // ---- what trimming means ----

  /** t is s without the space around it. */
  ghost predicate Pads(s: string, t: string) {
    Trimmed(t) && exists left, right :: AllSpace(left) && AllSpace(right) && s == left + t + right
  }

  lemma PadsTrims(s: string, t: string)
    ensures Pads(s, t) <==> TrimSpace(s) == t
  {
    if Pads(s, t) {
      var left, right :| AllSpace(left) && AllSpace(right) && s == left + t + right;
      TrimSpacePad(left, t, right);
    }
    var left, right := TrimParts(s);
    assert Pads(s, TrimSpace(s));
  }

  lemma TrimParts(s: string) returns (left: string, right: string)
    ensures AllSpace(left) && AllSpace(right) && s == left + TrimSpace(s) + right && Trimmed(TrimSpace(s))
  {
    left := TrimLeftSplits(s);
    right := TrimRightSplits(TrimLeftSpace(s));
    TrimSpaceTrimmed(s);
    assert left + (TrimSpace(s) + right) == left + TrimSpace(s) + right;
  }

  lemma SpaceTrims(s: string)
    ensures AllSpace(s) <==> TrimSpace(s) == ""
  {
    if AllSpace(s) {
      assert s + "" + "" == s;
      TrimSpacePad(s, "", "");
    }
    if TrimSpace(s) == "" {
      var left, right := TrimParts(s);
      assert s == left + "" + right;
    }
  }

  predicate OnlyBlanks(row: string) {
    forall i :: 0 <= i < |row| ==> row[i] == ' ' || row[i] == '\t'
  }

  lemma {:induction false} BlanksCut(s: string) returns (cut: string)
    ensures s == TrimRightBlanks(s) + cut && OnlyBlanks(cut)
    ensures TrimRightBlanks(s) == "" <==> OnlyBlanks(s)
  {
    if s != "" && IsBlank(s[|s| - 1]) {
      var rest := BlanksCut(s[..|s| - 1]);
      cut := rest + [s[|s| - 1]];
    } else {
      cut := "";
      assert s != "" ==> !OnlyBlanks(s) by { assert s != "" ==> !IsBlank(s[|s| - 1]); }
    }
  }

  lemma TrimsThen(s: string, cut: string)
    requires AllSpace(cut)
    ensures TrimSpace(s + cut) == TrimSpace(s)
  {
    var left, right := TrimParts(s);
    assert s + cut == left + TrimSpace(s) + (right + cut);
    TrimSpacePad(left, TrimSpace(s), right + cut);
  }

  lemma TailTrims(raw: string, cut: string, line: string, i: nat)
    requires raw == line + cut && OnlyBlanks(cut) && i <= |line|
    ensures TrimSpace(raw[i..]) == TrimSpace(line[i..])
  {
    assert raw[i..] == line[i..] + cut;
    TrimsThen(line[i..], cut);
  }

  /** strings.Index for one character. */
  function IndexOf(s: string, c: char): (r: Option<nat>)
    ensures r.Some? ==> r.value < |s| && s[r.value] == c && c !in s[..r.value]
    ensures r.None? ==> c !in s
  {
    if s == "" then None
    else if s[0] == c then Some(0)
    else match IndexOf(s[1..], c)
      case None => None
      case Some(i) => assert s[..i + 1] == [s[0]] + s[1..][..i]; Some(i + 1)
  }

  lemma {:induction false} IndexOfFirst(s: string, t: string, c: char)
    requires c !in s
    ensures IndexOf(s + [c] + t, c) == Some(|s|)
  {
    if s != "" {
      assert (s + [c] + t)[1..] == s[1..] + [c] + t;
      IndexOfFirst(s[1..], t, c);
    }
  }
}
