/**
 What each row of EXPLAIN's output is, read off its characters: the parser's row
 classification and its key-value split say exactly this.
 */
module ExplainRows {

  import opened Options
  import opened Text
  import opened ExplainTree

  // ---- characters ----

  /** What the tree is drawn with, blanks included. */
  predicate Drawing(c: char) {
    c == ' ' || c == '\t' || c == '│' || c == '└' || c == '├' || c == '─'
  }

  predicate Drawings(row: string, n: nat) {
    n <= |row| && forall i :: 0 <= i < n ==> Drawing(row[i])
  }

  /** The separator between the header and the tree. */
  ghost predicate LoneDot(row: string) {
    Pads(row, "·")
  }

  predicate SpaceFrom(row: string, n: nat) {
    forall i :: n <= i < |row| ==> IsSpace(row[i])
  }

  /** Drawings, then nothing but space; not just blanks. */
  ghost predicate Scaffold(row: string) {
    !OnlyBlanks(row) && exists n: nat :: Drawings(row, n) && SpaceFrom(row, n)
  }

  /** Drawings, a bullet, and the operator's name. */
  ghost predicate BulletRow(row: string, n: nat, op: string) {
    Drawings(row, n) && n < |row| && row[n] == '•' && Pads(row[n + 1..], op)
  }

  /** Drawings, then a text that starts with neither a drawing nor a bullet. */
  ghost predicate TextRow(row: string, n: int, text: string) {
    && 0 <= n < |row| && Drawings(row, n) && !Drawing(row[n]) && row[n] != '•'
    && text != "" && Pads(row[n..], text) && !LoneDot(row)
  }

  ghost predicate ReadsAs(raw: string, row: Row) {
    match row
    case Visual => OnlyBlanks(raw) || LoneDot(raw)
    case Operator(n, op) => BulletRow(raw, n, op)
    case Continuation => Scaffold(raw)
    case Content(n, text) => TextRow(raw, n, text)
  }

  // ---- without the blanks at the end ----

  /** How many drawings a row starts with. */
  lemma RunOf(raw: string, cut: string, line: string)
    requires raw == line + cut && OnlyBlanks(cut)
    ensures GlyphRun(line) < |line| ==> GlyphRun(raw) == GlyphRun(line)
    ensures GlyphRun(line) == |line| ==> GlyphRun(raw) == |raw|
  {
    var n := GlyphRun(line);
    forall i | 0 <= i < n ensures IsTreeGlyph(raw[i]) { assert raw[i] == line[i]; }
    if n < |line| {
      assert raw[n] == line[n];
      GlyphRunIs(raw, n);
    } else {
      forall i | 0 <= i < |raw| ensures IsTreeGlyph(raw[i]) {
        if i >= |line| { assert raw[i] == cut[i - |line|]; }
      }
      GlyphRunIs(raw, |raw|);
    }
  }

  /** The classification, on the row as it is. */
  lemma ClassifiesRaw(raw: string)
    ensures var n := GlyphRun(raw);
            Classify(raw) == if OnlyBlanks(raw) || TrimSpace(raw) == "·" then Visual
                             else if n == |raw| then Continuation
                             else if raw[n] == '•' then Operator(n, TrimSpace(raw[n + 1..]))
                             else if TrimSpace(raw[n..]) == "" then Continuation
                             else Content(n, TrimSpace(raw[n..]))
  {
    var line, n := TrimRightBlanks(raw), GlyphRun(TrimRightBlanks(raw));
    var cut := BlanksCut(raw);
    RunOf(raw, cut, line);
    TrimsThen(line, cut);
    if n < |line| {
      assert raw[n] == line[n];
      TailTrims(raw, cut, line, n);
      TailTrims(raw, cut, line, n + 1);
    }
  }

  // ---- the characters decide ----

  lemma RunIs(raw: string, n: nat)
    requires Drawings(raw, n) && (n < |raw| ==> !Drawing(raw[n]))
    ensures GlyphRun(raw) == n
  {
    GlyphRunIs(raw, n);
  }

  lemma DotChars(raw: string)
    requires TrimSpace(raw) == "·"
    ensures forall i :: 0 <= i < |raw| ==> IsSpace(raw[i]) || raw[i] == '·'
    ensures '·' in raw
  {
    var left, right := TrimParts(raw);
    assert raw[|left|] == '·';
  }

  lemma ScaffoldRun(raw: string)
    requires !OnlyBlanks(raw)
    ensures Scaffold(raw) <==> GlyphRun(raw) == |raw| || TrimSpace(raw[GlyphRun(raw)..]) == ""
  {
    var k := GlyphRun(raw);
    SpaceTrims(raw[k..]);
    assert SpaceFrom(raw, k) <==> AllSpace(raw[k..]) by {
      assert forall i :: k <= i < |raw| ==> raw[i] == raw[k..][i - k];
    }
    assert Drawings(raw, k);
    if Scaffold(raw) {
      var n: nat :| Drawings(raw, n) && SpaceFrom(raw, n);
      assert n <= k by { assert k < n ==> Drawing(raw[k]); }
    }
  }

  /** Every row is read as exactly one thing, and its characters say which. */
  lemma ReadsExactly(raw: string, row: Row)
    ensures Classify(raw) == row <==> ReadsAs(raw, row)
  {
    ReadsAsClassified(raw);
    if ReadsAs(raw, row) { OneReading(raw, row); }
  }

  lemma ReadsAsClassified(raw: string)
    ensures ReadsAs(raw, Classify(raw))
  {
    var n := GlyphRun(raw);
    ClassifiesRaw(raw);
    PadsTrims(raw, "·");
    if !OnlyBlanks(raw) && TrimSpace(raw) != "·" {
      ScaffoldRun(raw);
      if n < |raw| {
        PadsTrims(raw[n..], TrimSpace(raw[n..]));
        PadsTrims(raw[n + 1..], TrimSpace(raw[n + 1..]));
      }
    }
  }

  lemma OneReading(raw: string, row: Row)
    requires ReadsAs(raw, row)
    ensures Classify(raw) == row
  {
    ClassifiesRaw(raw);
    PadsTrims(raw, "·");
    if TrimSpace(raw) == "·" { DotChars(raw); }
    match row {
      case Visual =>
      case Operator(n, op) =>
        RunIs(raw, n);
        PadsTrims(raw[n + 1..], op);
      case Continuation =>
        ScaffoldRun(raw);
        ScaffoldChars(raw);
      case Content(n, text) =>
        RunIs(raw, n);
        PadsTrims(raw[n..], text);
    }
  }

  lemma ScaffoldChars(raw: string)
    requires Scaffold(raw)
    ensures forall i :: 0 <= i < |raw| ==> Drawing(raw[i]) || IsSpace(raw[i])
    ensures '·' !in raw
  {
  }

  // ---- rows without content ----

  /**
   A blank row and a lone dot end the header and change nothing else, a row of drawings
   changes nothing at all.
   */
  lemma FillersChangeNothing(p: Parser, raw: string, row: nat)
    requires Sound(p)
    ensures OnlyBlanks(raw) || LoneDot(raw) ==> ReadRow(p, raw, row) == Ok(p.(inHeader := false))
    ensures Scaffold(raw) ==> ReadRow(p, raw, row) == Ok(p)
  {
    ReadsExactly(raw, Visual);
    ReadsExactly(raw, Continuation);
  }

  // ---- keys and values ----

  ghost predicate SplitsInto(s: string, key: string, value: string) {
    exists a, b :: s == a + ":" + b && ':' !in a && Pads(a, key) && Pads(b, value)
  }

  /** A text splits at its first colon, and only a text without one does not. */
  lemma SplitsExactly(s: string, key: string, value: string)
    ensures SplitKV(s) == Some((key, value)) <==> SplitsInto(s, key, value)
    ensures SplitKV(s) == None <==> ':' !in s
  {
    if SplitsInto(s, key, value) {
      var a, b :| s == a + ":" + b && ':' !in a && Pads(a, key) && Pads(b, value);
      IndexOfFirst(a, b, ':');
      assert s[..|a|] == a && s[|a| + 1..] == b;
      PadsTrims(a, key);
      PadsTrims(b, value);
    }
    if SplitKV(s) == Some((key, value)) {
      var i := IndexOf(s, ':').value;
      PadsTrims(s[..i], key);
      PadsTrims(s[i + 1..], value);
      assert s == s[..i] + ":" + s[i + 1..];
    }
  }
}
