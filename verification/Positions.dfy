/** Lines and columns, and moving a position from the stripped text to the original. */
module Positions {

  import opened Options
  import opened Bytes
  import opened Prompts
  import opened StripMap

  datatype Place = Place(line: int, col: int)

  datatype Position = Position(place: Place, byteOffset: int)

  /** strings.Count(s, "\n"). */
  function Newlines(s: Bytes): nat {
    if s == [] then 0 else Newlines(s[..|s| - 1]) + if s[|s| - 1] == NEWLINE then 1 else 0
  }

  /** strings.LastIndex(s, "\n"). */
  function LastNewline(s: Bytes): int {
    if s == [] then -1 else if s[|s| - 1] == NEWLINE then |s| - 1 else LastNewline(s[..|s| - 1])
  }

  /** lineColumn; a negative offset is the caller's error. */
  function LineColumn(sql: Bytes, byteOffset: nat): Place {
    var offset := if byteOffset > |sql| then |sql| else byteOffset;
    var prefix := sql[..offset];
    var last := LastNewline(prefix);
    Place(Newlines(prefix) + 1, if last < 0 then offset + 1 else offset - last)
  }

  function PositionFromByteOffset(sql: Bytes, byteOffset: int): Option<Position> {
    if byteOffset < 0 then None else Some(Position(LineColumn(sql, byteOffset), byteOffset))
  }

  /** AdjustPosition with the stripper's Translate. */
  function AdjustPosition(pos: Option<Position>, sql: Bytes, r: StripResult): Option<Position>
    requires pos.Some? ==> TranslateOf(r, pos.value.byteOffset) >= 0
  {
    match pos
    case None => None
    case Some(p) =>
      var offset := TranslateOf(r, p.byteOffset);
      Some(Position(LineColumn(sql, offset), offset))
  }

  // ---- counting newlines ----

  lemma {:induction false} NewlinesThen(a: Bytes, b: Bytes)
    ensures Newlines(a + b) == Newlines(a) + Newlines(b)
  {
    if b == [] {
      assert a + b == a;
    } else {
      var both := a + b;
      assert both[..|both| - 1] == a + b[..|b| - 1] && both[|both| - 1] == b[|b| - 1];
      NewlinesThen(a, b[..|b| - 1]);
    }
  }

  lemma {:induction false} WithoutNewline(a: Bytes, b: Bytes)
    requires NEWLINE !in b
    ensures Newlines(a + b) == Newlines(a) && LastNewline(a + b) == LastNewline(a)
  {
    if b == [] {
      assert a + b == a;
    } else {
      var both := a + b;
      assert both[..|both| - 1] == a + b[..|b| - 1] && both[|both| - 1] == b[|b| - 1];
      WithoutNewline(a, b[..|b| - 1]);
    }
  }

  // ---- a text as its lines ----

  /** Ends in its only newline. */
  predicate Ended(line: Bytes) {
    line != [] && line[|line| - 1] == NEWLINE && NEWLINE !in line[..|line| - 1]
  }

  predicate Proper(lines: seq<Bytes>) {
    && lines != [] && NEWLINE !in lines[|lines| - 1]
    && forall k :: 0 <= k < |lines| - 1 ==> Ended(lines[k])
  }

  lemma ProperCons(line: Bytes, rest: seq<Bytes>)
    requires Ended(line) && Proper(rest)
    ensures Proper([line] + rest)
  {
  }

  lemma {:induction false} SplitIsProper(s: Bytes)
    ensures Proper(SplitAfter(s))
    decreases |s|
  {
    var n := NewlineAt(s);
    if n == |s| {
      assert s[..n] == s;
    } else {
      SplitIsProper(s[n + 1..]);
      var line := s[..n + 1];
      assert line[..|line| - 1] == s[..n];
      ProperCons(line, SplitAfter(s[n + 1..]));
    }
  }

  /** Where line k starts. */
  function Start(lines: seq<Bytes>, k: nat): nat
    requires k <= |lines|
  {
    if k == 0 then 0 else Start(lines, k - 1) + |lines[k - 1]|
  }

  lemma {:induction false} StartIsLength(lines: seq<Bytes>, k: nat)
    requires k <= |lines|
    ensures Start(lines, k) == |Joined(lines[..k])|
  {
    if k > 0 {
      JoinedSnoc(lines, k - 1);
      StartIsLength(lines, k - 1);
    }
  }

  lemma {:induction false} JoinedThen(a: seq<Bytes>, b: seq<Bytes>)
    ensures Joined(a + b) == Joined(a) + Joined(b)
  {
    if a == [] {
      assert a + b == b;
    } else {
      assert (a + b)[0] == a[0] && (a + b)[1..] == a[1..] + b;
      JoinedThen(a[1..], b);
    }
  }

  lemma JoinedSnoc(lines: seq<Bytes>, k: nat)
    requires k < |lines|
    ensures Joined(lines[..k + 1]) == Joined(lines[..k]) + lines[k]
  {
    assert lines[..k + 1] == lines[..k] + [lines[k]];
    JoinedThen(lines[..k], [lines[k]]);
    assert Joined([lines[k]]) == lines[k] + Joined([lines[k]][1..]);
  }

  /** The place (k, c) is in line k: before its newline, or up to the end of the last line. */
  predicate InLine(lines: seq<Bytes>, k: nat, c: nat) {
    k < |lines| && (c < |lines[k]| || (k == |lines| - 1 && c == |lines[k]|))
  }

  lemma {:induction false} FullLines(lines: seq<Bytes>, k: nat)
    requires Proper(lines) && k < |lines|
    ensures Newlines(Joined(lines[..k])) == k && LastNewline(Joined(lines[..k])) == Start(lines, k) - 1
  {
    if k > 0 {
      FullLines(lines, k - 1);
      StartIsLength(lines, k - 1);
      JoinedSnoc(lines, k - 1);
      var line := lines[k - 1];
      var before := Joined(lines[..k - 1]) + line[..|line| - 1];
      WithoutNewline(Joined(lines[..k - 1]), line[..|line| - 1]);
      EndsHere(before);
      assert Joined(lines[..k]) == before + [NEWLINE];
    }
  }

  lemma EndsHere(a: Bytes)
    ensures Newlines(a + [NEWLINE]) == Newlines(a) + 1 && LastNewline(a + [NEWLINE]) == |a|
  {
    assert (a + [NEWLINE])[..|a|] == a;
  }

  lemma PrefixAt(lines: seq<Bytes>, k: nat, c: nat)
    requires k < |lines| && c <= |lines[k]|
    ensures Start(lines, k) + c <= |Joined(lines)|
    ensures Joined(lines)[..Start(lines, k) + c] == Joined(lines[..k]) + lines[k][..c]
  {
    StartIsLength(lines, k);
    JoinedThen(lines[..k], lines[k..]);
    assert lines == lines[..k] + lines[k..];
    var rest := Joined(lines[k..]);
    assert rest == lines[k] + Joined(lines[k..][1..]);
    assert (Joined(lines[..k]) + rest)[..Start(lines, k) + c] == Joined(lines[..k]) + rest[..c];
  }

  /** Column c + 1 of line k + 1. */
  lemma {:induction false} LineColumnOf(lines: seq<Bytes>, k: nat, c: nat)
    requires Proper(lines) && InLine(lines, k, c)
    ensures LineColumn(Joined(lines), Start(lines, k) + c) == Place(k + 1, c + 1)
  {
    PrefixAt(lines, k, c);
    FullLines(lines, k);
    WithoutNewline(Joined(lines[..k]), lines[k][..c]);
  }

  lemma {:induction false} Locate(lines: seq<Bytes>, n: nat, offset: nat) returns (k: nat, c: nat)
    requires n <= |lines| && lines != [] && offset <= |Joined(lines)|
    requires offset >= Start(lines, n)
    ensures InLine(lines, k, c) && offset == Start(lines, k) + c
    decreases |lines| - n
  {
    if n >= |lines| - 1 {
      WholeText(lines);
      k := |lines| - 1;
      c := offset - Start(lines, k);
    } else if offset < Start(lines, n + 1) {
      k, c := n, offset - Start(lines, n);
    } else {
      k, c := Locate(lines, n + 1, offset);
    }
  }

  /** The inverse of LineColumn. */
  function OffsetOf(sql: Bytes, p: Place): int {
    var lines := SplitAfter(sql);
    if 1 <= p.line <= |lines| then Start(lines, p.line - 1) + p.col - 1 else -1
  }

  lemma LineColumnInverse(sql: Bytes, offset: nat)
    requires offset <= |sql|
    ensures OffsetOf(sql, LineColumn(sql, offset)) == offset
  {
    var lines := SplitAfter(sql);
    SplitIsProper(sql);
    var k, c := Locate(lines, 0, offset);
    LineColumnOf(lines, k, c);
  }

  /** Different offsets are different places. */
  lemma LineColumnInjective(sql: Bytes, i: nat, j: nat)
    requires i <= |sql| && j <= |sql| && LineColumn(sql, i) == LineColumn(sql, j)
    ensures i == j
  {
    LineColumnInverse(sql, i);
    LineColumnInverse(sql, j);
  }

  // ---- stripped lines ----

  function StrippedLines(lines: seq<Bytes>, seen: bool): (out: seq<Bytes>)
    ensures |out| == |lines|
  {
    if lines == [] then []
    else [lines[0][PromptLength(lines[0], seen)..]] + StrippedLines(lines[1..], SeenAfter(lines[0], seen))
  }

  /** How much of line k is prompt. */
  function PromptOf(lines: seq<Bytes>, seen: bool, k: nat): nat
    requires k < |lines|
  {
    if k == 0 then PromptLength(lines[0], seen) else PromptOf(lines[1..], SeenAfter(lines[0], seen), k - 1)
  }

  lemma {:induction false} StrippedLine(lines: seq<Bytes>, seen: bool, k: nat)
    requires k < |lines|
    ensures PromptOf(lines, seen, k) <= |lines[k]| && NEWLINE !in lines[k][..PromptOf(lines, seen, k)]
    ensures StrippedLines(lines, seen)[k] == lines[k][PromptOf(lines, seen, k)..]
  {
    if k > 0 { StrippedLine(lines[1..], SeenAfter(lines[0], seen), k - 1); }
  }

  lemma EndedStays(line: Bytes, n: nat)
    requires Ended(line) && n <= |line| && NEWLINE !in line[..n]
    ensures Ended(line[n..])
  {
    assert line[|line| - 1] in line[..n] + line[n..] by { assert line == line[..n] + line[n..]; }
    assert line[n..][..|line| - n - 1] == line[n..|line| - 1];
  }

  /** Stripping removes no newline. */
  lemma {:induction false} StrippedIsProper(lines: seq<Bytes>, seen: bool)
    requires Proper(lines)
    ensures Proper(StrippedLines(lines, seen))
  {
    var out := StrippedLines(lines, seen);
    forall k | 0 <= k < |lines| - 1 ensures Ended(out[k]) {
      StrippedLine(lines, seen, k);
      EndedStays(lines[k], PromptOf(lines, seen, k));
    }
    StrippedLine(lines, seen, |lines| - 1);
  }

  lemma {:induction false} StripLinesJoins(st: Stripper, lines: seq<Bytes>)
    ensures StripLines(st, lines).buf == st.buf + Joined(StrippedLines(lines, st.seen))
    decreases |lines|
  {
    if lines != [] {
      var n := PromptLength(lines[0], st.seen);
      StripLinesJoins(StripLine(st, lines[0]), lines[1..]);
      var rest := StrippedLines(lines[1..], SeenAfter(lines[0], st.seen));
      assert StrippedLines(lines, st.seen)[1..] == rest;
    }
  }

  lemma StrippedText(sql: Bytes)
    ensures Strip(sql).stripped == Joined(StrippedLines(SplitAfter(sql), false))
  {
    StripLinesJoins(FRESH, SplitAfter(sql));
  }

  lemma {:induction false} StartCons(lines: seq<Bytes>, k: nat)
    requires 0 < k <= |lines|
    ensures Start(lines, k) == |lines[0]| + Start(lines[1..], k - 1)
  {
    if k > 1 { StartCons(lines, k - 1); }
  }

  lemma InTail(a: seq<int>, b: seq<int>, i: nat)
    requires i < |b|
    ensures (a + b)[|a| + i] == b[i]
  {
  }

  lemma KeptFirst(lines: seq<Bytes>, seen: bool, base: int, c: nat)
    requires lines != [] && c < |lines[0]| - PromptLength(lines[0], seen)
    ensures c < |Kept(lines, seen, base)| && Kept(lines, seen, base)[c] == base + PromptLength(lines[0], seen) + c
  {
  }

  lemma KeptNext(lines: seq<Bytes>, seen: bool, base: int, i: nat)
    requires lines != [] && i < |Kept(lines[1..], SeenAfter(lines[0], seen), base + |lines[0]|)|
    ensures var j := |lines[0]| - PromptLength(lines[0], seen) + i;
            && j < |Kept(lines, seen, base)|
            && Kept(lines, seen, base)[j] == Kept(lines[1..], SeenAfter(lines[0], seen), base + |lines[0]|)[i]
  {
    InTail(LineKept(lines[0], seen, base), Kept(lines[1..], SeenAfter(lines[0], seen), base + |lines[0]|), i);
  }

  /** Where the stripped line k starts. */
  function StrippedStart(lines: seq<Bytes>, seen: bool, k: nat): nat
    requires k <= |lines|
  {
    if k == 0 then 0
    else |lines[0]| - PromptLength(lines[0], seen) + StrippedStart(lines[1..], SeenAfter(lines[0], seen), k - 1)
  }

  lemma {:induction false} StrippedStartIs(lines: seq<Bytes>, seen: bool, k: nat)
    requires k <= |lines|
    ensures Start(StrippedLines(lines, seen), k) == StrippedStart(lines, seen, k)
    decreases k
  {
    if k > 0 {
      var out := StrippedLines(lines, seen);
      assert out[1..] == StrippedLines(lines[1..], SeenAfter(lines[0], seen));
      StartCons(out, k);
      StrippedStartIs(lines[1..], SeenAfter(lines[0], seen), k - 1);
    }
  }

  /** A byte of a stripped line comes from its line, past the prompt. */
  lemma {:induction false} KeptAt(lines: seq<Bytes>, seen: bool, base: int, k: nat, c: nat)
    requires k < |lines| && c + PromptOf(lines, seen, k) < |lines[k]|
    ensures var i := StrippedStart(lines, seen, k) + c;
            && i < |Kept(lines, seen, base)|
            && Kept(lines, seen, base)[i] == base + Start(lines, k) + PromptOf(lines, seen, k) + c
    decreases k
  {
    if k == 0 {
      KeptFirst(lines, seen, base, c);
    } else {
      KeptAt(lines[1..], SeenAfter(lines[0], seen), base + |lines[0]|, k - 1, c);
      KeptLater(lines, seen, base, k, c);
    }
  }

  lemma {:induction false} KeptLater(lines: seq<Bytes>, seen: bool, base: int, k: nat, c: nat)
    requires 0 < k < |lines|
    requires var tail, after, at := lines[1..], SeenAfter(lines[0], seen), base + |lines[0]|;
             var i := StrippedStart(tail, after, k - 1) + c;
             && i < |Kept(tail, after, at)|
             && Kept(tail, after, at)[i] == at + Start(tail, k - 1) + PromptOf(tail, after, k - 1) + c
    ensures var i := StrippedStart(lines, seen, k) + c;
            && i < |Kept(lines, seen, base)|
            && Kept(lines, seen, base)[i] == base + Start(lines, k) + PromptOf(lines, seen, k) + c
  {
    StartCons(lines, k);
    KeptNext(lines, seen, base, StrippedStart(lines[1..], SeenAfter(lines[0], seen), k - 1) + c);
  }

  /** Before the end of its line, a stripped place translates past the prompt. */
  lemma {:induction false} TranslateInside(sql: Bytes, lines: seq<Bytes>, k: nat, c: nat, offset: nat)
    requires lines == SplitAfter(sql) && k < |lines| && c < |StrippedLines(lines, false)[k]|
    requires offset == Start(StrippedLines(lines, false), k) + c
    ensures TranslateOf(Strip(sql), offset) == Start(lines, k) + PromptOf(lines, false, k) + c
  {
    StrippedLine(lines, false, k);
    StrippedStartIs(lines, false, k);
    KeptAt(lines, false, 0, k, c);
    TranslateKept(sql, offset);
  }

  /** And so does the end of the last line. */
  lemma {:induction false} TranslateLast(sql: Bytes, lines: seq<Bytes>, k: nat, offset: nat)
    requires lines == SplitAfter(sql) && k == |lines| - 1
    requires offset == Start(StrippedLines(lines, false), k) + |StrippedLines(lines, false)[k]|
    ensures TranslateOf(Strip(sql), offset) == Start(lines, k) + |lines[k]|
  {
    assert Start(lines, k) + |lines[k]| == |sql| by { TextEnd(sql, lines, k); }
    assert offset == |Strip(sql).stripped| by { StrippedEnd(sql, lines, k); }
    TranslateEnd(sql, offset);
  }

  lemma {:induction false} TextEnd(sql: Bytes, lines: seq<Bytes>, k: nat)
    requires lines == SplitAfter(sql) && k == |lines| - 1
    ensures Start(lines, k) + |lines[k]| == |sql|
  {
    WholeText(lines);
  }

  lemma {:induction false} StrippedEnd(sql: Bytes, lines: seq<Bytes>, k: nat)
    requires lines == SplitAfter(sql) && k == |lines| - 1
    ensures Start(StrippedLines(lines, false), k) + |StrippedLines(lines, false)[k]| == |Strip(sql).stripped|
  {
    WholeText(StrippedLines(lines, false));
    StrippedText(sql);
  }

  /** A place in a stripped line translates to the same line of the original, n bytes further right. */
  lemma {:induction false} TranslatePlace(sql: Bytes, lines: seq<Bytes>, k: nat, n: nat, c: nat, offset: nat)
    requires lines == SplitAfter(sql) && k < |lines| && n == PromptOf(lines, false, k)
    requires n + c < |lines[k]| || (k == |lines| - 1 && n + c == |lines[k]|)
    requires offset == Start(StrippedLines(lines, false), k) + c
    ensures TranslateOf(Strip(sql), offset) == Start(lines, k) + n + c
  {
    StrippedLine(lines, false, k);
    if n + c < |lines[k]| {
      TranslateInside(sql, lines, k, c, offset);
    } else {
      TranslateLast(sql, lines, k, offset);
    }
  }

  lemma TranslateKept(sql: Bytes, i: nat)
    requires i < |KeptOf(sql)|
    ensures TranslateOf(Strip(sql), i) == KeptOf(sql)[i]
  {
    TranslateIsExact(sql);
  }

  lemma {:induction false} TranslateEnd(sql: Bytes, offset: nat)
    requires offset == |Strip(sql).stripped|
    ensures TranslateOf(Strip(sql), offset) == |sql|
  {
    TranslateIsExact(sql);
  }

  lemma WholeText(lines: seq<Bytes>)
    requires lines != []
    ensures Start(lines, |lines| - 1) + |lines[|lines| - 1]| == |Joined(lines)|
  {
    StartIsLength(lines, |lines|);
    assert lines[..|lines|] == lines;
  }

  /** How much prompt the stripper removed from the original line with this number. */
  function PromptOnLine(sql: Bytes, line: int): nat {
    var lines := SplitAfter(sql);
    if 1 <= line <= |lines| then PromptOf(lines, false, line - 1) else 0
  }

  lemma {:induction false} StrippedPlace(text: Bytes, out: seq<Bytes>, offset: nat) returns (k: nat, c: nat)
    requires text == Joined(out) && Proper(out) && offset <= |text|
    ensures InLine(out, k, c) && offset == Start(out, k) + c
    ensures LineColumn(text, offset) == Place(k + 1, c + 1)
  {
    k, c := Locate(out, 0, offset);
    LineColumnOf(out, k, c);
  }

  lemma InOriginalLine(lines: seq<Bytes>, k: nat, c: nat)
    requires InLine(StrippedLines(lines, false), k, c)
    ensures InLine(lines, k, PromptOf(lines, false, k) + c)
  {
    StrippedLine(lines, false, k);
  }

  lemma {:induction false} OriginalPlace(sql: Bytes, lines: seq<Bytes>, k: nat, n: nat, c: nat, offset: nat,
                                         original: int)
    requires lines == SplitAfter(sql) && InLine(lines, k, n + c) && n == PromptOf(lines, false, k)
    requires offset == Start(StrippedLines(lines, false), k) + c && original == TranslateOf(Strip(sql), offset)
    ensures original >= 0 && LineColumn(sql, original) == Place(k + 1, n + c + 1)
  {
    SplitIsProper(sql);
    TranslatePlace(sql, lines, k, n, c, offset);
    PlaceInText(sql, lines, k, n + c, original);
  }

  lemma {:induction false} PlaceInText(sql: Bytes, lines: seq<Bytes>, k: nat, c: nat, offset: int)
    requires lines == SplitAfter(sql) && Proper(lines) && InLine(lines, k, c) && offset == Start(lines, k) + c
    ensures offset >= 0 && LineColumn(sql, offset) == Place(k + 1, c + 1)
  {
    LineColumnOf(lines, k, c);
  }

  /** Both offsets are at the same byte, or both at the end. */
  predicate SameByte(a: Bytes, i: nat, b: Bytes, j: int) {
    if i < |a| then 0 <= j < |b| && b[j] == a[i] else j == |b|
  }

  lemma AdjustKeepsByte(sql: Bytes, offset: nat)
    ensures SameByte(Strip(sql).stripped, offset, sql, TranslateOf(Strip(sql), offset))
  {
    TranslateIsExact(sql);
  }

  /**
   Adjusting a position keeps its line and its byte, and moves its column right by the
   prompt removed from that line.
   */
  lemma {:induction false} AdjustKeepsLine(sql: Bytes, offset: nat)
    requires offset <= |Strip(sql).stripped|
    ensures TranslateOf(Strip(sql), offset) >= 0
    ensures var pos := PositionFromByteOffset(Strip(sql).stripped, offset);
            var adjusted := AdjustPosition(pos, sql, Strip(sql));
            && adjusted.Some?
            && adjusted.value.place.line == pos.value.place.line
            && adjusted.value.place.col == pos.value.place.col + PromptOnLine(sql, pos.value.place.line)
            && SameByte(Strip(sql).stripped, offset, sql, adjusted.value.byteOffset)
            && adjusted.value.place == LineColumn(sql, adjusted.value.byteOffset)
  {
    AdjustKeepsByte(sql, offset);
    PlaceMoves(sql, offset);
  }

  lemma {:induction false} PlaceMoves(sql: Bytes, offset: nat)
    requires offset <= |Strip(sql).stripped|
    ensures TranslateOf(Strip(sql), offset) >= 0
    ensures var before := LineColumn(Strip(sql).stripped, offset);
            LineColumn(sql, TranslateOf(Strip(sql), offset))
            == Place(before.line, before.col + PromptOnLine(sql, before.line))
  {
    var lines := SplitAfter(sql);
    var k, c := PlaceBefore(sql, lines, offset);
    InOriginalLine(lines, k, c);
    OriginalPlace(sql, lines, k, PromptOf(lines, false, k), c, offset, TranslateOf(Strip(sql), offset));
  }

  /** Where the offset is in the stripped text. */
  lemma {:induction false} PlaceBefore(sql: Bytes, lines: seq<Bytes>, offset: nat) returns (k: nat, c: nat)
    requires lines == SplitAfter(sql) && offset <= |Strip(sql).stripped|
    ensures InLine(StrippedLines(lines, false), k, c) && offset == Start(StrippedLines(lines, false), k) + c
    ensures LineColumn(Strip(sql).stripped, offset) == Place(k + 1, c + 1)
  {
    SplitIsProper(sql);
    StrippedIsProper(lines, false);
    StrippedText(sql);
    k, c := StrippedPlace(Strip(sql).stripped, StrippedLines(lines, false), offset);
  }

  // ---- which prompts are removed ----

  /** Some line before line k has a primary prompt. */
  predicate SeenBefore(lines: seq<Bytes>, k: int)
    requires 0 <= k <= |lines|
  {
    exists j :: 0 <= j < k && PrimaryPrompt(lines[j]).Some?
  }

  /**
   How much of line k the program takes for a prompt: a primary prompt wherever there is
   one, a continuation prompt if some earlier line has a primary one.
   */
  function RemovedFrom(lines: seq<Bytes>, k: int): nat
    requires 0 <= k < |lines|
  {
    if PrimaryPrompt(lines[k]).Some? then PrimaryPrompt(lines[k]).value
    else if SeenBefore(lines, k) && ContinuationPrompt(lines[k]).Some? then ContinuationPrompt(lines[k]).value
    else 0
  }

  lemma {:induction false} SeenInTail(lines: seq<Bytes>, k: nat)
    requires 0 < k <= |lines|
    ensures SeenBefore(lines, k) <==> PrimaryPrompt(lines[0]).Some? || SeenBefore(lines[1..], k - 1)
  {
    var rest := lines[1..];
    if SeenBefore(rest, k - 1) {
      var j :| 0 <= j < k - 1 && PrimaryPrompt(rest[j]).Some?;
      assert PrimaryPrompt(lines[j + 1]).Some?;
    }
    if j :| 0 < j < k && PrimaryPrompt(lines[j]).Some? {
      assert PrimaryPrompt(rest[j - 1]).Some?;
    }
  }

  lemma {:induction false} PromptIs(lines: seq<Bytes>, seen: bool, k: nat)
    requires k < |lines|
    ensures PromptOf(lines, seen, k) == PromptLength(lines[k], seen || SeenBefore(lines, k))
  {
    if k > 0 {
      SeenInTail(lines, k);
      PromptIs(lines[1..], SeenAfter(lines[0], seen), k - 1);
    }
  }

  lemma {:induction false} InPromptOf(lines: seq<Bytes>, seen: bool, base: int, k: nat, c: nat)
    requires k < |lines| && c < |lines[k]|
    ensures InPrompt(lines, seen, base, base + Start(lines, k) + c) <==> c < PromptOf(lines, seen, k)
  {
    if k > 0 {
      StartCons(lines, k);
      InPromptOf(lines[1..], SeenAfter(lines[0], seen), base + |lines[0]|, k - 1, c);
    }
  }

  lemma {:induction false} DroppedIn(lines: seq<Bytes>, k: nat, c: nat)
    requires k < |lines| && c < |lines[k]|
    ensures Start(lines, k) + c in Kept(lines, false, 0) <==> c >= PromptOf(lines, false, k)
  {
    var at := Start(lines, k) + c;
    LineWithin(lines, k, c);
    InPromptOf(lines, false, 0, k, c);
    DroppedIffPrompt(lines, false, 0, at);
  }

  /** Byte c of line k is dropped exactly when it belongs to a prompt the program takes there. */
  lemma {:induction false} DroppedExactly(lines: seq<Bytes>, k: nat, c: nat)
    requires k < |lines| && c < |lines[k]|
    ensures Start(lines, k) + c in Kept(lines, false, 0) <==> c >= RemovedFrom(lines, k)
  {
    DroppedIn(lines, k, c);
    RemovedIs(lines, k);
  }

  lemma {:induction false} RemovedIs(lines: seq<Bytes>, k: nat)
    requires k < |lines|
    ensures PromptOf(lines, false, k) == RemovedFrom(lines, k)
  {
    PromptIs(lines, false, k);
  }

  lemma {:induction false} LineWithin(lines: seq<Bytes>, k: nat, c: nat)
    requires k < |lines| && c < |lines[k]|
    ensures Start(lines, k) + c < |Joined(lines)|
  {
    JoinedSnoc(lines, k);
    StartIsLength(lines, k);
    StartIsLength(lines, k + 1);
    JoinedThen(lines[..k + 1], lines[k + 1..]);
    assert lines[..k + 1] + lines[k + 1..] == lines;
  }

  /** What was removed from a line is what the program takes for its prompt. */
  lemma {:induction false} PromptOnLineIs(sql: Bytes, k: nat)
    requires k < |SplitAfter(sql)|
    ensures PromptOnLine(sql, k + 1) == RemovedFrom(SplitAfter(sql), k)
  {
    RemovedIs(SplitAfter(sql), k);
  }
}
