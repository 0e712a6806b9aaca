/** Stripping prompts, with a map from offsets in the stripped text to offsets in the original. */
module StripMap {

  import opened Options
  import opened Bytes
  import opened Prompts

  // ---- lines ----

  /** Where the first newline is, or the end. */
  function NewlineAt(s: Bytes): (n: nat)
    ensures n <= |s| && NEWLINE !in s[..n] && (n < |s| ==> s[n] == NEWLINE)
  {
    if s == [] || s[0] == NEWLINE then 0
    else
      var n := NewlineAt(s[1..]);
      assert s[..n + 1] == [s[0]] + s[1..][..n];
      n + 1
  }

  /** strings.SplitAfter(s, "\n"). */
  function SplitAfter(s: Bytes): (lines: seq<Bytes>)
    ensures lines != [] && Joined(lines) == s
    decreases |s|
  {
    var n := NewlineAt(s);
    if n == |s| then
      assert Joined([s]) == s + Joined([s][1..]);
      [s]
    else
      var rest := SplitAfter(s[n + 1..]);
      assert ([s[..n + 1]] + rest)[1..] == rest;
      [s[..n + 1]] + rest
  }

  function Joined(lines: seq<Bytes>): Bytes {
    if lines == [] then [] else lines[0] + Joined(lines[1..])
  }

  // ---- stripping ----

  /** Segment: from `start` in the stripped text on, `delta` bytes have been removed before. */
  datatype Segment = Segment(start: nat, delta: nat)

  datatype StripResult = StripResult(stripped: Bytes, removed: bool, segments: seq<Segment>)

  /** How many bytes of a line are prompt; continuation prompts count once a primary one was seen. */
  function PromptLength(line: Bytes, seen: bool): (n: nat)
    ensures n <= |line| && NEWLINE !in line[..n]
    ensures n > 0 <==> PrimaryPrompt(line).Some? || (seen && ContinuationPrompt(line).Some?)
  {
    PromptsStayInLine(line);
    if PrimaryPrompt(line).Some? then PrimaryPrompt(line).value
    else if seen && ContinuationPrompt(line).Some? then ContinuationPrompt(line).value
    else 0
  }

  function SeenAfter(line: Bytes, seen: bool): bool {
    seen || PrimaryPrompt(line).Some?
  }

  datatype Stripper = Stripper(buf: Bytes, segments: seq<Segment>, cum: nat, seen: bool)

  const FRESH := Stripper([], [], 0, false)

  function StripLine(st: Stripper, line: Bytes): Stripper {
    var n := PromptLength(line, st.seen);
    var segments := if n > 0 then st.segments + [Segment(|st.buf|, st.cum + n)] else st.segments;
    Stripper(st.buf + line[n..], segments, st.cum + n, SeenAfter(line, st.seen))
  }

  function StripLines(st: Stripper, lines: seq<Bytes>): Stripper
    decreases |lines|
  {
    if lines == [] then st else StripLines(StripLine(st, lines[0]), lines[1..])
  }

  function Strip(sql: Bytes): StripResult {
    var st := StripLines(FRESH, SplitAfter(sql));
    StripResult(st.buf, st.segments != [], st.segments)
  }

  lemma OneLine(st: Stripper, lines: seq<Bytes>, i: nat)
    requires i < |lines|
    ensures StripLines(st, lines[i..]) == StripLines(StripLine(st, lines[i]), lines[i + 1..])
  {
    assert lines[i..][1..] == lines[i + 1..];
  }

  function WithoutPrompt(st: Stripper, line: Bytes, n: nat, seen: bool): Stripper
    requires n <= |line|
  {
    Stripper(st.buf + line[n..], st.segments + [Segment(|st.buf|, st.cum + n)], st.cum + n, seen)
  }

  lemma StripLineCases(st: Stripper, line: Bytes)
    ensures PrimaryPrompt(line).Some? ==>
              PrimaryPrompt(line).value <= |line|
              && StripLine(st, line) == WithoutPrompt(st, line, PrimaryPrompt(line).value, true)
    ensures PrimaryPrompt(line).None? && st.seen && ContinuationPrompt(line).Some? ==>
              ContinuationPrompt(line).value <= |line|
              && StripLine(st, line) == WithoutPrompt(st, line, ContinuationPrompt(line).value, true)
    ensures PrimaryPrompt(line).None? && (!st.seen || ContinuationPrompt(line).None?) ==>
              StripLine(st, line) == st.(buf := st.buf + line)
  {
    PromptsStayInLine(line);
    assert line[0..] == line;
  }

  /** One turn of the loop over the lines, on its four variables. */
  method StripOne(line: Bytes, buf: Bytes, segments: seq<Segment>, cumDelta: nat, seenPrimary: bool)
      returns (buf': Bytes, segments': seq<Segment>, cumDelta': nat, seenPrimary': bool)
    ensures Stripper(buf', segments', cumDelta', seenPrimary')
            == StripLine(Stripper(buf, segments, cumDelta, seenPrimary), line)
  {
    StripLineCases(Stripper(buf, segments, cumDelta, seenPrimary), line);
    buf', segments', cumDelta', seenPrimary' := buf, segments, cumDelta, seenPrimary;
    var loc := PrimaryPrompt(line);
    if loc.Some? {
      seenPrimary' := true;
      cumDelta' := cumDelta + loc.value;
      segments' := segments + [Segment(|buf|, cumDelta')];
      buf' := buf + line[loc.value..];
      return;
    }
    if seenPrimary {
      loc := ContinuationPrompt(line);
      if loc.Some? {
        cumDelta' := cumDelta + loc.value;
        segments' := segments + [Segment(|buf|, cumDelta')];
        buf' := buf + line[loc.value..];
        return;
      }
    }
    buf' := buf + line;
  }

  method StripShellPromptsWithMap(sql: Bytes) returns (r: StripResult)
    ensures r == Strip(sql)
  {
    if sql == [] {
      NoPromptInNothing();
      return StripResult(sql, false, []);
    }
    var lines := SplitAfter(sql);
    var buf: Bytes, segments: seq<Segment>, cumDelta: nat, seenPrimary := [], [], 0, false;
    assert lines[0..] == lines;
    for i := 0 to |lines|
      invariant StripLines(Stripper(buf, segments, cumDelta, seenPrimary), lines[i..]) == StripLines(FRESH, lines)
    {
      OneLine(Stripper(buf, segments, cumDelta, seenPrimary), lines, i);
      buf, segments, cumDelta, seenPrimary := StripOne(lines[i], buf, segments, cumDelta, seenPrimary);
    }
    r := StripResult(buf, |segments| > 0, segments);
  }

  lemma NoPromptInNothing()
    ensures Strip([]) == StripResult([], false, [])
  {
    assert SplitAfter([]) == [[]];
    var empty: Bytes := [];
    assert PrimaryPrompt(empty).None?;
    assert StripLine(FRESH, empty) == FRESH;
    assert [empty][1..] == [];
  }

  // ---- translating ----

  /** The delta of the last segment that starts at or before the offset. */
  function DeltaAt(segments: seq<Segment>, offset: int): nat {
    if segments == [] then 0
    else if segments[|segments| - 1].start <= offset then segments[|segments| - 1].delta
    else DeltaAt(segments[..|segments| - 1], offset)
  }

  function Clamp(r: StripResult, offset: int): int {
    if offset < 0 then 0 else if offset > |r.stripped| then |r.stripped| else offset
  }

  function TranslateOf(r: StripResult, offset: int): int {
    Clamp(r, offset) + DeltaAt(r.segments, Clamp(r, offset))
  }

  predicate Sorted(segments: seq<Segment>) {
    forall i, j :: 0 <= i < j < |segments| ==> segments[i].start <= segments[j].start
  }

  lemma {:induction false} DeltaIs(segments: seq<Segment>, offset: int, n: nat)
    requires n <= |segments| && (forall i :: 0 <= i < n ==> segments[i].start <= offset)
    requires forall i :: n <= i < |segments| ==> segments[i].start > offset
    ensures DeltaAt(segments, offset) == if n == 0 then 0 else segments[n - 1].delta
  {
    if n < |segments| { DeltaIs(segments[..|segments| - 1], offset, n); }
  }

  /** Translate: binary search for the first segment that starts after the offset. */
  method Translate(r: StripResult, strippedOffset: int) returns (original: int)
    requires Sorted(r.segments)
    ensures original == TranslateOf(r, strippedOffset)
  {
    var offset := strippedOffset;
    if offset < 0 { offset := 0; }
    if offset > |r.stripped| { offset := |r.stripped|; }
    if |r.segments| == 0 { return offset; }
    var lo, hi := 0, |r.segments|;
    while lo < hi
      invariant 0 <= lo <= hi <= |r.segments|
      invariant forall i :: 0 <= i < lo ==> r.segments[i].start <= offset
      invariant forall i :: hi <= i < |r.segments| ==> r.segments[i].start > offset
    {
      var mid := (lo + hi) / 2;
      if r.segments[mid].start > offset { hi := mid; } else { lo := mid + 1; }
    }
    DeltaIs(r.segments, offset, lo);
    if lo == 0 { return offset; }
    return offset + r.segments[lo - 1].delta;
  }

  // ---- what is kept ----

  function Range(from: int, to: int): (s: seq<int>)
    requires from <= to
    ensures |s| == to - from && forall i :: 0 <= i < |s| ==> s[i] == from + i
  {
    seq(to - from, i => from + i)
  }

  function LineKept(line: Bytes, seen: bool, base: int): seq<int> {
    Range(base + PromptLength(line, seen), base + |line|)
  }

  /** The original offsets of the bytes that are not prompt, in order. */
  function Kept(lines: seq<Bytes>, seen: bool, base: int): seq<int>
    decreases |lines|
  {
    if lines == [] then []
    else LineKept(lines[0], seen, base) + Kept(lines[1..], SeenAfter(lines[0], seen), base + |lines[0]|)
  }

  /** The stripper's text and map agree with the offsets kept so far out of the `consumed` first bytes. */
  predicate Agrees(st: Stripper, sql: Bytes, kept: seq<int>, consumed: nat) {
    && |st.buf| == |kept| && |st.buf| + st.cum == consumed <= |sql|
    && (forall i :: 0 <= i < |kept| ==>
        kept[i] == i + DeltaAt(st.segments, i) && 0 <= kept[i] < consumed && st.buf[i] == sql[kept[i]])
    && (forall i :: 0 <= i < |st.segments| ==> st.segments[i].start <= |st.buf|) && Sorted(st.segments)
    && (if st.segments == [] then st.cum == 0 else st.segments[|st.segments| - 1].delta == st.cum > 0)
  }

  lemma AtEnd(st: Stripper, sql: Bytes, kept: seq<int>, consumed: nat, offset: int)
    requires Agrees(st, sql, kept, consumed) && offset >= |st.buf|
    ensures DeltaAt(st.segments, offset) == st.cum
  {
  }

  /** What follows the bytes kept before is the rest of the line. */
  lemma LineByte(st: Stripper, sql: Bytes, kept: seq<int>, consumed: nat, line: Bytes, i: nat)
    requires Agrees(st, sql, kept, consumed) && consumed + |line| <= |sql| && sql[consumed..consumed + |line|] == line
    requires |st.buf| <= i < |StripLine(st, line).buf|
    ensures var next, k := StripLine(st, line), consumed + PromptLength(line, st.seen) + i - |st.buf|;
            k == i + DeltaAt(next.segments, i) && 0 <= k < |sql| && next.buf[i] == sql[k]
  {
    var n := PromptLength(line, st.seen);
    AtEnd(st, sql, kept, consumed, i);
    assert StripLine(st, line).buf[i] == line[n..][i - |st.buf|] == line[n + i - |st.buf|];
    assert sql[consumed..consumed + |line|][n + i - |st.buf|] == sql[consumed + n + i - |st.buf|];
  }

  lemma SameBefore(st: Stripper, line: Bytes, i: nat)
    requires i < |st.buf|
    ensures StripLine(st, line).buf[i] == st.buf[i]
    ensures DeltaAt(StripLine(st, line).segments, i) == DeltaAt(st.segments, i)
  {
    var next := StripLine(st, line);
    if PromptLength(line, st.seen) > 0 { assert next.segments[..|next.segments| - 1] == st.segments; }
  }

  lemma LineAgrees(st: Stripper, sql: Bytes, kept: seq<int>, consumed: nat, line: Bytes)
    requires Agrees(st, sql, kept, consumed) && consumed + |line| <= |sql| && sql[consumed..consumed + |line|] == line
    ensures Agrees(StripLine(st, line), sql, kept + LineKept(line, st.seen, consumed), consumed + |line|)
  {
    var next := StripLine(st, line);
    var all := kept + LineKept(line, st.seen, consumed);
    forall i | 0 <= i < |all|
      ensures all[i] == i + DeltaAt(next.segments, i) && 0 <= all[i] < consumed + |line| && next.buf[i] == sql[all[i]]
    {
      if i < |kept| {
        SameBefore(st, line, i);
      } else {
        LineByte(st, sql, kept, consumed, line, i);
      }
    }
  }

  lemma FirstLine(sql: Bytes, consumed: nat, lines: seq<Bytes>)
    requires consumed <= |sql| && lines != [] && sql[consumed..] == Joined(lines)
    ensures var next := consumed + |lines[0]|;
            next <= |sql| && sql[consumed..next] == lines[0] && sql[next..] == Joined(lines[1..])
  {
    var rest := sql[consumed..];
    assert rest[..|lines[0]|] == lines[0] && rest[|lines[0]|..] == Joined(lines[1..]);
  }

  lemma Regroup(a: seq<int>, b: seq<int>, c: seq<int>)
    ensures a + b + c == a + (b + c)
  {
  }

  lemma OneMoreLine(st: Stripper, sql: Bytes, kept: seq<int>, consumed: nat, lines: seq<Bytes>)
    requires lines != [] && Agrees(st, sql, kept, consumed) && sql[consumed..] == Joined(lines)
    ensures var next := consumed + |lines[0]|;
            && next <= |sql| && sql[next..] == Joined(lines[1..])
            && Agrees(StripLine(st, lines[0]), sql, kept + LineKept(lines[0], st.seen, consumed), next)
            && kept + Kept(lines, st.seen, consumed)
               == kept + LineKept(lines[0], st.seen, consumed) + Kept(lines[1..], SeenAfter(lines[0], st.seen), next)
  {
    FirstLine(sql, consumed, lines);
    LineAgrees(st, sql, kept, consumed, lines[0]);
    Regroup(kept, LineKept(lines[0], st.seen, consumed),
            Kept(lines[1..], SeenAfter(lines[0], st.seen), consumed + |lines[0]|));
  }

  lemma {:induction false} LinesAgree(st: Stripper, sql: Bytes, kept: seq<int>, consumed: nat, lines: seq<Bytes>)
    requires Agrees(st, sql, kept, consumed) && sql[consumed..] == Joined(lines)
    ensures Agrees(StripLines(st, lines), sql, kept + Kept(lines, st.seen, consumed), |sql|)
    decreases |lines|
  {
    if lines == [] {
      assert kept + Kept(lines, st.seen, consumed) == kept;
    } else {
      OneMoreLine(st, sql, kept, consumed, lines);
      LinesAgree(StripLine(st, lines[0]), sql, kept + LineKept(lines[0], st.seen, consumed),
                 consumed + |lines[0]|, lines[1..]);
    }
  }

  function KeptOf(sql: Bytes): seq<int> {
    Kept(SplitAfter(sql), false, 0)
  }

  lemma StripAgrees(sql: Bytes)
    ensures Agrees(StripLines(FRESH, SplitAfter(sql)), sql, KeptOf(sql), |sql|)
  {
    assert sql[0..] == sql;
    LinesAgree(FRESH, sql, [], 0, SplitAfter(sql));
    assert [] + KeptOf(sql) == KeptOf(sql);
  }

  /**
   Every stripped byte is the original byte its offset translates to, in order, the end
   goes to the end, out-of-range offsets are clamped, and nothing but prompts is skipped.
   */
  lemma TranslateIsExact(sql: Bytes)
    ensures var r := Strip(sql);
            && Sorted(r.segments) && |r.stripped| == |KeptOf(sql)|
            && (forall i :: 0 <= i < |r.stripped| ==>
                  TranslateOf(r, i) == KeptOf(sql)[i] && 0 <= KeptOf(sql)[i] < |sql|
                  && r.stripped[i] == sql[KeptOf(sql)[i]])
            && (forall i :: i >= |r.stripped| ==> TranslateOf(r, i) == |sql|)
            && (forall i :: i < 0 ==> TranslateOf(r, i) == TranslateOf(r, 0))
  {
    StripAgrees(sql);
    var st := StripLines(FRESH, SplitAfter(sql));
    AtEnd(st, sql, KeptOf(sql), |sql|, |st.buf|);
  }

  lemma {:induction false} KeptWithin(lines: seq<Bytes>, seen: bool, base: int, i: nat)
    requires i < |Kept(lines, seen, base)|
    ensures base <= Kept(lines, seen, base)[i] < base + |Joined(lines)|
    decreases |lines|
  {
    var first := LineKept(lines[0], seen, base);
    if i >= |first| {
      KeptWithin(lines[1..], SeenAfter(lines[0], seen), base + |lines[0]|, i - |first|);
    }
  }

  lemma {:induction false} KeptIncreases(lines: seq<Bytes>, seen: bool, base: int, i: nat, j: nat)
    requires i < j < |Kept(lines, seen, base)|
    ensures Kept(lines, seen, base)[i] < Kept(lines, seen, base)[j]
    decreases |lines|
  {
    var first := LineKept(lines[0], seen, base);
    var rest := Kept(lines[1..], SeenAfter(lines[0], seen), base + |lines[0]|);
    assert Kept(lines, seen, base) == first + rest;
    if i >= |first| {
      KeptIncreases(lines[1..], SeenAfter(lines[0], seen), base + |lines[0]|, i - |first|, j - |first|);
    } else if j >= |first| {
      KeptWithin(lines[1..], SeenAfter(lines[0], seen), base + |lines[0]|, j - |first|);
    }
  }

  lemma TranslateIncreases(sql: Bytes, i: nat, j: nat)
    requires i < j <= |Strip(sql).stripped|
    ensures TranslateOf(Strip(sql), i) < TranslateOf(Strip(sql), j)
  {
    TranslateIsExact(sql);
    if j < |Strip(sql).stripped| { KeptIncreases(SplitAfter(sql), false, 0, i, j); }
  }

  /** The original offset lies in a prompt of its line. */
  predicate InPrompt(lines: seq<Bytes>, seen: bool, base: int, k: int)
    decreases |lines|
  {
    lines != [] &&
    if k < base + |lines[0]| then base <= k < base + PromptLength(lines[0], seen)
    else InPrompt(lines[1..], SeenAfter(lines[0], seen), base + |lines[0]|, k)
  }

  /** An original byte is dropped exactly when it is in a prompt. */
  lemma {:induction false} DroppedIffPrompt(lines: seq<Bytes>, seen: bool, base: int, k: int)
    requires base <= k < base + |Joined(lines)|
    ensures k in Kept(lines, seen, base) <==> !InPrompt(lines, seen, base, k)
    decreases |lines|
  {
    var n := PromptLength(lines[0], seen);
    var range := LineKept(lines[0], seen, base);
    var rest := Kept(lines[1..], SeenAfter(lines[0], seen), base + |lines[0]|);
    if k < base + |lines[0]| {
      if k >= base + n { assert range[k - base - n] == k; }
      if k in rest {
        var i :| 0 <= i < |rest| && rest[i] == k;
        KeptWithin(lines[1..], SeenAfter(lines[0], seen), base + |lines[0]|, i);
      }
    } else {
      DroppedIffPrompt(lines[1..], SeenAfter(lines[0], seen), base + |lines[0]|, k);
    }
  }

  /** `removed` says whether the text changed. */
  lemma RemovedIffChanged(sql: Bytes)
    ensures Strip(sql).removed <==> Strip(sql).stripped != sql
  {
    StripAgrees(sql);
    var st := StripLines(FRESH, SplitAfter(sql));
    if st.segments == [] {
      forall i | 0 <= i < |sql| ensures st.buf[i] == sql[i] {
        assert KeptOf(sql)[i] == i + DeltaAt(st.segments, i);
      }
    }
  }
}
