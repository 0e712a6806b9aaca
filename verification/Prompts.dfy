/** The two prompt patterns, as matchers and as the languages they stand for. */
module Prompts {

  import opened Options
  import opened Bytes

  // ---- character classes ----

  predicate Letter(c: Byte) {
    65 <= c <= 90 || 97 <= c <= 122
  }

  predicate UserFirst(c: Byte) {
    Letter(c) || c == 95
  }

  predicate UserRest(c: Byte) {
    UserFirst(c) || 48 <= c <= 57 || c == 46 || c == 45
  }

  predicate Blank(c: Byte) {
    c == 32 || c == 9
  }

  predicate White(c: Byte) {
    Blank(c) || c == 10 || c == 12 || c == 13
  }

  predicate Host(c: Byte) {
    !White(c) && c != GREATER
  }

  const AT: Byte := 64
  const GREATER: Byte := 62
  const MINUS: Byte := 45
  const SPACE: Byte := 32
  const NEWLINE: Byte := 10

  predicate All(s: Bytes, class_: Byte -> bool) {
    forall i :: 0 <= i < |s| ==> class_(s[i])
  }

  /** How many bytes from `from` on are in the class. */
  function Run(s: Bytes, from: nat, class_: Byte -> bool): (end: nat)
    requires from <= |s|
    ensures from <= end <= |s| && (forall i :: from <= i < end ==> class_(s[i]))
    ensures end < |s| ==> !class_(s[end])
    decreases |s| - from
  {
    if from < |s| && class_(s[from]) then Run(s, from + 1, class_) else from
  }

  lemma {:induction false} RunIs(s: Bytes, from: nat, class_: Byte -> bool, end: nat)
    requires from <= end <= |s| && (forall i :: from <= i < end ==> class_(s[i]))
    requires end < |s| ==> !class_(s[end])
    ensures Run(s, from, class_) == end
    decreases |s| - from
  {
    if from < end { RunIs(s, from + 1, class_, end); }
  }

  // ---- the matchers ----

  /** `> ?` at the place. */
  function Close(s: Bytes, at: nat): Option<nat>
    requires at <= |s|
  {
    if at < |s| && s[at] == GREATER then
      Some(if at + 1 < |s| && s[at + 1] == SPACE then at + 2 else at + 1)
    else None
  }

  /** `(?:[ \t]+[A-Za-z]+)?> ?` at the place. */
  function StateAndClose(s: Bytes, at: nat): Option<nat>
    requires at <= |s|
  {
    var word := Run(s, at, Blank);
    var end := Run(s, word, Letter);
    if at < word < end && Close(s, end).Some? then Close(s, end) else Close(s, at)
  }

  /** `^[A-Za-z_][A-Za-z0-9_.-]*@[^\s>]*(?:[ \t]+[A-Za-z]+)?> ?`: the length of the match. */
  function PrimaryPrompt(s: Bytes): Option<nat> {
    if s != [] && UserFirst(s[0]) then
      var user := Run(s, 1, UserRest);
      if user < |s| && s[user] == AT then StateAndClose(s, Run(s, user + 1, Host)) else None
    else None
  }

  /** `^[ \t]*-> ?`. */
  function ContinuationPrompt(s: Bytes): Option<nat> {
    var dash := Run(s, 0, Blank);
    if dash < |s| && s[dash] == MINUS then Close(s, dash + 1) else None
  }

  // ---- the languages ----

  datatype Primary = Primary(user: Bytes, host: Bytes, blanks: Bytes, state: Bytes, spaced: bool)

  predicate WellFormed(p: Primary) {
    && p.user != [] && UserFirst(p.user[0]) && All(p.user[1..], UserRest) && All(p.host, Host)
    && All(p.blanks, Blank) && All(p.state, Letter) && (p.blanks == [] <==> p.state == [])
  }

  function Closing(spaced: bool): Bytes {
    if spaced then [GREATER, SPACE] else [GREATER]
  }

  function PrimaryText(p: Primary): Bytes {
    p.user + [AT] + p.host + p.blanks + p.state + Closing(p.spaced)
  }

  ghost predicate IsPrimary(t: Bytes) {
    exists p :: WellFormed(p) && t == PrimaryText(p)
  }

  ghost predicate IsContinuation(t: Bytes) {
    exists pad, spaced :: All(pad, Blank) && t == pad + [MINUS] + Closing(spaced)
  }

  /** A match is the longest prefix in the language; no match means no prefix is. */
  ghost predicate LongestPrefix(s: Bytes, m: Option<nat>, lang: Bytes -> bool) {
    match m
    case None => forall n :: 0 <= n <= |s| ==> !lang(s[..n])
    case Some(k) => k <= |s| && lang(s[..k]) && forall n :: 0 <= n <= |s| && lang(s[..n]) ==> n <= k
  }

  lemma CloseMatches(s: Bytes, at: nat, spaced: bool, n: nat)
    requires at <= n <= |s| && s[at..n] == Closing(spaced)
    ensures Close(s, at).Some? && n <= Close(s, at).value
  {
    assert s[at..n][0] == s[at];
    if spaced { assert s[at..n][1] == s[at + 1]; }
  }

  lemma CloseIsClosing(s: Bytes, at: nat)
    requires at <= |s| && Close(s, at).Some?
    ensures var k := Close(s, at).value; at < k <= |s| && s[at..k] == Closing(k == at + 2)
  {
  }

  /** Where a well-formed prompt's parts lie in a line that starts with it. */
  lemma PartsLie(s: Bytes, p: Primary, n: nat)
    requires WellFormed(p) && n <= |s| && s[..n] == PrimaryText(p)
    ensures var u := |p.user|;
            var h := u + 1 + |p.host|;
            var b := h + |p.blanks|;
            var e := b + |p.state|;
            && e + |Closing(p.spaced)| == n
            && s[..u] == p.user && s[u] == AT && s[u + 1..h] == p.host && s[h..b] == p.blanks && s[b..e] == p.state
            && s[e..n] == Closing(p.spaced) && s[e] == GREATER
  {
    var t := PrimaryText(p);
    var u := |p.user|;
    var h := u + 1 + |p.host|;
    var b := h + |p.blanks|;
    var e := b + |p.state|;
    assert t[..u] == p.user && t[u] == AT && t[u + 1..h] == p.host && t[h..b] == p.blanks && t[b..e] == p.state
           && t[e..n] == Closing(p.spaced);
    assert t[e] == GREATER;
    assert forall i, j :: 0 <= i <= j <= n ==> s[i..j] == t[i..j];
  }

  /** The classes of a prompt's parts, place by place. */
  lemma PartsClasses(s: Bytes, p: Primary, u: nat, h: nat, b: nat, e: nat)
    requires WellFormed(p) && u == |p.user| && u < h <= b <= e < |s|
    requires s[..u] == p.user && s[u + 1..h] == p.host && s[h..b] == p.blanks && s[b..e] == p.state
    ensures (forall i :: 1 <= i < u ==> UserRest(s[i])) && (forall i :: u + 1 <= i < h ==> Host(s[i]))
    ensures (forall i :: h <= i < b ==> Blank(s[i])) && (forall i :: b <= i < e ==> Letter(s[i]))
    ensures UserFirst(s[0])
  {
    forall i | 1 <= i < u ensures UserRest(s[i]) { assert s[i] == p.user[1..][i - 1]; }
    forall i | u + 1 <= i < h ensures Host(s[i]) { assert s[i] == p.host[i - u - 1]; }
    forall i | h <= i < b ensures Blank(s[i]) { assert s[i] == p.blanks[i - h]; }
    forall i | b <= i < e ensures Letter(s[i]) { assert s[i] == p.state[i - b]; }
    assert s[0] == p.user[0];
  }

  /** The places where the parts of a prompt end. */
  lemma Located(s: Bytes, p: Primary, n: nat) returns (u: nat, h: nat, b: nat, e: nat)
    requires WellFormed(p) && n <= |s| && s[..n] == PrimaryText(p)
    ensures 0 < u < h <= b <= e < n && s[u] == AT && s[e] == GREATER && (h == b <==> b == e)
            && s[e..n] == Closing(p.spaced)
    ensures UserFirst(s[0]) && (forall i :: 1 <= i < u ==> UserRest(s[i]))
            && (forall i :: u + 1 <= i < h ==> Host(s[i]))
    ensures (forall i :: h <= i < b ==> Blank(s[i])) && (forall i :: b <= i < e ==> Letter(s[i]))
  {
    PartsLie(s, p, n);
    u := |p.user|;
    h := u + 1 + |p.host|;
    b := h + |p.blanks|;
    e := b + |p.state|;
    PartsClasses(s, p, u, h, b, e);
  }

  lemma PrimaryComplete(s: Bytes, p: Primary, n: nat)
    requires WellFormed(p) && n <= |s| && s[..n] == PrimaryText(p)
    ensures PrimaryPrompt(s).Some? && n <= PrimaryPrompt(s).value
  {
    var u, h, b, e := Located(s, p, n);
    assert !Host(s[h]) by { assert s[h] == GREATER || Blank(s[h]); }
    HostFound(s, u, h);
    StateFound(s, h, b, e, n, p.spaced);
  }

  lemma HostFound(s: Bytes, u: nat, h: nat)
    requires 0 < u < h < |s| && UserFirst(s[0]) && s[u] == AT && !Host(s[h])
    requires (forall i :: 1 <= i < u ==> UserRest(s[i])) && (forall i :: u + 1 <= i < h ==> Host(s[i]))
    ensures PrimaryPrompt(s) == StateAndClose(s, h)
  {
    RunIs(s, 1, UserRest, u);
    RunIs(s, u + 1, Host, h);
  }

  lemma StateFound(s: Bytes, h: nat, b: nat, e: nat, n: nat, spaced: bool)
    requires h <= b <= e < n <= |s| && s[e] == GREATER && (h == b <==> b == e) && s[e..n] == Closing(spaced)
    requires (forall i :: h <= i < b ==> Blank(s[i])) && (forall i :: b <= i < e ==> Letter(s[i]))
    ensures StateAndClose(s, h).Some? && n <= StateAndClose(s, h).value
  {
    RunIs(s, h, Blank, b);
    RunIs(s, b, Letter, e);
    CloseMatches(s, e, spaced, n);
  }

  lemma Cut(s: Bytes, i: nat, j: nat)
    requires i <= j <= |s|
    ensures s[..i] + s[i..j] == s[..j]
  {
  }

  /** Cutting a line at the matcher's places gives a well-formed prompt. */
  lemma Assembled(s: Bytes, u: nat, h: nat, b: nat, e: nat, k: nat, spaced: bool) returns (p: Primary)
    requires 0 < u < h <= b <= e < k <= |s| && s[u] == AT && (h == b <==> b == e)
    requires UserFirst(s[0]) && (forall i :: 1 <= i < u ==> UserRest(s[i]))
             && (forall i :: u + 1 <= i < h ==> Host(s[i]))
    requires (forall i :: h <= i < b ==> Blank(s[i])) && (forall i :: b <= i < e ==> Letter(s[i]))
    requires s[e..k] == Closing(spaced)
    ensures WellFormed(p) && PrimaryText(p) == s[..k]
  {
    p := Primary(s[..u], s[u + 1..h], s[h..b], s[b..e], spaced);
    assert p.user[1..] == s[1..u];
    assert s[u..u + 1] == [AT];
    Cut(s, u, u + 1);
    Cut(s, u + 1, h);
    Cut(s, h, b);
    Cut(s, b, e);
    Cut(s, e, k);
  }

  lemma PrimarySound(s: Bytes)
    requires PrimaryPrompt(s).Some?
    ensures PrimaryPrompt(s).value <= |s| && IsPrimary(s[..PrimaryPrompt(s).value])
  {
    var u := Run(s, 1, UserRest);
    var h := Run(s, u + 1, Host);
    var b := Run(s, h, Blank);
    var e := Run(s, b, Letter);
    var k := PrimaryPrompt(s).value;
    if h < b < e && Close(s, e).Some? {
      CloseIsClosing(s, e);
      var p := Assembled(s, u, h, b, e, k, k == e + 2);
    } else {
      CloseIsClosing(s, h);
      var p := Assembled(s, u, h, h, h, k, k == h + 2);
    }
  }

  /** The primary matcher finds the longest prefix that is a primary prompt. */
  lemma PrimaryExact(s: Bytes)
    ensures LongestPrefix(s, PrimaryPrompt(s), IsPrimary)
  {
    if PrimaryPrompt(s).Some? { PrimarySound(s); }
    forall n | 0 <= n <= |s| && IsPrimary(s[..n]) ensures PrimaryPrompt(s).Some? && n <= PrimaryPrompt(s).value {
      var p :| WellFormed(p) && s[..n] == PrimaryText(p);
      PrimaryComplete(s, p, n);
    }
  }

  lemma ContinuationComplete(s: Bytes, pad: Bytes, spaced: bool, n: nat)
    requires n <= |s| && All(pad, Blank) && s[..n] == pad + [MINUS] + Closing(spaced)
    ensures ContinuationPrompt(s).Some? && n <= ContinuationPrompt(s).value
  {
    var t := s[..n];
    assert t[|pad|] == MINUS && t[|pad| + 1..] == Closing(spaced);
    assert forall i :: 0 <= i < |pad| ==> t[i] == pad[i] == s[i];
    RunIs(s, 0, Blank, |pad|);
    assert s[|pad| + 1..n] == t[|pad| + 1..];
    CloseMatches(s, |pad| + 1, spaced, n);
  }

  lemma ContinuationSound(s: Bytes)
    requires ContinuationPrompt(s).Some?
    ensures ContinuationPrompt(s).value <= |s| && IsContinuation(s[..ContinuationPrompt(s).value])
  {
    var k := ContinuationPrompt(s).value;
    var dash := Run(s, 0, Blank);
    CloseIsClosing(s, dash + 1);
    assert s[..k] == s[..dash] + [MINUS] + Closing(k == dash + 3);
  }

  /** And so does the continuation matcher. */
  lemma ContinuationExact(s: Bytes)
    ensures LongestPrefix(s, ContinuationPrompt(s), IsContinuation)
  {
    if ContinuationPrompt(s).Some? { ContinuationSound(s); }
    forall n | 0 <= n <= |s| && IsContinuation(s[..n])
      ensures ContinuationPrompt(s).Some? && n <= ContinuationPrompt(s).value
    {
      var pad, spaced :| All(pad, Blank) && s[..n] == pad + [MINUS] + Closing(spaced);
      ContinuationComplete(s, pad, spaced, n);
    }
  }

  /** No prompt reaches past the end of its line, and every prompt has at least two bytes. */
  lemma PromptsStayInLine(s: Bytes)
    ensures PrimaryPrompt(s).Some? ==> 2 <= PrimaryPrompt(s).value <= |s| && NEWLINE !in s[..PrimaryPrompt(s).value]
    ensures ContinuationPrompt(s).Some? ==>
            2 <= ContinuationPrompt(s).value <= |s| && NEWLINE !in s[..ContinuationPrompt(s).value]
  {
    if PrimaryPrompt(s).Some? {
      PrimarySound(s);
      var k := PrimaryPrompt(s).value;
      var p :| WellFormed(p) && s[..k] == PrimaryText(p);
      NoNewline(p);
    }
    if ContinuationPrompt(s).Some? {
      ContinuationExact(s);
      var k := ContinuationPrompt(s).value;
      var pad, spaced :| All(pad, Blank) && s[..k] == pad + [MINUS] + Closing(spaced);
    }
  }

  lemma NoNewline(p: Primary)
    requires WellFormed(p)
    ensures NEWLINE !in PrimaryText(p)
  {
    assert p.user == [p.user[0]] + p.user[1..];
  }
}
