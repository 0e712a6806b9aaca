/** Choosing the backend for the requested release quarter, and running it in this process's place. */
module VersionRoute {

  import opened Options
  import opened Quarters
  import opened Text

  // ---- numbers ----

  const MAX_INT := 0x7FFF_FFFF_FFFF_FFFF

  predicate IsDigit(c: char) {
    '0' <= c <= '9'
  }

  function DigitOf(n: nat): (c: char)
    requires n < 10
    ensures IsDigit(c) && c as int - '0' as int == n
  {
    ('0' as int + n) as char
  }

  /** strconv.Itoa, for the numbers it is called with here. */
  function Itoa(n: nat): (s: string)
    ensures s != "" && forall i :: 0 <= i < |s| ==> IsDigit(s[i])
  {
    if n < 10 then [DigitOf(n)] else Itoa(n / 10) + [DigitOf(n % 10)]
  }

  function ValueOf(digits: string): nat
    requires forall i :: 0 <= i < |digits| ==> IsDigit(digits[i])
  {
    if digits == "" then 0
    else
      assert IsDigit(digits[|digits| - 1]);
      ValueOf(digits[..|digits| - 1]) * 10 + (digits[|digits| - 1] as int - '0' as int)
  }

  predicate AllDigits(s: string) {
    s != "" && forall i :: 0 <= i < |s| ==> IsDigit(s[i])
  }

  /** strconv.Atoi: an optional sign, digits, and the 64-bit range. */
  function Atoi(s: string): Option<int> {
    var signed := s != "" && (s[0] == '-' || s[0] == '+');
    var digits := if signed then s[1..] else s;
    if !AllDigits(digits) then None
    else
      var n := if signed && s[0] == '-' then 0 - ValueOf(digits) else ValueOf(digits);
      if -MAX_INT - 1 <= n <= MAX_INT then Some(n) else None
  }

  lemma {:induction false} ValueOfItoa(n: nat)
    ensures ValueOf(Itoa(n)) == n
  {
    if n >= 10 {
      var s := Itoa(n);
      assert s[..|s| - 1] == Itoa(n / 10);
      ValueOfItoa(n / 10);
    }
  }

  lemma AtoiItoa(n: nat)
    requires n <= MAX_INT
    ensures Atoi(Itoa(n)) == Some(n)
  {
    ValueOfItoa(n);
    assert !IsDigit('-') && !IsDigit('+');
  }

  // ---- quarters ----

  const ZERO := Quarter(0, 0)

  function MakeQuarter(year: int, q: int): Option<Quarter> {
    if year < 1 || q < 1 || q > 4 then None else Some(Quarter(year, q))
  }

  /** What the producers of quarters guarantee, with years that fit the machine's integers. */
  predicate Valid(q: Quarter) {
    1 <= q.year <= MAX_INT && 1 <= q.q <= 4
  }

  function Tag(q: Quarter): string
    requires Valid(q) || q == ZERO
  {
    if q == ZERO then "" else "v" + Itoa(q.year) + Itoa(q.q)
  }

  function BackendName(q: Quarter): string
    requires Valid(q) || q == ZERO
  {
    if q == ZERO then "crdb-sql" else "crdb-sql-" + Tag(q)
  }

  function TrimPrefix(s: string, prefix: string): string {
    if prefix <= s then s[|prefix|..] else s
  }

  function TrimSuffix(s: string, suffix: string): string {
    if |suffix| <= |s| && s[|s| - |suffix|..] == suffix then s[..|s| - |suffix|] else s
  }

  function ParseTag(tag: string): Option<Quarter> {
    var s := TrimPrefix(tag, "v");
    if |s| < 2 then None
    else match (Atoi(s[..|s| - 1]), Atoi(s[|s| - 1..]))
      case (Some(year), Some(q)) => MakeQuarter(year, q)
      case _ => None
  }

  /** strings.Split(s, "."). */
  function SplitDots(s: string): (parts: seq<string>)
    ensures parts != []
    decreases |s|
  {
    match IndexOf(s, '.')
    case None => [s]
    case Some(i) => [s[..i]] + SplitDots(s[i + 1..])
  }

  function ParseFromTarget(raw: string): Option<Quarter> {
    var parts := SplitDots(TrimPrefix(TrimSpace(raw), "v"));
    if |parts| < 2 then None
    else match (Atoi(parts[0]), Atoi(parts[1]))
      case (Some(year), Some(q)) => MakeQuarter(year, q)
      case _ => None
  }

  lemma ParsedIsValid(s: string)
    ensures ParseTag(s).Some? ==> Valid(ParseTag(s).value)
    ensures ParseFromTarget(s).Some? ==> Valid(ParseFromTarget(s).value)
  {
  }

  /** A tag parses to the quarter it was made from. */
  lemma TagParses(q: Quarter)
    requires Valid(q)
    ensures ParseTag(Tag(q)) == Some(q)
  {
    var year := Itoa(q.year);
    var s := year + Itoa(q.q);
    assert Itoa(q.q) == [DigitOf(q.q)];
    assert Tag(q) == "v" + s;
    assert TrimPrefix(Tag(q), "v") == s;
    assert s[..|s| - 1] == year && s[|s| - 1..] == Itoa(q.q);
    AtoiItoa(q.year);
    AtoiItoa(q.q);
  }

  /** Tags and backends look like this. */
  lemma BackendLooksLike()
    ensures Tag(Quarter(25, 4)) == "v254" && BackendName(Quarter(25, 4)) == "crdb-sql-v254"
    ensures BackendName(ZERO) == "crdb-sql"
  {
    assert Itoa(25) == Itoa(2) + [DigitOf(5)];
  }

  /** a and b between the first dots, whatever follows. */
  predicate DotPair(s: string, a: string, b: string, tail: string) {
    s == a + "." + b + tail && '.' !in a && '.' !in b && (tail == "" || tail[0] == '.')
  }

  lemma {:induction false} SplitsFirst(a: string, rest: string)
    requires '.' !in a
    ensures rest == "" ==> SplitDots(a + rest) == [a]
    ensures rest != "" && rest[0] == '.' ==> SplitDots(a + rest) == [a] + SplitDots(rest[1..])
  {
    if rest == "" {
      assert a + rest == a;
      assert IndexOf(a, '.').None?;
    } else if rest[0] == '.' {
      IndexOfFirst(a, rest[1..], '.');
      assert a + rest == a + ['.'] + rest[1..];
      assert (a + rest)[..|a|] == a && (a + rest)[|a| + 1..] == rest[1..];
    }
  }

  lemma PairSplits(s: string, a: string, b: string, tail: string)
    requires DotPair(s, a, b, tail)
    ensures |SplitDots(s)| >= 2 && SplitDots(s)[0] == a && SplitDots(s)[1] == b
  {
    assert s == a + ("." + (b + tail)) && ("." + (b + tail))[1..] == b + tail;
    SplitsFirst(a, "." + (b + tail));
    SplitsFirst(b, tail);
  }

  lemma SplitsPair(s: string) returns (tail: string)
    requires |SplitDots(s)| >= 2
    ensures DotPair(s, SplitDots(s)[0], SplitDots(s)[1], tail)
  {
    var i := IndexOf(s, '.').value;
    var rest := s[i + 1..];
    match IndexOf(rest, '.') {
      case None => tail := "";
      case Some(j) => tail := rest[j..];
    }
  }

  /** s, or s after one v. */
  predicate MaybeV(s: string, bare: string) {
    s == "v" + bare || (s == bare && !("v" <= s))
  }

  /** s with two numbers after a leading v or none, and the quarter they make. */
  ghost predicate Names(s: string, bare: string, a: string, b: string, tail: string, q: Quarter) {
    && MaybeV(s, bare) && DotPair(bare, a, b, tail)
    && Atoi(a) == Some(q.year) && Atoi(b) == Some(q.q) && 1 <= q.year && 1 <= q.q <= 4
  }

  /**
   Exactly these values name a quarter: with space around and a leading v or not, two
   decimal numbers in range with a dot between them, and after another dot anything.
   */
  lemma TargetExactly(raw: string, q: Quarter)
    ensures ParseFromTarget(raw) == Some(q) <==>
            exists s, bare, a, b, tail :: Pads(raw, s) && Names(s, bare, a, b, tail, q)
  {
    if ParseFromTarget(raw) == Some(q) { TargetNames(raw, q); }
    forall s, bare, a, b, tail | Pads(raw, s) && Names(s, bare, a, b, tail, q)
      ensures ParseFromTarget(raw) == Some(q)
    {
      OnlyPair(raw, s, bare, a, b, tail);
    }
  }

  lemma TargetNames(raw: string, q: Quarter)
    requires ParseFromTarget(raw) == Some(q)
    ensures exists s, bare, a, b, tail :: Pads(raw, s) && Names(s, bare, a, b, tail, q)
  {
    var s := TrimSpace(raw);
    var bare := TrimPrefix(s, "v");
    PadsTrims(raw, s);
    var tail := SplitsPair(bare);
    assert MaybeV(s, bare);
    assert Names(s, bare, SplitDots(bare)[0], SplitDots(bare)[1], tail, q);
  }

  lemma OnlyPair(raw: string, s: string, bare: string, a: string, b: string, tail: string)
    requires Pads(raw, s) && MaybeV(s, bare) && DotPair(bare, a, b, tail)
    ensures bare == TrimPrefix(TrimSpace(raw), "v")
    ensures |SplitDots(bare)| >= 2 && SplitDots(bare)[0] == a && SplitDots(bare)[1] == b
  {
    PadsTrims(raw, s);
    assert "v" <= s ==> s[1..] == bare;
    PairSplits(bare, a, b, tail);
  }

  /** A quarter written out as a flag's value. */
  function Written(year: string, quarter: string, v: bool, tail: string): string {
    var bare := year + "." + quarter + tail;
    if v then "v" + bare else bare
  }

  /** So a value written out from a quarter names it. */
  lemma TargetParses(q: Quarter, left: string, v: bool, tail: string, right: string)
    requires Valid(q) && AllSpace(left) && AllSpace(right) && Trimmed(tail) && (tail == "" || tail[0] == '.')
    ensures ParseFromTarget(left + Written(Itoa(q.year), Itoa(q.q), v, tail) + right) == Some(q)
  {
    AtoiItoa(q.year);
    AtoiItoa(q.q);
    WrittenParses(q, Itoa(q.year), Itoa(q.q), left, v, tail, right);
  }

  lemma WrittenParses(q: Quarter, year: string, quarter: string, left: string, v: bool, tail: string, right: string)
    requires AllSpace(left) && AllSpace(right) && Trimmed(tail) && (tail == "" || tail[0] == '.')
    requires AllDigits(year) && AllDigits(quarter) && Atoi(year) == Some(q.year) && Atoi(quarter) == Some(q.q)
    requires Valid(q)
    ensures ParseFromTarget(left + Written(year, quarter, v, tail) + right) == Some(q)
  {
    var bare, s := year + "." + quarter + tail, Written(year, quarter, v, tail);
    DigitsAreNoSpace(year);
    DigitsAreNoSpace(quarter);
    assert bare[0] == year[0] && bare[|bare| - 1] == if tail == "" then quarter[|quarter| - 1] else tail[|tail| - 1];
    assert Trimmed(s);
    assert Pads(left + s + right, s) && Names(s, bare, year, quarter, tail, q);
    TargetExactly(left + s + right, q);
  }

  lemma DigitsAreNoSpace(s: string)
    requires forall i :: 0 <= i < |s| ==> IsDigit(s[i])
    ensures forall i :: 0 <= i < |s| ==> !IsSpace(s[i]) && s[i] != '.' && s[i] != 'v'
  {
  }

  /** Different quarters have different backends. */
  lemma BackendNamesDiffer(q: Quarter, q': Quarter)
    requires Valid(q) && Valid(q') && BackendName(q) == BackendName(q')
    ensures q == q'
  {
    assert BackendName(q)[|"crdb-sql-"|..] == Tag(q);
    assert BackendName(q')[|"crdb-sql-"|..] == Tag(q');
    TagParses(q);
    TagParses(q');
  }

  // ---- this binary ----

  /** The running program: its file's base name, what it was built from, its arguments. */
  datatype Process = Process(base: string, stamp: string, fork: Option<string>, args: seq<string>)

  function QuarterFromExecutable(base: string): Option<Quarter> {
    var name := TrimSuffix(base, ".exe");
    if "crdb-sql-" <= name then ParseTag(TrimPrefix(name, "crdb-sql-")) else None
  }

  /** Up to the first - or +. */
  function BeforePatch(s: string): string {
    if s == "" || s[0] == '-' || s[0] == '+' then "" else [s[0]] + BeforePatch(s[1..])
  }

  function ParseForkVersion(ver: string): Option<Quarter> {
    var parts := SplitDots(TrimPrefix(ver, "v"));
    if |parts| < 3 then None
    else match (Atoi(parts[1]), Atoi(BeforePatch(parts[2])))
      case (Some(year), Some(q)) => MakeQuarter(year, q)
      case _ => None
  }

  function Built(p: Process): Option<Quarter> {
    match QuarterFromExecutable(p.base)
    case Some(q) => Some(q)
    case None =>
      if p.stamp != "" then ParseTag(p.stamp)
      else match p.fork
        case None => None
        case Some(ver) => ParseForkVersion(ver)
  }

  predicate StampBroken(p: Process) {
    p.stamp != "" && ParseTag(p.stamp).None?
  }

  /** The filename decides, whatever the binary was built from. */
  lemma BackendKnowsItself(p: Process, q: Quarter)
    requires Valid(q) && (p.base == BackendName(q) || p.base == BackendName(q) + ".exe")
    ensures Built(p) == Some(q)
  {
    var name := BackendName(q);
    TagParses(q);
    assert name[|"crdb-sql-"|..] == Tag(q);
    NameKeepsSuffix(q);
    assert (name + ".exe")[|name + ".exe"| - |".exe"|..] == ".exe" && (name + ".exe")[..|name|] == name;
  }

  /** A backend's name ends in a digit. */
  lemma NameKeepsSuffix(q: Quarter)
    requires Valid(q)
    ensures TrimSuffix(BackendName(q), ".exe") == BackendName(q)
  {
    var name := BackendName(q);
    assert name[|name| - 1] == Itoa(q.q)[0];
    assert |".exe"| <= |name| ==> name[|name| - |".exe"|..][|".exe"| - 1] == name[|name| - 1];
  }

  function WrittenFork(year: string, quarter: string, suffix: string): string {
    "v0" + ("." + (year + ("." + (quarter + suffix))))
  }

  /** The fork's version v0.Y.Q, with a suffix of its own or not, names the quarter. */
  lemma {:induction false} ForkParses(q: Quarter, suffix: string)
    requires Valid(q) && (suffix == "" || suffix[0] in {'.', '-', '+'})
    ensures ParseForkVersion(WrittenFork(Itoa(q.year), Itoa(q.q), suffix)) == Some(q)
  {
    AtoiItoa(q.year);
    AtoiItoa(q.q);
    ForkSplits(Itoa(q.year), Itoa(q.q), suffix);
    ForkQuarter(Itoa(q.q), suffix);
  }

  lemma {:induction false} ForkSplits(year: string, quarter: string, suffix: string)
    requires AllDigits(year)
    ensures var parts := SplitDots(TrimPrefix(WrittenFork(year, quarter, suffix), "v"));
            |parts| >= 3 && parts[1] == year && parts[2] == SplitDots(quarter + suffix)[0]
  {
    DigitsAreNoSpace(year);
    TailSplits("0", year + ("." + (quarter + suffix)));
    TailSplits(year, quarter + suffix);
    NoV(year + ("." + (quarter + suffix)));
  }

  lemma NoV(rest: string)
    ensures TrimPrefix("v0" + ("." + rest), "v") == "0" + ("." + rest)
  {
  }

  lemma TailSplits(a: string, rest: string)
    requires '.' !in a
    ensures SplitDots(a + ("." + rest)) == [a] + SplitDots(rest)
  {
    assert ("." + rest)[1..] == rest;
    SplitsFirst(a, "." + rest);
  }

  lemma ForkQuarter(quarter: string, suffix: string)
    requires AllDigits(quarter) && (suffix == "" || suffix[0] in {'.', '-', '+'})
    ensures BeforePatch(SplitDots(quarter + suffix)[0]) == quarter
  {
    var s := quarter + suffix;
    DigitsAreNoSpace(quarter);
    var first := SplitDots(s)[0];
    assert quarter <= first <= s by {
      match IndexOf(s, '.') {
        case None =>
        case Some(i) =>
          assert forall k :: 0 <= k < |quarter| ==> s[k] == quarter[k];
          assert s[..i][..|quarter|] == quarter;
      }
    }
    assert first == quarter + first[|quarter|..];
    assert |first| > |quarter| ==> first[|quarter|] == suffix[0] && suffix[0] != '.';
    BeforePatchCuts(quarter, first[|quarter|..]);
  }

  lemma {:induction false} BeforePatchCuts(digits: string, rest: string)
    requires forall i :: 0 <= i < |digits| ==> IsDigit(digits[i])
    requires rest == "" || rest[0] == '-' || rest[0] == '+'
    ensures BeforePatch(digits + rest) == digits
  {
    if digits == "" {
      assert digits + rest == rest;
    } else {
      assert (digits + rest)[1..] == digits[1..] + rest;
      BeforePatchCuts(digits[1..], rest);
    }
  }

  /** A file not named after a quarter: the stamp decides, a bad one too, and only without one the fork. */
  lemma BuiltOtherwise(p: Process, q: Quarter, suffix: string)
    requires Valid(q) && QuarterFromExecutable(p.base).None? && (suffix == "" || suffix[0] in {'.', '-', '+'})
    ensures p.stamp == Tag(q) ==> Built(p) == Some(q) && !StampBroken(p)
    ensures StampBroken(p) ==> Built(p) == None
    ensures p.stamp == "" && p.fork == Some(WrittenFork(Itoa(q.year), Itoa(q.q), suffix)) ==> Built(p) == Some(q)
    ensures p.stamp == "" && p.fork == None ==> Built(p) == None
  {
    TagParses(q);
    ForkParses(q, suffix);
  }

  // ---- the flag ----

  const FLAG := "--target-version"
  const FLAG_EQ := "--target-version="

  /** From argument i on. */
  function ExtractFrom(args: seq<string>, i: nat): Option<string>
    requires i <= |args|
    decreases |args| - i
  {
    if i == |args| || args[i] == "--" then None
    else if args[i] == FLAG then Some(if i + 1 < |args| then args[i + 1] else "")
    else if FLAG_EQ <= args[i] then Some(args[i][|FLAG_EQ|..])
    else ExtractFrom(args, i + 1)
  }

  function TargetVersion(args: seq<string>): Option<string> {
    if args == [] then None else ExtractFrom(args, 1)
  }

  method ExtractTargetVersion(args: seq<string>) returns (value: Option<string>)
    ensures value == TargetVersion(args)
  {
    if |args| == 0 { return None; }
    for i := 1 to |args|
      invariant ExtractFrom(args, 1) == ExtractFrom(args, i)
    {
      var a := args[i];
      if a == "--" { return None; }
      if a == FLAG {
        if i + 1 < |args| { return Some(args[i + 1]); }
        return Some("");
      }
      if FLAG_EQ <= a { return Some(TrimPrefix(a, FLAG_EQ)); }
    }
    return None;
  }

  /** Argument i is the flag, and gives it this value. */
  predicate GivesValue(args: seq<string>, i: int, value: string) {
    && 1 <= i < |args|
    && (|| args[i] == "--target-version=" + value
        || (args[i] == "--target-version" && value == if i + 1 < |args| then args[i + 1] else ""))
  }

  predicate IsFlag(arg: string) {
    arg == "--target-version" || "--target-version=" <= arg
  }

  /** The value found is that of the first flag, if the end-of-options marker is not before it. */
  lemma ExtractsFirst(args: seq<string>, value: string)
    ensures TargetVersion(args) == Some(value) <==>
            exists i {:trigger GivesValue(args, i, value)} ::
              GivesValue(args, i, value) && forall j :: 1 <= j < i ==> args[j] != "--" && !IsFlag(args[j])
  {
    if args != [] { ExtractsFrom(args, 1, value); }
  }

  lemma {:induction false} ExtractsFrom(args: seq<string>, n: nat, value: string)
    requires 1 <= n <= |args| && forall j :: 1 <= j < n ==> args[j] != "--" && !IsFlag(args[j])
    ensures ExtractFrom(args, n) == Some(value) <==>
            exists i {:trigger GivesValue(args, i, value)} ::
              GivesValue(args, i, value) && forall j :: 1 <= j < i ==> args[j] != "--" && !IsFlag(args[j])
    decreases |args| - n
  {
    if n < |args| {
      var a := args[n];
      if a == "--" || IsFlag(a) {
        assert FLAG_EQ <= a ==> a == "--target-version=" + a[|FLAG_EQ|..];
        assert (FLAG_EQ + value)[|FLAG_EQ|..] == value;
        if ExtractFrom(args, n) == Some(value) { assert GivesValue(args, n, value); }
        forall i | GivesValue(args, i, value) && forall j :: 1 <= j < i ==> args[j] != "--" && !IsFlag(args[j])
          ensures i == n && ExtractFrom(args, n) == Some(value)
        {
          assert IsFlag(args[i]);
        }
      } else {
        ExtractsFrom(args, n + 1, value);
      }
    }
  }

  /** The program's own name and everything after the end-of-options marker play no part. */
  lemma {:induction false} OnlyOptionsCount(args: seq<string>, args': seq<string>, i: nat, marker: nat)
    requires i <= marker < |args| && marker < |args'| && args[marker] == "--"
    requires forall j :: i <= j <= marker ==> args[j] == args'[j]
    ensures ExtractFrom(args, i) == ExtractFrom(args', i)
    decreases marker - i
  {
    if i < marker && args[i] != "--" && args[i] != FLAG && !(FLAG_EQ <= args[i]) {
      OnlyOptionsCount(args, args', i + 1, marker);
    }
  }

  lemma {:induction false} SameTail(args: seq<string>, args': seq<string>, i: nat)
    requires 1 <= i <= |args| && |args'| == |args| && args[1..] == args'[1..]
    ensures ExtractFrom(args, i) == ExtractFrom(args', i)
    decreases |args| - i
  {
    if i < |args| {
      assert args[i] == args[1..][i - 1] == args'[i];
      if i + 1 < |args| { assert args[i + 1] == args[1..][i] == args'[i + 1]; }
      SameTail(args, args', i + 1);
    }
  }

  // ---- routing ----

  /** What is on disk: the base name of the backend found for a quarter. */
  datatype Installed = Installed(find: Quarter -> Option<string>)

  /** FindBackend only returns files named after the quarter, with the platform's suffix. */
  ghost predicate FindsByName(disk: Installed) {
    forall q {:trigger disk.find(q)} :: Valid(q) && disk.find(q).Some? ==>
      disk.find(q).value == BackendName(q) || disk.find(q).value == BackendName(q) + ".exe"
  }

  datatype Effect =
    | StampWarning
    | MissingBackend(want: Quarter)
    | ExecFailure(want: Quarter)
    | Exec(base: string, args: seq<string>)
    | Exit(code: int)

  /** Whether the process goes on itself, is replaced by another binary, or ends. */
  datatype Outcome = Proceed | Replaced(base: string) | Exited

  function Wanted(p: Process): Option<Quarter> {
    match TargetVersion(p.args)
    case None => None
    case Some(raw) => ParseFromTarget(raw)
  }

  function OutcomeOf(p: Process, disk: Installed, execWorks: bool): Outcome {
    match Wanted(p)
    case None => Proceed
    case Some(want) =>
      if Built(p) == Some(want) then Proceed
      else match disk.find(want)
        case None => Exited
        case Some(base) => if execWorks then Replaced(base) else Exited
  }

  function Warning(p: Process): seq<Effect> {
    if StampBroken(p) then [StampWarning] else []
  }

  /** What each outcome looks like from outside. */
  function EffectsOf(p: Process, disk: Installed, execWorks: bool): seq<Effect> {
    Warning(p) +
    match OutcomeOf(p, disk, execWorks)
    case Proceed => []
    case Replaced(base) => [Exec(base, p.args)]
    case Exited =>
      var want := Wanted(p).value;
      [if disk.find(want).None? then MissingBackend(want) else ExecFailure(want), Exit(2)]
  }

  /** maybeReexec, as the list of what it does. */
  method MaybeReexec(p: Process, disk: Installed, execWorks: bool) returns (effects: seq<Effect>)
    ensures effects == EffectsOf(p, disk, execWorks)
  {
    effects := [];
    var stampBroken := StampBroken(p);
    if stampBroken { effects := effects + [StampWarning]; }
    assert effects == Warning(p);
    var rawTarget := ExtractTargetVersion(p.args);
    if rawTarget.None? { return; }
    var want := ParseFromTarget(rawTarget.value);
    if want.None? { return; }
    var built := Built(p);
    if built.Some? && want.value.year == built.value.year && want.value.q == built.value.q { return; }
    var path := disk.find(want.value);
    if path.None? {
      effects := effects + [MissingBackend(want.value), Exit(2)];
      return;
    }
    if execWorks {
      effects := effects + [Exec(path.value, p.args)];
      return;
    }
    effects := effects + [ExecFailure(want.value), Exit(2)];
  }

  /**
   Asked for a quarter it was not built for, the program runs that quarter's backend with
   its own arguments, and ends with status 2 if there is none or it cannot be run; asked
   for its own, for none, or for something that is no quarter, it goes on.
   */
  lemma RoutesByQuarter(p: Process, disk: Installed, works: bool, raw: string, q: Quarter)
    ensures TargetVersion(p.args) == Some(raw) && ParseFromTarget(raw) == Some(q) && Built(p) != Some(q) ==>
              EffectsOf(p, disk, works)
              == (if StampBroken(p) then [StampWarning] else [])
                 + if disk.find(q).None? then [MissingBackend(q), Exit(2)]
                   else if works then [Exec(disk.find(q).value, p.args)] else [ExecFailure(q), Exit(2)]
    ensures TargetVersion(p.args).None? || (TargetVersion(p.args) == Some(raw) && ParseFromTarget(raw).None?)
            || (TargetVersion(p.args) == Some(raw) && ParseFromTarget(raw) == Built(p)) ==>
              EffectsOf(p, disk, works) == if StampBroken(p) then [StampWarning] else []
  {
  }

  /** p' is the process that p was replaced by: the chosen file, given the same arguments. */
  predicate ReexecsInto(p: Process, disk: Installed, p': Process) {
    && OutcomeOf(p, disk, true) == Replaced(p'.base)
    && |p'.args| == |p.args| && (p.args != [] ==> p'.args[1..] == p.args[1..])
  }

  ghost predicate IsChain(ps: seq<Process>, disk: Installed) {
    ps != [] && forall i :: 0 <= i < |ps| - 1 ==> ReexecsInto(ps[i], disk, ps[i + 1])
  }

  /** The backend chosen by its filename takes itself for the quarter wanted, and goes on. */
  lemma BackendProceeds(p: Process, disk: Installed, p': Process)
    requires FindsByName(disk) && ReexecsInto(p, disk, p')
    ensures Wanted(p') == Wanted(p) && Wanted(p).Some? && Built(p') == Wanted(p) && Built(p) != Wanted(p)
    ensures forall works :: OutcomeOf(p', disk, works) == Proceed
  {
    var want := Wanted(p).value;
    ParsedIsValid(TargetVersion(p.args).value);
    SameTail(p.args, p'.args, 1);
    BackendKnowsItself(p', want);
  }

  /** A chain of re-execs has at most one link, and ends in the wanted backend. */
  lemma ChainsAreShort(ps: seq<Process>, disk: Installed)
    requires FindsByName(disk) && IsChain(ps, disk)
    ensures |ps| <= 2
    ensures |ps| == 2 ==> Built(ps[1]) == Wanted(ps[0])
  {
    if |ps| >= 2 {
      assert ReexecsInto(ps[0], disk, ps[0 + 1]);
      BackendProceeds(ps[0], disk, ps[1]);
      LinkNeedsReplacement(ps, disk);
    }
  }

  lemma LinkNeedsReplacement(ps: seq<Process>, disk: Installed)
    requires IsChain(ps, disk)
    ensures |ps| > 2 ==> OutcomeOf(ps[1], disk, true).Replaced?
  {
    assert |ps| > 2 ==> ReexecsInto(ps[1], disk, ps[1 + 1]);
  }
}
