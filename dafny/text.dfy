/** String helpers shared by the models: prefix/suffix tests, substring search,
    splitting on a separator (the semantics of Rust's `str::split` and of
    JavaScript's `String.prototype.split` for a non-empty separator), trimming
    with the JavaScript or the Rust whitespace set, ASCII case mapping, Rust's
    `str::lines`, and decimal digits. */
module Text {
  import opened Wrappers

  /** Regrouping a concatenation, as a fact of its own so that a proof can
      use it without the solver searching for it. */
  lemma AppendAssoc<T>(a: seq<T>, b: seq<T>, c: seq<T>)
    ensures a + (b + c) == (a + b) + c
  {
  }

  predicate IsPrefix(p: string, s: string) {
    |p| <= |s| && s[..|p|] == p
  }

  predicate IsSuffix(suf: string, s: string) {
    |suf| <= |s| && s[|s| - |suf|..] == suf
  }

  /** `sub` occurs in `s` starting at index `i`. */
  predicate OccursAt(s: string, sub: string, i: nat) {
    i + |sub| <= |s| && s[i..i + |sub|] == sub
  }

  /** Index of the leftmost occurrence of `sub` in `s` (`str::find`, `indexOf`). */
  function IndexOf(s: string, sub: string): (r: Option<nat>)
    ensures r.Some? ==> OccursAt(s, sub, r.value)
    ensures r.Some? ==> forall i: nat :: i < r.value ==> !OccursAt(s, sub, i)
    ensures r.None? ==> forall i: nat :: !OccursAt(s, sub, i)
    decreases |s|
  {
    if |s| < |sub| then None
    else if s[..|sub|] == sub then Some(0)
    else
      match IndexOf(s[1..], sub)
      case None =>
        assert forall i: nat :: 0 < i ==> OccursAt(s, sub, i) == OccursAt(s[1..], sub, i - 1);
        None
      case Some(j) =>
        assert forall i: nat :: 0 < i ==> OccursAt(s, sub, i) == OccursAt(s[1..], sub, i - 1);
        Some(j + 1)
  }

  predicate Contains(s: string, sub: string) {
    IndexOf(s, sub).Some?
  }

  /** The leftmost occurrence is the one with no occurrence before it. */
  lemma FirstOccurrence(s: string, sub: string, k: nat)
    requires OccursAt(s, sub, k)
    requires forall i: nat :: i < k ==> !OccursAt(s, sub, i)
    ensures IndexOf(s, sub) == Some(k)
  {
  }

  lemma ContainsAt(s: string, sub: string, i: nat)
    requires OccursAt(s, sub, i)
    ensures Contains(s, sub)
  {
  }

  /** A substring occurrence inside a slice is an occurrence in the whole string. */
  lemma ContainsSlice(s: string, lo: nat, hi: nat, sub: string)
    requires lo <= hi <= |s|
    requires Contains(s[lo..hi], sub)
    ensures Contains(s, sub)
  {
    var i := IndexOf(s[lo..hi], sub).value;
    assert OccursAt(s[lo..hi], sub, i);
    assert s[lo..hi][i..i + |sub|] == s[lo + i..lo + i + |sub|];
    ContainsAt(s, sub, lo + i);
  }

  /** The pieces of `s` between the leftmost non-overlapping occurrences of `sep`;
      empty pieces are kept, and a string without `sep` gives one piece. */
  function Split(s: string, sep: string): (r: seq<string>)
    requires |sep| > 0
    ensures |r| >= 1
    decreases |s|
  {
    match IndexOf(s, sep)
    case None => [s]
    case Some(i) => [s[..i]] + Split(s[i + |sep|..], sep)
  }

  function Join(parts: seq<string>, sep: string): string {
    if |parts| == 0 then ""
    else if |parts| == 1 then parts[0]
    else parts[0] + sep + Join(parts[1..], sep)
  }

  /** Joining the pieces with the separator gives the string back. */
  lemma {:induction false} JoinSplit(s: string, sep: string)
    requires |sep| > 0
    ensures Join(Split(s, sep), sep) == s
    decreases |s|
  {
    match IndexOf(s, sep)
    case None =>
    case Some(i) =>
      var rest := s[i + |sep|..];
      var tail := Split(rest, sep);
      JoinSplit(rest, sep);
      var parts := [s[..i]] + tail;
      assert Split(s, sep) == parts;
      assert parts[1..] == tail;
      assert Join(parts, sep) == s[..i] + sep + Join(tail, sep);
      assert s == s[..i] + sep + rest;
  }

  /** `part + sep` has its leftmost `sep` at the very end: no occurrence of `sep`
      lies inside `part` or straddles the boundary. */
  predicate CleanPart(part: string, sep: string) {
    IndexOf(part + sep, sep) == Some(|part|)
  }

  lemma CleanPartFirst(part: string, sep: string, rest: string)
    requires CleanPart(part, sep)
    ensures IndexOf(part + sep + rest, sep) == Some(|part|)
  {
    var s := part + sep + rest;
    assert OccursAt(s, sep, |part|) by { assert s[|part|..|part| + |sep|] == sep; }
    forall i: nat | i < |part|
      ensures !OccursAt(s, sep, i)
    {
      assert s[i..i + |sep|] == (part + sep)[i..i + |sep|];
      assert !OccursAt(part + sep, sep, i);
    }
  }

  /** A clean part in front of the separator is split off first. */
  lemma SplitCleanPart(p: string, sep: string, rest: string)
    requires |sep| > 0 && CleanPart(p, sep)
    ensures Split(p + sep + rest, sep) == [p] + Split(rest, sep)
  {
    var s := p + sep + rest;
    CleanPartFirst(p, sep, rest);
    assert s[|p| + |sep|..] == rest;
    assert s[..|p|] == p;
  }

  /** Splitting a join of clean parts gives the parts back. */
  lemma {:induction false} SplitJoin(parts: seq<string>, sep: string)
    requires |sep| > 0 && |parts| >= 1
    requires forall k :: 0 <= k < |parts| - 1 ==> CleanPart(parts[k], sep)
    requires !Contains(parts[|parts| - 1], sep)
    ensures Split(Join(parts, sep), sep) == parts
  {
    if |parts| > 1 {
      var p := parts[0];
      var rest := Join(parts[1..], sep);
      assert Join(parts, sep) == p + sep + rest;
      SplitCleanPart(p, sep, rest);
      SplitJoin(parts[1..], sep);
      assert [p] + parts[1..] == parts;
    }
  }

  /** For the separator ", " a part is clean exactly when it does not contain ", ". */
  lemma CommaSpaceClean(part: string)
    requires !Contains(part, ", ")
    ensures CleanPart(part, ", ")
  {
    var s := part + ", ";
    assert OccursAt(s, ", ", |part|) by { assert s[|part|..|part| + 2] == ", "; }
    forall i: nat | i < |part|
      ensures !OccursAt(s, ", ", i)
    {
      if i + 2 <= |part| {
        assert s[i..i + 2] == part[i..i + 2];
        if OccursAt(s, ", ", i) { ContainsAt(part, ", ", i); }
      } else {
        assert s[i..i + 2][1] == s[i + 1] == ',';
      }
    }
  }

  // ---- whitespace and trimming ----

  /** Whose whitespace: JavaScript (`trim`, `\s`) or Rust (`char::is_whitespace`). */
  datatype Flavor = Js | Rust

  predicate IsSpace(c: char, f: Flavor) {
    || c == ' ' || c == '\t' || c == '\n' || c == '\r' || c == '\U{B}' || c == '\U{C}'
    || c == '\U{A0}' || c == '\U{1680}' || ('\U{2000}' <= c <= '\U{200A}')
    || c == '\U{2028}' || c == '\U{2029}' || c == '\U{202F}' || c == '\U{205F}' || c == '\U{3000}'
    || (f == Js && c == '\U{FEFF}')
    || (f == Rust && c == '\U{85}')
  }

  function TrimStart(s: string, f: Flavor): (r: string)
    ensures |r| <= |s| && r == s[|s| - |r|..]
    ensures |r| > 0 ==> !IsSpace(r[0], f)
    ensures forall i :: 0 <= i < |s| - |r| ==> IsSpace(s[i], f)
  {
    if |s| > 0 && IsSpace(s[0], f) then TrimStart(s[1..], f) else s
  }

  function TrimEnd(s: string, f: Flavor): (r: string)
    ensures |r| <= |s| && r == s[..|r|]
    ensures |r| > 0 ==> !IsSpace(r[|r| - 1], f)
    ensures forall i :: |r| <= i < |s| ==> IsSpace(s[i], f)
  {
    if |s| > 0 && IsSpace(s[|s| - 1], f) then TrimEnd(s[..|s| - 1], f) else s
  }

  function Trim(s: string, f: Flavor): string {
    TrimEnd(TrimStart(s, f), f)
  }

  predicate IsTrimmed(s: string, f: Flavor) {
    |s| == 0 || (!IsSpace(s[0], f) && !IsSpace(s[|s| - 1], f))
  }

  lemma TrimIsTrimmed(s: string, f: Flavor)
    ensures IsTrimmed(Trim(s, f), f)
  {
    var a := TrimStart(s, f);
    var b := TrimEnd(a, f);
    if |b| > 0 {
      assert b[0] == a[0];
    }
  }

  lemma TrimOfTrimmed(s: string, f: Flavor)
    requires IsTrimmed(s, f)
    ensures Trim(s, f) == s
  {
  }

  /** A string is blank when it holds only white space; `BlankIffTrimEmpty`
      shows this is `!s.trim()` in JavaScript. */
  predicate IsBlank(s: string, f: Flavor) {
    forall i :: 0 <= i < |s| ==> IsSpace(s[i], f)
  }

  lemma BlankIffTrimEmpty(s: string, f: Flavor)
    ensures IsBlank(s, f) <==> Trim(s, f) == ""
  {
    var a := TrimStart(s, f);
    if Trim(s, f) == "" {
      assert |a| == 0;
    }
    if IsBlank(s, f) {
      assert |a| == 0;
    }
  }

  // ---- ASCII case mapping ----

  function LowerChar(c: char): char {
    if 'A' <= c <= 'Z' then (c as int + 32) as char else c
  }

  function UpperChar(c: char): char {
    if 'a' <= c <= 'z' then (c as int - 32) as char else c
  }

  function ToLower(s: string): (r: string)
    ensures |r| == |s| && forall i :: 0 <= i < |s| ==> r[i] == LowerChar(s[i])
  {
    seq(|s|, i requires 0 <= i < |s| => LowerChar(s[i]))
  }

  function ToUpper(s: string): (r: string)
    ensures |r| == |s| && forall i :: 0 <= i < |s| ==> r[i] == UpperChar(s[i])
  {
    seq(|s|, i requires 0 <= i < |s| => UpperChar(s[i]))
  }

  // ---- lines ----

  function StripCr(t: string): string {
    if |t| > 0 && t[|t| - 1] == '\r' then t[..|t| - 1] else t
  }

  /** Rust's `str::lines`: split at "\n" or "\r\n"; a final line ending adds no
      empty line, and the empty string has no lines. */
  function Lines(s: string): (r: seq<string>)
    decreases |s|
  {
    if s == [] then []
    else
      match IndexOf(s, "\n")
      case None => [s]
      case Some(i) => [StripCr(s[..i])] + Lines(s[i + 1..])
  }

  /** A line as written by a writer that ends every line with "\n". */
  predicate IsPlainLine(l: string) {
    !Contains(l, "\n") && (|l| == 0 || l[|l| - 1] != '\r')
  }

  function Terminated(ls: seq<string>): string {
    if ls == [] then "" else ls[0] + "\n" + Terminated(ls[1..])
  }

  /** Reading back lines that were each written with a trailing "\n". */
  lemma {:induction false} LinesOfTerminated(ls: seq<string>)
    requires forall k :: 0 <= k < |ls| ==> IsPlainLine(ls[k])
    ensures Lines(Terminated(ls)) == ls
  {
    if ls != [] {
      var l := ls[0];
      var rest := Terminated(ls[1..]);
      var s := l + "\n" + rest;
      assert s[|l|..|l| + 1] == "\n";
      forall i: nat | i < |l| ensures !OccursAt(s, "\n", i) {
        if OccursAt(s, "\n", i) {
          assert s[i..i + 1] == l[i..i + 1];
          ContainsAt(l, "\n", i);
        }
      }
      FirstOccurrence(s, "\n", |l|);
      assert s[..|l|] == l;
      assert s[|l| + 1..] == rest;
      LinesOfTerminated(ls[1..]);
    }
  }

  // ---- decimal digits ----

  predicate IsDigit(c: char) {
    '0' <= c <= '9'
  }

  predicate AllDigits(s: string) {
    forall i :: 0 <= i < |s| ==> IsDigit(s[i])
  }

  /** A non-empty run of ASCII digits (`\d+`). */
  predicate IsDigitRun(s: string) {
    |s| > 0 && AllDigits(s)
  }

  function DigitValue(c: char): nat
    requires IsDigit(c)
  {
    c as int - '0' as int
  }

  /** The number a digit string denotes (`parseInt(s, 10)` on a digit run). */
  function DecValue(s: string): nat
    requires AllDigits(s)
  {
    if s == [] then 0 else DecValue(s[..|s| - 1]) * 10 + DigitValue(s[|s| - 1])
  }

  function DigitChar(d: nat): (c: char)
    requires d < 10
    ensures IsDigit(c) && DigitValue(c) == d
  {
    ('0' as int + d) as char
  }

  /** Decimal rendering of a natural number, without leading zeros. */
  function NatToString(n: nat): (r: string)
    ensures IsDigitRun(r)
    ensures DecValue(r) == n
  {
    if n < 10 then [DigitChar(n)]
    else
      var r := NatToString(n / 10) + [DigitChar(n % 10)];
      assert r[..|r| - 1] == NatToString(n / 10);
      r
  }

  /** Decimal rendering of an integer, with a leading '-' when negative. */
  function IntToString(n: int): string {
    if n < 0 then "-" + NatToString(-n) else NatToString(n)
  }
}
