/**
 * The handful of java.lang.String, commons-lang StringUtils and Guava string
 * operations the core relies on, written out over `seq<char>`.
 * Case folding and whitespace are ASCII only.
 */
module JavaStrings {
  import opened Wrappers

  predicate StartsWith(s: string, prefix: string) {
    |prefix| <= |s| && s[..|prefix|] == prefix
  }

  predicate EndsWith(s: string, suffix: string) {
    |suffix| <= |s| && s[|s| - |suffix|..] == suffix
  }

  /** `p` occurs in `s` starting at index `i`. */
  predicate OccursAt(s: string, p: string, i: int) {
    0 <= i && i + |p| <= |s| && s[i..i + |p|] == p
  }

  /** `String.indexOf(p, from)`: the first occurrence of `p` at or after `from`, or -1. */
  function IndexOfFrom(s: string, p: string, from: nat): (r: int)
    ensures r == -1 || (from <= r && OccursAt(s, p, r))
    ensures forall j :: from <= j && (r == -1 || j < r) ==> !OccursAt(s, p, j)
    decreases |s| - from
  {
    if from + |p| > |s| then -1
    else if s[from..from + |p|] == p then from
    else IndexOfFrom(s, p, from + 1)
  }

  function IndexOf(s: string, p: string): (r: int)
    ensures r == -1 || OccursAt(s, p, r)
    ensures forall j :: 0 <= j && (r == -1 || j < r) ==> !OccursAt(s, p, j)
  {
    IndexOfFrom(s, p, 0)
  }

  /** Java's `String.trim` removes every character up to and including ' ' at both ends. */
  predicate IsTrimmed(c: char) {
    c <= ' '
  }

  function TrimLeft(s: string): string {
    if s != [] && IsTrimmed(s[0]) then TrimLeft(s[1..]) else s
  }

  function TrimRight(s: string): string {
    if s != [] && IsTrimmed(s[|s| - 1]) then TrimRight(s[..|s| - 1]) else s
  }

  /** `TrimLeft` drops exactly the longest prefix of characters up to ' '. */
  lemma {:induction false} TrimLeftShape(s: string)
    ensures var r := TrimLeft(s);
            |r| <= |s| && r == s[|s| - |r|..] &&
            (r == [] || !IsTrimmed(r[0])) &&
            forall i :: 0 <= i < |s| - |r| ==> IsTrimmed(s[i])
  {
    if s != [] && IsTrimmed(s[0]) {
      var tail := s[1..];
      TrimLeftShape(tail);
      var r := TrimLeft(tail);
      assert TrimLeft(s) == r;
      assert tail[|tail| - |r|..] == s[|s| - |r|..];
      assert forall i :: 0 < i < |s| - |r| ==> s[i] == tail[i - 1];
    }
  }

  /** `TrimRight` drops exactly the longest suffix of characters up to ' '. */
  lemma {:induction false} TrimRightShape(s: string)
    ensures var r := TrimRight(s);
            |r| <= |s| && r == s[..|r|] &&
            (r == [] || !IsTrimmed(r[|r| - 1])) &&
            forall i :: |r| <= i < |s| ==> IsTrimmed(s[i])
  {
    if s != [] && IsTrimmed(s[|s| - 1]) {
      TrimRightShape(s[..|s| - 1]);
    }
  }

  function Trim(s: string): string {
    TrimRight(TrimLeft(s))
  }

  /** commons-lang `StringUtils.trimToEmpty`: null becomes "", anything else is trimmed. */
  function TrimToEmpty(s: Option<string>): string {
    Trim(s.GetOr(""))
  }

  /** commons-lang `StringUtils.isEmpty`. */
  predicate IsEmpty(s: Option<string>) {
    s.None? || s.value == ""
  }

  /** commons-lang `StringUtils.isNotEmpty`. */
  predicate IsNotEmpty(s: Option<string>) {
    s.Some? && s.value != ""
  }

  /** `Character.isWhitespace`, restricted to the ASCII range. */
  predicate IsWhitespace(c: char) {
    c == ' ' || ('\t' <= c <= '\r') || ('\U{1C}' <= c <= '\U{1F}')
  }

  /** commons-lang `StringUtils.isBlank`: null, empty, or whitespace only. */
  predicate IsBlank(s: Option<string>) {
    s.None? || forall i :: 0 <= i < |s.value| ==> IsWhitespace(s.value[i])
  }

  function Repeat(c: char, n: nat): (r: string)
    ensures |r| == n && forall i :: 0 <= i < n ==> r[i] == c
  {
    if n == 0 then "" else [c] + Repeat(c, n - 1)
  }

  function ToUpperAscii(c: char): char {
    if 'a' <= c <= 'z' then (c as int - 32) as char else c
  }

  /** `String.equalsIgnoreCase`, with ASCII case folding. */
  predicate EqualsIgnoreCase(a: string, b: string) {
    |a| == |b| && forall i :: 0 <= i < |a| ==> ToUpperAscii(a[i]) == ToUpperAscii(b[i])
  }

  /** `Boolean.parseBoolean`: true exactly for a non-null "true" in any case. */
  predicate ParseBoolean(s: Option<string>) {
    s.Some? && EqualsIgnoreCase(s.value, "true")
  }

  /** Joins `parts` with the separator `c` (Guava `Joiner.on(c)`). */
  function Join(parts: seq<string>, c: char): string
    requires |parts| > 0
  {
    if |parts| == 1 then parts[0] else Join(parts[..|parts| - 1], c) + [c] + parts[|parts| - 1]
  }

  /** Guava `Splitter.on(c).splitToList(s)`: every piece between separators, empty pieces kept. */
  function SplitOn(s: string, c: char): (parts: seq<string>)
    ensures |parts| > 0
    ensures forall k :: 0 <= k < |parts| ==> c !in parts[k]
    ensures Join(parts, c) == s
  {
    if c !in s then [s]
    else
      var i := LastIndexOfChar(s, c);
      SplitOn(s[..i], c) + [s[i + 1..]]
  }

  /**
   * `String.split` on a one-character separator: without a separator the
   * string itself, otherwise every piece with the trailing empty ones removed.
   */
  function JavaSplit(s: string, c: char): seq<string> {
    if c !in s then [s] else DropTrailingEmpty(SplitOn(s, c))
  }

  function DropTrailingEmpty(parts: seq<string>): seq<string> {
    if parts != [] && parts[|parts| - 1] == "" then DropTrailingEmpty(parts[..|parts| - 1]) else parts
  }

  /** What is dropped is a run of empty pieces at the end; what is kept ends in a non-empty piece. */
  lemma {:induction false} DropTrailingEmptyShape(parts: seq<string>)
    ensures var kept := DropTrailingEmpty(parts);
            |kept| <= |parts| && kept == parts[..|kept|] &&
            (forall i :: |kept| <= i < |parts| ==> parts[i] == "") &&
            (kept == [] || kept[|kept| - 1] != "")
  {
    if parts != [] && parts[|parts| - 1] == "" {
      DropTrailingEmptyShape(parts[..|parts| - 1]);
    }
  }

  /** Joining pieces that end in empty ones appends one separator per empty piece. */
  lemma {:induction false} JoinTrailingEmpty(parts: seq<string>, n: nat, c: char)
    requires 1 <= n <= |parts| && forall i :: n <= i < |parts| ==> parts[i] == ""
    ensures Join(parts, c) == Join(parts[..n], c) + Repeat(c, |parts| - n)
    decreases |parts| - n
  {
    if n < |parts| {
      var init := parts[..|parts| - 1];
      JoinTrailingEmpty(init, n, c);
      assert init[..n] == parts[..n];
      assert Repeat(c, |parts| - n) == Repeat(c, |init| - n) + [c];
    } else {
      assert parts[..n] == parts;
    }
  }

  /** Joining empty pieces gives one separator between each two. */
  lemma {:induction false} JoinOfEmpty(parts: seq<string>, c: char)
    requires |parts| > 0 && forall i :: 0 <= i < |parts| ==> parts[i] == ""
    ensures Join(parts, c) == Repeat(c, |parts| - 1)
  {
    if |parts| > 1 {
      var init := parts[..|parts| - 1];
      assert forall i :: 0 <= i < |init| ==> init[i] == parts[i];
      JoinOfEmpty(init, c);
    }
  }

  /** A join ends with its last piece. */
  lemma JoinEndsWithLast(parts: seq<string>, c: char)
    requires |parts| > 0
    ensures EndsWith(Join(parts, c), parts[|parts| - 1])
  {
  }

  /** The last index of `c` in `s`. */
  function LastIndexOfChar(s: string, c: char): (i: nat)
    requires c in s
    ensures i < |s| && s[i] == c && c !in s[i + 1..]
  {
    if s[|s| - 1] == c then |s| - 1
    else
      assert c in s[..|s| - 1] by {
        var k :| 0 <= k < |s| && s[k] == c;
        assert s[..|s| - 1][k] == c;
      }
      var i := LastIndexOfChar(s[..|s| - 1], c);
      assert s[i + 1..] == s[..|s| - 1][i + 1..] + [s[|s| - 1]];
      i
  }

  /** A separator with none after it is the last one. */
  lemma LastIndexOfCharAt(s: string, c: char, p: nat)
    requires p < |s| && s[p] == c && c !in s[p + 1..]
    ensures LastIndexOfChar(s, c) == p
  {
  }

  /** Splitting a join of separator-free pieces gives the pieces back. */
  lemma {:induction false} SplitJoin(parts: seq<string>, c: char)
    requires |parts| > 0 && forall k :: 0 <= k < |parts| ==> c !in parts[k]
    ensures SplitOn(Join(parts, c), c) == parts
    decreases |parts|
  {
    if |parts| > 1 {
      var init := parts[..|parts| - 1];
      var last := parts[|parts| - 1];
      var j := Join(init, c);
      var s := Join(parts, c);
      assert s == j + [c] + last;
      assert s[..|j|] == j && s[|j| + 1..] == last;
      assert LastIndexOfChar(s, c) == |j| by {
        LastIndexOfCharAt(s, c, |j|);
      }
      assert forall k :: 0 <= k < |init| ==> init[k] == parts[k];
      SplitJoin(init, c);
    } else {
      assert Join(parts, c) == parts[0];
    }
  }

  function Digit(d: nat): char
    requires d < 10
  {
    ('0' as int + d) as char
  }

  predicate IsDigit(c: char) {
    '0' <= c <= '9'
  }

  /** `String.valueOf(int)` for a non-negative value. */
  function NatToString(n: nat): (r: string)
    ensures |r| > 0 && forall i :: 0 <= i < |r| ==> IsDigit(r[i])
  {
    if n < 10 then [Digit(n)] else NatToString(n / 10) + [Digit(n % 10)]
  }

  /** The value of a string of decimal digits. */
  function DecimalValue(s: string): nat
    requires forall i :: 0 <= i < |s| ==> IsDigit(s[i])
  {
    if s == [] then 0
    else
      assert IsDigit(s[|s| - 1]);
      10 * DecimalValue(s[..|s| - 1]) + (s[|s| - 1] as int - '0' as int)
  }

  lemma {:induction false} DecimalRoundTrip(n: nat)
    ensures DecimalValue(NatToString(n)) == n
  {
    if n >= 10 {
      DecimalRoundTrip(n / 10);
      var s := NatToString(n);
      assert s[..|s| - 1] == NatToString(n / 10);
    }
  }

  /** Leading zeros do not change a decimal value. */
  lemma {:induction false} LeadingZero(s: string)
    requires forall i :: 0 <= i < |s| ==> IsDigit(s[i])
    ensures DecimalValue(['0'] + s) == DecimalValue(s)
    decreases |s|
  {
    if s != [] {
      var z := ['0'] + s;
      assert z[..|z| - 1] == ['0'] + s[..|s| - 1];
      LeadingZero(s[..|s| - 1]);
    }
  }

  /** commons-lang `StringUtils.leftPad(s, size, c)`. */
  function LeftPad(s: string, size: nat, c: char): (r: string)
    ensures |r| == if |s| < size then size else |s|
    ensures EndsWith(r, s)
    ensures forall i :: 0 <= i < |r| - |s| ==> r[i] == c
  {
    if |s| < size then Repeat(c, size - |s|) + s else s
  }
}
