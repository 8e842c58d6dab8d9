/**
 * The .NET string operations the core relies on, over `string` = `seq<char>`:
 * `char.IsWhiteSpace`, `string.IsNullOrWhiteSpace`, ordinal `StartsWith`/`EndsWith`/`Contains`,
 * `IndexOf`, `Replace`, splitting on a literal separator, `string.Join` and `int.ToString()`.
 */
module Text {
  import opened Wrappers

  /** `char.IsWhiteSpace`: the Unicode White_Space characters. */
  predicate IsWhiteSpace(c: char) {
    c == ' ' || '\t' <= c <= '\r' || c == '\U{85}' || c == '\U{A0}' || c == '\U{1680}'
    || '\U{2000}' <= c <= '\U{200A}' || c == '\U{2028}' || c == '\U{2029}' || c == '\U{202F}'
    || c == '\U{205F}' || c == '\U{3000}'
  }

  /** Empty or made only of white space. */
  predicate IsBlank(s: string) {
    forall i :: 0 <= i < |s| ==> IsWhiteSpace(s[i])
  }

  /** `string.IsNullOrWhiteSpace`, a missing string being `None`. */
  predicate IsNullOrWhiteSpace(s: Option<string>) {
    s.None? || IsBlank(s.value)
  }

  predicate StartsWith(s: string, prefix: string) {
    |prefix| <= |s| && s[..|prefix|] == prefix
  }

  predicate EndsWith(s: string, suffix: string) {
    |suffix| <= |s| && s[|s| - |suffix|..] == suffix
  }

  /** Ordinal comparison (`string.CompareOrdinal(a, b) <= 0`): character codes, then length. */
  predicate OrdinalLessOrEqual(a: string, b: string)
    decreases |a|
  {
    |a| == 0 || (|b| > 0 && (a[0] < b[0] || (a[0] == b[0] && OrdinalLessOrEqual(a[1..], b[1..]))))
  }

  lemma {:induction false} OrdinalTotal(a: string, b: string)
    ensures OrdinalLessOrEqual(a, b) || OrdinalLessOrEqual(b, a)
    decreases |a|
  {
    if |a| > 0 && |b| > 0 && a[0] == b[0] {
      OrdinalTotal(a[1..], b[1..]);
    }
  }

  lemma {:induction false} OrdinalTransitive(a: string, b: string, c: string)
    requires OrdinalLessOrEqual(a, b) && OrdinalLessOrEqual(b, c)
    ensures OrdinalLessOrEqual(a, c)
    decreases |a|
  {
    if |a| > 0 && a[0] == b[0] && b[0] == c[0] {
      OrdinalTransitive(a[1..], b[1..], c[1..]);
    }
  }

  lemma {:induction false} OrdinalAntisymmetric(a: string, b: string)
    requires OrdinalLessOrEqual(a, b) && OrdinalLessOrEqual(b, a)
    ensures a == b
    decreases |a|
  {
    if |a| > 0 {
      OrdinalAntisymmetric(a[1..], b[1..]);
      assert a == [a[0]] + a[1..] && b == [b[0]] + b[1..];
    }
  }

  /** `pat` occurs in `s` at position `i`. */
  predicate OccursAt(s: string, pat: string, i: int) {
    0 <= i && i + |pat| <= |s| && s[i..i + |pat|] == pat
  }

  /** The first position at or after `from` where `pat` occurs in `s`. */
  function IndexOfFrom(s: string, pat: string, from: nat): (r: Option<nat>)
    requires from <= |s|
    ensures r.Some? ==> from <= r.value && OccursAt(s, pat, r.value)
    ensures r.Some? ==> forall j :: from <= j < r.value ==> !OccursAt(s, pat, j)
    ensures r.None? ==> forall j :: from <= j ==> !OccursAt(s, pat, j)
    decreases |s| - from
  {
    if OccursAt(s, pat, from) then Some(from)
    else if from + |pat| >= |s| then None
    else IndexOfFrom(s, pat, from + 1)
  }

  /** Ordinal `s.IndexOf(pat)`: the first occurrence of `pat` in `s`. */
  function IndexOf(s: string, pat: string): Option<nat> {
    IndexOfFrom(s, pat, 0)
  }

  /** The first occurrence is found where no earlier position holds the pattern's first character. */
  lemma IndexOfAfterFirstChar(s: string, pat: string, i: nat)
    requires |pat| > 0 && OccursAt(s, pat, i)
    requires forall j :: 0 <= j < i ==> s[j] != pat[0]
    ensures IndexOf(s, pat) == Some(i)
  {
    forall j | 0 <= j < i ensures !OccursAt(s, pat, j) {
      assert s[j] != pat[0];
    }
  }

  /** A pattern whose first character does not occur is not found. */
  lemma IndexOfMissingFirstChar(s: string, pat: string)
    requires |pat| > 0 && pat[0] !in s
    ensures IndexOf(s, pat) == None
  {
    forall j | 0 <= j < |s| ensures !OccursAt(s, pat, j) {
      assert s[j] in s;
    }
  }

  /** Ordinal `s.Contains(pat)`. */
  predicate Contains(s: string, pat: string) {
    IndexOf(s, pat).Some?
  }

  lemma ContainsIff(s: string, pat: string)
    ensures Contains(s, pat) <==> exists i :: OccursAt(s, pat, i)
  {
  }

  /**
   * `s.Replace(pat, repl)`: every occurrence of `pat` found scanning left to right,
   * without overlaps, is replaced by `repl`.
   */
  function Replace(s: string, pat: string, repl: string): string
    requires |pat| > 0
    decreases |s|
  {
    if |s| == 0 then ""
    else if StartsWith(s, pat) then repl + Replace(s[|pat|..], pat, repl)
    else [s[0]] + Replace(s[1..], pat, repl)
  }

  /** Replacing a single character repl text that does not hold it removes every occurrence of it. */
  lemma {:induction false} ReplaceCharRemovesIt(s: string, c: char, repl: string)
    requires c !in repl
    ensures c !in Replace(s, [c], repl)
    decreases |s|
  {
    if |s| == 0 {
    } else if StartsWith(s, [c]) {
      ReplaceCharRemovesIt(s[1..], c, repl);
    } else {
      assert s[0] != c;
      ReplaceCharRemovesIt(s[1..], c, repl);
    }
  }

  /** A string without the pattern's first character is left as it is. */
  lemma {:induction false} ReplaceWithoutFirstChar(s: string, pat: string, repl: string)
    requires |pat| > 0 && pat[0] !in s
    ensures Replace(s, pat, repl) == s
    decreases |s|
  {
    if |s| > 0 {
      assert |pat| <= |s| ==> s[..|pat|][0] == s[0];
      assert !StartsWith(s, pat);
      assert s[0] != pat[0];
      assert pat[0] !in s[1..] by {
        forall k | 0 <= k < |s[1..]| ensures s[1..][k] != pat[0] {
          assert s[1..][k] == s[k + 1];
        }
      }
      ReplaceWithoutFirstChar(s[1..], pat, repl);
      assert s == [s[0]] + s[1..];
    }
  }

  /** Replacing never invents a character that neither `s` nor `repl` holds. */
  lemma {:induction false} ReplaceKeepsAbsentChar(s: string, pat: string, repl: string, c: char)
    requires |pat| > 0 && c !in s && c !in repl
    ensures c !in Replace(s, pat, repl)
    decreases |s|
  {
    if |s| == 0 {
    } else if StartsWith(s, pat) {
      assert forall k :: 0 <= k < |s[|pat|..]| ==> s[|pat|..][k] == s[|pat| + k];
      ReplaceKeepsAbsentChar(s[|pat|..], pat, repl, c);
    } else {
      assert forall k :: 0 <= k < |s[1..]| ==> s[1..][k] == s[1 + k];
      ReplaceKeepsAbsentChar(s[1..], pat, repl, c);
    }
  }

  /**
   * Splitting `s` at every non-overlapping occurrence of the literal `sep`, scanning left to right:
   * `Regex.Split` with a pattern free of meta-characters, and `string.Split` with one separator.
   */
  function Split(s: string, sep: string): (r: seq<string>)
    requires |sep| > 0
    ensures |r| >= 1
    decreases |s|
  {
    match IndexOf(s, sep)
    case None => [s]
    case Some(i) => [s[..i]] + Split(s[i + |sep|..], sep)
  }

  /** There is a second piece exactly when the separator occurs; the first piece is what precedes it. */
  lemma SplitHead(s: string, sep: string)
    requires |sep| > 0
    ensures |Split(s, sep)| >= 2 <==> Contains(s, sep)
    ensures Split(s, sep)[0] == (if Contains(s, sep) then s[..IndexOf(s, sep).value] else s)
    ensures Contains(s, sep) ==> Split(s, sep)[1] == Split(s[IndexOf(s, sep).value + |sep|..], sep)[0]
  {
  }

  /** A string without the separator character is a single piece. */
  lemma SplitAbsent(s: string, c: char)
    requires c !in s
    ensures Split(s, [c]) == [s]
  {
    forall j | 0 <= j < |s| ensures !OccursAt(s, [c], j) {
      assert s[j..j + 1] == [s[j]];
    }
  }

  /** The first piece ends at the first separator character. */
  lemma SplitAtFirst(a: string, c: char, b: string)
    requires c !in a
    ensures Split(a + [c] + b, [c]) == [a] + Split(b, [c])
  {
    var s := a + [c] + b;
    forall j | 0 <= j < |a| ensures !OccursAt(s, [c], j) {
      assert s[j..j + 1] == [a[j]];
    }
    assert s[|a|..|a| + 1] == [c];
    assert OccursAt(s, [c], |a|);
    assert IndexOf(s, [c]) == Some(|a|);
    assert s[..|a|] == a && s[|a| + 1..] == b;
  }

  /** Five pieces joined by a character none of them holds split back into the five pieces. */
  lemma SplitFive(p0: string, p1: string, p2: string, p3: string, p4: string, c: char)
    requires c !in p0 && c !in p1 && c !in p2 && c !in p3 && c !in p4
    ensures Split(p0 + [c] + (p1 + [c] + (p2 + [c] + (p3 + [c] + p4))), [c]) == [p0, p1, p2, p3, p4]
  {
    var r3 := p3 + [c] + p4;
    var r2 := p2 + [c] + r3;
    var r1 := p1 + [c] + r2;
    SplitAbsent(p4, c);
    SplitAtFirst(p3, c, p4);
    SplitAtFirst(p2, c, r3);
    SplitAtFirst(p1, c, r2);
    SplitAtFirst(p0, c, r1);
    ConsFive(p0, p1, p2, p3, p4);
  }

  lemma ConsFive<T>(x0: T, x1: T, x2: T, x3: T, x4: T)
    ensures [x0] + ([x1] + ([x2] + ([x3] + [x4]))) == [x0, x1, x2, x3, x4]
  {
  }

  /** Splitting the pieces joined by a character none of them holds gives the pieces back. */
  lemma {:induction false} SplitJoin(parts: seq<string>, c: char)
    requires |parts| >= 1 && forall k :: 0 <= k < |parts| ==> c !in parts[k]
    ensures Split(Join([c], parts), [c]) == parts
  {
    if |parts| == 1 {
      SplitAbsent(parts[0], c);
    } else {
      SplitJoin(parts[1..], c);
      SplitAtFirst(parts[0], c, Join([c], parts[1..]));
    }
  }

  /** The last piece of `s.Split(c)`: what follows the last `c`, or all of `s`. */
  function LastSegment(s: string, c: char): (r: string)
    ensures |r| <= |s|
    decreases |s|
  {
    if |s| == 0 then ""
    else if s[|s| - 1] == c then ""
    else LastSegment(s[..|s| - 1], c) + [s[|s| - 1]]
  }

  /** The last piece holds no `c`, ends `s`, follows a `c` when shorter than `s`, and is all of `s` when `s` has no `c`. */
  lemma LastSegmentShape(s: string, c: char)
    ensures var r := LastSegment(s, c);
            && c !in r
            && EndsWith(s, r)
            && (|r| < |s| ==> s[|s| - |r| - 1] == c)
            && (c !in s ==> r == s)
  {
    LastSegmentNoSeparator(s, c);
    LastSegmentSuffix(s, c);
    LastSegmentWhole(s, c);
  }

  lemma {:induction false} LastSegmentNoSeparator(s: string, c: char)
    ensures c !in LastSegment(s, c)
    decreases |s|
  {
    if |s| > 0 && s[|s| - 1] != c {
      LastSegmentNoSeparator(s[..|s| - 1], c);
    }
  }

  lemma {:induction false} LastSegmentSuffix(s: string, c: char)
    ensures var r := LastSegment(s, c);
            EndsWith(s, r) && (|r| < |s| ==> s[|s| - |r| - 1] == c)
    decreases |s|
  {
    if |s| > 0 && s[|s| - 1] != c {
      var init := s[..|s| - 1];
      LastSegmentSuffix(init, c);
      var r0 := LastSegment(init, c);
      var r := r0 + [s[|s| - 1]];
      var start := |init| - |r0|;
      assert s == init + [s[|s| - 1]];
      assert s[start..] == init[start..] + [s[|s| - 1]];
      if start > 0 {
        assert s[start - 1] == init[start - 1];
      }
    }
  }

  lemma {:induction false} LastSegmentWhole(s: string, c: char)
    ensures c !in s ==> LastSegment(s, c) == s
    decreases |s|
  {
    if |s| > 0 && c !in s {
      var init := s[..|s| - 1];
      assert c !in init;
      LastSegmentWhole(init, c);
      assert s == init + [s[|s| - 1]];
    }
  }

  /** What follows the last `c` is unaffected by anything before a `c`. */
  lemma {:induction false} LastSegmentAfter(a: string, c: char, b: string)
    ensures LastSegment(a + [c] + b, c) == LastSegment(b, c)
    decreases |b|
  {
    var s := a + [c] + b;
    if |b| > 0 && b[|b| - 1] != c {
      assert s[..|s| - 1] == a + [c] + b[..|b| - 1];
      LastSegmentAfter(a, c, b[..|b| - 1]);
    }
  }

  /** `s.Split(c).Last()` is the text after the last `c`, or all of `s`. */
  lemma {:induction false} SplitLast(s: string, c: char)
    ensures var r := Split(s, [c]); r[|r| - 1] == LastSegment(s, c)
    decreases |s|
  {
    if c !in s {
      SplitLastAbsent(s, c);
    } else {
      var a, rest := SplitAtFirstChar(s, c);
      SplitLast(rest, c);
      SplitLastAfter(a, c, rest);
    }
  }

  /** Without a `c`, the one piece of the split is the whole string. */
  lemma SplitLastAbsent(s: string, c: char)
    requires c !in s
    ensures var r := Split(s, [c]); r[|r| - 1] == LastSegment(s, c)
  {
    SplitAbsent(s, c);
    LastSegmentWhole(s, c);
  }

  /** The last piece after a first `c` is the last piece of what follows it. */
  lemma SplitLastAfter(a: string, c: char, rest: string)
    requires c !in a
    requires var r := Split(rest, [c]); r[|r| - 1] == LastSegment(rest, c)
    ensures var r := Split(a + [c] + rest, [c]); r[|r| - 1] == LastSegment(a + [c] + rest, c)
  {
    var s := a + [c] + rest;
    var tail := Split(rest, [c]);
    SplitAtFirst(a, c, rest);
    LastSegmentAfter(a, c, rest);
    var whole := Split(s, [c]);
    assert whole == [a] + tail;
    assert whole[|whole| - 1] == tail[|tail| - 1];
  }

  /** The position of the first `c` in a string that holds one. */
  lemma FirstIndexOfChar(s: string, c: char) returns (i: nat)
    requires c in s
    ensures i < |s| && s[i] == c && c !in s[..i]
  {
    i := 0;
    while s[i] != c
      invariant i < |s| && c !in s[..i]
      invariant c in s[i..]
      decreases |s| - i
    {
      assert s[i..] == [s[i]] + s[i + 1..];
      assert s[..i + 1] == s[..i] + [s[i]];
      i := i + 1;
    }
  }

  /** A string holding `c` is the text before its first `c`, the `c`, and the rest. */
  lemma SplitAtFirstChar(s: string, c: char) returns (a: string, rest: string)
    requires c in s
    ensures c !in a && s == a + [c] + rest && |rest| < |s|
  {
    var i := FirstIndexOfChar(s, c);
    a, rest := s[..i], s[i + 1..];
    assert s == a + [c] + rest;
  }

  /** `string.Join(sep, parts)`. */
  function Join(sep: string, parts: seq<string>): string {
    if |parts| == 0 then ""
    else if |parts| == 1 then parts[0]
    else parts[0] + sep + Join(sep, parts[1..])
  }

  // ----- integers as decimal text -----

  predicate IsDigit(c: char) {
    '0' <= c <= '9'
  }

  predicate AllDigits(s: string) {
    forall i :: 0 <= i < |s| ==> IsDigit(s[i])
  }

  function DigitChar(d: nat): (c: char)
    requires d < 10
    ensures IsDigit(c)
  {
    "0123456789"[d]
  }

  function DigitValue(c: char): (d: nat)
    requires IsDigit(c)
    ensures d < 10
  {
    (c as int - '0' as int) as nat
  }

  /** The decimal digits of `n`, most significant first, without leading zeros. */
  function NatToString(n: nat): (r: string)
    ensures |r| >= 1 && AllDigits(r)
    decreases n
  {
    if n < 10 then [DigitChar(n)] else NatToString(n / 10) + [DigitChar(n % 10)]
  }

  /** `int.ToString()` under the invariant culture: an optional '-' and the decimal digits. */
  function IntToString(n: int): (r: string)
    ensures |r| >= 1
    ensures n >= 0 ==> AllDigits(r)
    ensures n < 0 ==> r[0] == '-' && |r| >= 2 && AllDigits(r[1..])
  {
    if n < 0 then ['-'] + NatToString(-n) else NatToString(n)
  }

  /** The decimal text of an integer holds only digits and a minus sign. */
  lemma IntToStringChars(n: int)
    ensures forall k :: 0 <= k < |IntToString(n)| ==> IntToString(n)[k] == '-' || IsDigit(IntToString(n)[k])
  {
  }

  /** The value of a string of decimal digits. */
  function ParseNat(s: string): nat
    requires AllDigits(s)
    decreases |s|
  {
    if |s| == 0 then 0 else ParseNat(s[..|s| - 1]) * 10 + DigitValue(s[|s| - 1])
  }

  /** The integer written as an optional '-' followed by at least one decimal digit. */
  function ParseInt(s: string): Option<int> {
    if |s| >= 2 && s[0] == '-' && AllDigits(s[1..]) then Some(0 - ParseNat(s[1..]) as int)
    else if |s| >= 1 && AllDigits(s) then Some(ParseNat(s))
    else None
  }

  lemma {:induction false} ParseNatToString(n: nat)
    ensures ParseNat(NatToString(n)) == n
    decreases n
  {
    if n >= 10 {
      var s := NatToString(n);
      assert s[..|s| - 1] == NatToString(n / 10);
      ParseNatToString(n / 10);
    }
  }

  /** A '-' before the decimal text of a natural number reads as that number negated. */
  lemma ParseIntNegative(m: nat)
    ensures ParseInt(['-'] + NatToString(m)) == Some(0 - m)
  {
    var digits := NatToString(m);
    assert (['-'] + digits)[1..] == digits;
    ParseNatToString(m);
  }

  /** The decimal text of a natural number reads as that number. */
  lemma ParseIntDigits(m: nat)
    ensures ParseInt(NatToString(m)) == Some(m)
  {
    assert IsDigit(NatToString(m)[0]);
    ParseNatToString(m);
  }

  /** Parsing the decimal text of an integer gives the integer back. */
  lemma ParseIntToString(n: int)
    ensures ParseInt(IntToString(n)) == Some(n)
  {
    if n < 0 {
      ParseIntNegative(-n);
    } else {
      ParseIntDigits(n);
    }
  }
}
