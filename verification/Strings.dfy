/** The few string operations the agent code relies on, over ASCII. */
module Strings {

  datatype Option<+T> = None | Some(value: T)

  predicate IsSpace(c: char) {
    c == ' ' || c == '\t' || c == '\n' || c == '\r' || c == '\U{000B}' || c == '\U{000C}'
  }

  function TrimLeft(s: string): string {
    if s != [] && IsSpace(s[0]) then TrimLeft(s[1..]) else s
  }

  function TrimRight(s: string): string {
    if s != [] && IsSpace(s[|s| - 1]) then TrimRight(s[..|s| - 1]) else s
  }

  function Trim(s: string): string {
    TrimRight(TrimLeft(s))
  }

  predicate HasSuffix(s: string, suffix: string) {
    |suffix| <= |s| && s[|s| - |suffix|..] == suffix
  }

  predicate OccursAt(s: string, part: string, i: nat) {
    i + |part| <= |s| && s[i..i + |part|] == part
  }

  predicate Contains(s: string, part: string) {
    exists i: nat :: i <= |s| && OccursAt(s, part, i)
  }

  function LowerChar(c: char): char {
    if 'A' <= c <= 'Z' then c - 'A' + 'a' else c
  }

  function Lower(s: string): string {
    seq(|s|, i requires 0 <= i < |s| => LowerChar(s[i]))
  }

  function Digit(d: nat): char
    requires d < 10
  {
    '0' + d as char
  }

  /** The decimal numeral of n, as `%d` prints it. */
  function Decimal(n: nat): string {
    if n < 10 then [Digit(n)] else Decimal(n / 10) + [Digit(n % 10)]
  }

  lemma {:induction false} DecimalInjective(m: nat, n: nat)
    requires Decimal(m) == Decimal(n)
    ensures m == n
    decreases m
  {
    assert Decimal(m)[|Decimal(m)| - 1] == Digit(m % 10);
    assert Decimal(n)[|Decimal(n)| - 1] == Digit(n % 10);
    if m >= 10 && n >= 10 {
      assert Decimal(m / 10) == Decimal(m)[..|Decimal(m)| - 1];
      assert Decimal(n / 10) == Decimal(n)[..|Decimal(n)| - 1];
      DecimalInjective(m / 10, n / 10);
    }
  }

  predicate AllSpace(s: string) {
    forall i :: 0 <= i < |s| ==> IsSpace(s[i])
  }

  /** Trimming removes the white space around a text, and nothing else. */
  lemma TrimBetween(before: string, core: string, after: string)
    requires AllSpace(before) && AllSpace(after)
    requires core != [] && !IsSpace(core[0]) && !IsSpace(core[|core| - 1])
    ensures Trim(before + core + after) == core
  {
    assert before + core + after == before + (core + after);
    TrimLeftDrops(before, core + after);
    TrimRightDrops(core, after);
  }

  lemma {:induction false} TrimLeftDrops(before: string, rest: string)
    requires AllSpace(before) && rest != [] && !IsSpace(rest[0])
    ensures TrimLeft(before + rest) == rest
  {
    if before == [] {
      assert before + rest == rest;
    } else {
      assert (before + rest)[1..] == before[1..] + rest;
      TrimLeftDrops(before[1..], rest);
    }
  }

  lemma {:induction false} TrimRightDrops(core: string, after: string)
    requires AllSpace(after) && core != [] && !IsSpace(core[|core| - 1])
    ensures TrimRight(core + after) == core
  {
    if after == [] {
      assert core + after == core;
    } else {
      assert (core + after)[..|core + after| - 1] == core + after[..|after| - 1];
      TrimRightDrops(core, after[..|after| - 1]);
    }
  }

  lemma {:induction false} TrimOfSpace(s: string)
    requires AllSpace(s)
    ensures Trim(s) == ""
  {
    if s != [] {
      TrimOfSpace(s[1..]);
    }
  }

  /** Every text is white space around its trimmed form, which has none at its ends. */
  lemma TrimParts(s: string) returns (before: string, after: string)
    ensures AllSpace(before) && AllSpace(after) && s == before + Trim(s) + after
    ensures Trim(s) != "" ==> !IsSpace(Trim(s)[0]) && !IsSpace(Trim(s)[|Trim(s)| - 1])
  {
    before := TrimLeftParts(s);
    var rest := TrimLeft(s);
    after := TrimRightParts(rest);
    assert s == before + rest && rest == TrimRight(rest) + after;
    if Trim(s) != "" {
      assert Trim(s)[0] == rest[0];
    }
  }

  lemma {:induction false} TrimLeftParts(s: string) returns (before: string)
    ensures AllSpace(before) && s == before + TrimLeft(s)
    ensures TrimLeft(s) != "" ==> !IsSpace(TrimLeft(s)[0])
  {
    if s != [] && IsSpace(s[0]) {
      var more := TrimLeftParts(s[1..]);
      before := [s[0]] + more;
    } else {
      before := [];
    }
  }

  lemma {:induction false} TrimRightParts(s: string) returns (after: string)
    ensures AllSpace(after) && s == TrimRight(s) + after
    ensures TrimRight(s) != "" ==> !IsSpace(TrimRight(s)[|TrimRight(s)| - 1])
  {
    if s != [] && IsSpace(s[|s| - 1]) {
      var more := TrimRightParts(s[..|s| - 1]);
      after := more + [s[|s| - 1]];
    } else {
      after := [];
    }
  }

  /** Trimming never eats into a prefix whose two ends are visible. */
  lemma TrimKeepsPrefix(s: string, p: string)
    requires p != [] && p <= s && !IsSpace(p[0]) && !IsSpace(p[|p| - 1])
    ensures p <= Trim(s)
  {
    assert s[0] == p[0];
    TrimRightKeepsPrefix(s, p);
  }

  lemma {:induction false} TrimRightKeepsPrefix(s: string, p: string)
    requires p != [] && p <= s && !IsSpace(p[|p| - 1])
    ensures p <= TrimRight(s)
  {
    if IsSpace(s[|s| - 1]) {
      assert |p| < |s| by {
        if |p| == |s| {
          assert p == s;
        }
      }
      assert p <= s[..|s| - 1];
      TrimRightKeepsPrefix(s[..|s| - 1], p);
    }
  }

  /** Lower-casing keeps a lower-case prefix in place, where Contains finds it. */
  lemma LowerContainsPrefix(s: string, p: string)
    requires p <= s && Lower(p) == p
    ensures Contains(Lower(s), p)
  {
    var low := Lower(s);
    assert OccursAt(low, p, 0) by {
      forall i | 0 <= i < |p|
        ensures low[i] == p[i]
      {
        assert p[i] == Lower(p)[i] == LowerChar(p[i]);
        assert s[i] == p[i];
      }
    }
  }

  /** Trimming keeps a word whose two ends are visible. */
  lemma TrimKeepsWord(s: string, word: string, i: nat) returns (at: nat)
    requires OccursAt(s, word, i) && word != [] && !IsSpace(word[0]) && !IsSpace(word[|word| - 1])
    ensures OccursAt(Trim(s), word, at)
  {
    var before, after := TrimParts(s);
    var n, end := |word|, |before| + |Trim(s)|;
    assert s[i] == s[i..i + n][0] && s[i + n - 1] == s[i..i + n][n - 1];
    forall k | 0 <= k < |s| && (k < |before| || end <= k)
      ensures IsSpace(s[k])
    {
      assert s[k] == if k < |before| then before[k] else after[k - end];
    }
    at := i - |before|;
    assert Trim(s)[at..at + n] == s[i..i + n];
  }

  /** Lower-casing keeps a lower-case word where it is. */
  lemma LowerKeepsWord(s: string, word: string, i: nat)
    requires OccursAt(s, word, i) && Lower(word) == word
    ensures OccursAt(Lower(s), word, i) && Contains(Lower(s), word)
  {
    forall k | 0 <= k < |word|
      ensures Lower(s)[i..i + |word|][k] == word[k]
    {
      assert s[i..i + |word|][k] == word[k] == Lower(word)[k];
    }
    assert OccursAt(Lower(s), word, i);
  }

  /** The text has the part exactly if it is the part with something before and after. */
  lemma ContainsMeans(s: string, part: string)
    ensures Contains(s, part) <==> exists before, after :: s == before + part + after
  {
    if i: nat :| i <= |s| && OccursAt(s, part, i) {
      assert s == s[..i] + part + s[i + |part|..];
    }
    if before, after :| s == before + part + after {
      assert OccursAt(s, part, |before|);
    }
  }

  lemma SuffixMeans(s: string, suffix: string)
    ensures HasSuffix(s, suffix) <==> exists before :: s == before + suffix
  {
    if HasSuffix(s, suffix) {
      assert s == s[..|s| - |suffix|] + suffix;
    }
  }

  /** Lower-casing changes the capital letters, one by one, and nothing else. */
  lemma LowerMeans(s: string, i: nat)
    requires i < |s|
    ensures |Lower(s)| == |s| && Lower(Lower(s)) == Lower(s)
    ensures if 'A' <= s[i] <= 'Z' then Lower(s)[i] as int - 'a' as int == s[i] as int - 'A' as int
            else Lower(s)[i] == s[i]
  {
  }

  /** The number that a numeral stands for. */
  function NumeralValue(s: string): int {
    if s == "" then 0 else 10 * NumeralValue(s[..|s| - 1]) + (s[|s| - 1] as int - '0' as int)
  }

  lemma {:induction false} DecimalValue(n: nat)
    ensures NumeralValue(Decimal(n)) == n
    ensures forall i :: 0 <= i < |Decimal(n)| ==> '0' <= Decimal(n)[i] <= '9'
  {
    if n < 10 {
      assert [Digit(n)][..0] == "";
    } else {
      DecimalValue(n / 10);
      assert Decimal(n)[..|Decimal(n)| - 1] == Decimal(n / 10);
    }
  }
}
