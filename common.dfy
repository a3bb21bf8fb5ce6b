/** Value wrappers and the few Python string operations the importers rely on:
    `str.startswith`, `str.find`, `str.replace` and `str(n)` for a natural number. */
module Common {

  datatype Option<+T> = None | Some(value: T)

  /** The outcome of a step that can raise: `Failure` carries the exception's reason. */
  datatype Result<+T, +E> = Success(value: T) | Failure(error: E)

  /** `s.startswith(p)` */
  predicate StartsWith(s: string, p: string) {
    |p| <= |s| && s[..|p|] == p
  }

  /** `sub` occurs in `s` starting at index `i`. */
  predicate OccursAt(s: string, sub: string, i: nat) {
    i + |sub| <= |s| && s[i..i + |sub|] == sub
  }

  function FindFrom(s: string, sub: string, i: nat): (r: int)
    requires i <= |s|
    ensures -1 <= r <= |s|
    decreases |s| - i
  {
    if OccursAt(s, sub, i) then i
    else if i == |s| then -1
    else FindFrom(s, sub, i + 1)
  }

  /** The search from `i` finds the first occurrence at or after `i`, or -1 when there is none. */
  lemma {:induction false} FindFromSpec(s: string, sub: string, i: nat)
    requires i <= |s|
    ensures var r := FindFrom(s, sub, i);
            && (r == -1 || (i <= r <= |s| && OccursAt(s, sub, r)))
            && (r == -1 ==> forall j :: i <= j <= |s| ==> !OccursAt(s, sub, j))
            && (r != -1 ==> forall j :: i <= j < r ==> !OccursAt(s, sub, j))
    decreases |s| - i
  {
    if !OccursAt(s, sub, i) && i < |s| {
      FindFromSpec(s, sub, i + 1);
    }
  }

  /** `s.find(sub)`: the lowest index at which `sub` occurs, or -1. */
  function Find(s: string, sub: string): (r: int)
    ensures -1 <= r <= |s|
  {
    FindFrom(s, sub, 0)
  }

  /** `find` returns -1 exactly when `sub` does not occur, and otherwise its first occurrence. */
  lemma FindSpec(s: string, sub: string)
    ensures Find(s, sub) == -1 <==> forall j :: 0 <= j <= |s| ==> !OccursAt(s, sub, j)
    ensures Find(s, sub) != -1 ==> 0 <= Find(s, sub) <= |s| && OccursAt(s, sub, Find(s, sub)) &&
                                   forall j :: 0 <= j < Find(s, sub) ==> !OccursAt(s, sub, j)
  {
    FindFromSpec(s, sub, 0);
  }

  /** `s.replace(pat, repl)` for a non-empty pattern: one left-to-right pass that
      replaces non-overlapping occurrences. */
  function Replace(s: string, pat: string, repl: string): (r: string)
    requires |pat| > 0
    decreases |s|
  {
    if |s| < |pat| then s
    else if s[..|pat|] == pat then repl + Replace(s[|pat|..], pat, repl)
    else [s[0]] + Replace(s[1..], pat, repl)
  }

  /** A string in which the pattern never occurs is left as it is. */
  lemma {:induction false} ReplaceWithoutOccurrence(s: string, pat: string, repl: string)
    requires |pat| > 0
    requires forall j :: 0 <= j <= |s| ==> !OccursAt(s, pat, j)
    ensures Replace(s, pat, repl) == s
  {
    if |s| >= |pat| {
      assert !OccursAt(s, pat, 0);
      assert s[..|pat|] != pat;
      forall j | 0 <= j <= |s[1..]|
        ensures !OccursAt(s[1..], pat, j)
      {
        assert !OccursAt(s, pat, j + 1);
        if j + |pat| <= |s[1..]| {
          assert s[1..][j..j + |pat|] == s[j + 1..j + 1 + |pat|];
        }
      }
      ReplaceWithoutOccurrence(s[1..], pat, repl);
      assert s == [s[0]] + s[1..];
    }
  }

  /** Replacing one character by another is a character-by-character map. */
  lemma {:induction false} ReplaceCharAt(s: string, c: char, d: char)
    ensures |Replace(s, [c], [d])| == |s|
    ensures forall i :: 0 <= i < |s| ==> Replace(s, [c], [d])[i] == if s[i] == c then d else s[i]
    decreases |s|
  {
    if |s| >= 1 {
      ReplaceCharAt(s[1..], c, d);
      var tail := Replace(s[1..], [c], [d]);
      var head := if s[0] == c then [d] else [s[0]];
      assert Replace(s, [c], [d]) == head + tail;
    }
  }

  function DigitChar(d: nat): (c: char)
    requires d < 10
    ensures '0' <= c <= '9' && c as int - '0' as int == d
  {
    ('0' as int + d) as char
  }

  /** `str(n)`: the decimal form of `n`, without leading zeros. */
  function NatToString(n: nat): (r: string)
    ensures |r| >= 1
    ensures forall i :: 0 <= i < |r| ==> '0' <= r[i] <= '9'
    ensures n >= 10 ==> r[0] != '0'
    decreases n
  {
    if n < 10 then [DigitChar(n)]
    else NatToString(n / 10) + [DigitChar(n % 10)]
  }

  /** The value of a string of decimal digits (`int(s)` on digit strings). */
  function DigitsValue(s: string): nat
    requires forall i :: 0 <= i < |s| ==> '0' <= s[i] <= '9'
  {
    if s == [] then 0 else DigitsValue(s[..|s| - 1]) * 10 + (s[|s| - 1] as int - '0' as int)
  }

  /** `int(str(n)) == n`: reading the decimal form back gives the number. */
  lemma {:induction false} NatToStringRoundTrip(n: nat)
    ensures DigitsValue(NatToString(n)) == n
    decreases n
  {
    if n >= 10 {
      NatToStringRoundTrip(n / 10);
      var r := NatToString(n);
      assert r[..|r| - 1] == NatToString(n / 10);
    }
  }
}
