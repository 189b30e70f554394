/**
 * The few Python string operations the core relies on: `str.strip()`,
 * `str.lower()`, `str.split(sep, 1)`, `str.split(sep)` and slicing `s[:n]`.
 */
module Strings {

  /** Python's `str.isspace()` for one character: the characters `str.strip()` removes. */
  predicate IsSpace(c: char) {
    var n := c as int;
    n == 0x20 || 0x09 <= n <= 0x0D || 0x1C <= n <= 0x1F || n == 0x85 || n == 0xA0
    || n == 0x1680 || 0x2000 <= n <= 0x200A || n == 0x2028 || n == 0x2029
    || n == 0x202F || n == 0x205F || n == 0x3000
  }

  predicate IsBlank(s: string) {
    forall k :: 0 <= k < |s| ==> IsSpace(s[k])
  }

  /** No whitespace at either end. */
  predicate Trimmed(s: string) {
    s == [] || (!IsSpace(s[0]) && !IsSpace(s[|s| - 1]))
  }

  /** `s.strip()`: drop leading and trailing whitespace. */
  function Strip(s: string): (r: string)
    ensures |r| <= |s|
    ensures Trimmed(r)
    decreases |s|
  {
    if |s| == 0 then s
    else if IsSpace(s[0]) then Strip(s[1..])
    else if IsSpace(s[|s| - 1]) then Strip(s[..|s| - 1])
    else s
  }

  /** Stripping leaves nothing exactly when the string is all whitespace. */
  lemma {:induction false} StripEmptyIffBlank(s: string)
    ensures Strip(s) == [] <==> IsBlank(s)
    decreases |s|
  {
    if |s| > 0 && IsSpace(s[0]) {
      StripEmptyIffBlank(s[1..]);
      assert IsBlank(s) <==> IsBlank(s[1..]) by {
        if IsBlank(s[1..]) {
          forall k | 1 <= k < |s| ensures IsSpace(s[k]) { assert s[k] == s[1..][k - 1]; }
        }
      }
    } else if |s| > 0 && IsSpace(s[|s| - 1]) {
      // The first character is not whitespace, so neither `s` nor its front is blank.
      StripEmptyIffBlank(s[..|s| - 1]);
      assert s[..|s| - 1][0] == s[0];
    }
  }

  /** A string with no whitespace at either end is its own strip. */
  lemma StripTrimmed(s: string)
    requires Trimmed(s)
    ensures Strip(s) == s
  {
  }

  /** Stripping twice is stripping once. */
  lemma StripIdempotent(s: string)
    ensures Strip(Strip(s)) == Strip(s)
  {
    StripTrimmed(Strip(s));
  }

  /**
   * What `strip()` removes is whitespace at the two ends and nothing else:
   * the result is a slice of the input with only blanks before and after it.
   * With `Trimmed(Strip(s))` this fixes the slice.
   */
  lemma StripIsSlice(s: string)
    ensures exists i, j :: 0 <= i <= j <= |s| && Strip(s) == s[i..j] && IsBlank(s[..i]) && IsBlank(s[j..])
  {
    var i, j := StripBounds(s);
  }

  /** The two ends of the slice `StripIsSlice` speaks of. */
  lemma {:induction false} StripBounds(s: string) returns (i: nat, j: nat)
    ensures i <= j <= |s| && Strip(s) == s[i..j] && IsBlank(s[..i]) && IsBlank(s[j..])
    decreases |s|
  {
    if |s| == 0 {
      i, j := 0, 0;
    } else if IsSpace(s[0]) {
      var rest := s[1..];
      var i', j' := StripBounds(rest);
      i, j := i' + 1, j' + 1;
      assert rest[i'..j'] == s[i..j];
      assert rest[j'..] == s[j..];
      var pre := s[..i];
      forall k | 0 <= k < i ensures IsSpace(pre[k]) {
        if k > 0 { assert pre[k] == rest[..i'][k - 1]; }
      }
    } else if IsSpace(s[|s| - 1]) {
      var front := s[..|s| - 1];
      i, j := StripBounds(front);
      assert front[i..j] == s[i..j];
      assert front[..i] == s[..i];
      var post := s[j..];
      forall k | 0 <= k < |post| ensures IsSpace(post[k]) {
        if k < |post| - 1 { assert post[k] == front[j..][k]; }
      }
    } else {
      i, j := 0, |s|;
      assert s[0..|s|] == s;
    }
  }

  /** Stripping adds no character. */
  lemma {:induction false} StripInside(s: string)
    ensures forall c :: c in Strip(s) ==> c in s
    decreases |s|
  {
    if |s| > 0 && IsSpace(s[0]) {
      StripInside(s[1..]);
    } else if |s| > 0 && IsSpace(s[|s| - 1]) {
      StripInside(s[..|s| - 1]);
    }
  }

  function LowerChar(c: char): (d: char)
    ensures 'A' <= c <= 'Z' ==> 'a' <= d <= 'z'
    ensures !('A' <= c <= 'Z') ==> d == c
  {
    if 'A' <= c <= 'Z' then (c as int + 32) as char else c
  }

  /** `s.lower()`, restricted to ASCII letters (see README). */
  function Lower(s: string): (r: string)
    ensures |r| == |s|
    ensures forall k :: 0 <= k < |s| ==> r[k] == LowerChar(s[k])
  {
    seq(|s|, k requires 0 <= k < |s| => LowerChar(s[k]))
  }

  /** `s.split(sep, 1)`: one part when `sep` does not occur, otherwise the text before and after its first occurrence. */
  function SplitFirst(s: string, sep: char): (parts: seq<string>)
    ensures |parts| == 1 || |parts| == 2
    ensures |parts| == 1 <==> sep !in s
    ensures |parts| == 1 ==> parts[0] == s
    ensures |parts| == 2 ==> sep !in parts[0] && s == parts[0] + [sep] + parts[1]
  {
    if |s| == 0 then [s]
    else if s[0] == sep then ["", s[1..]]
    else
      var rest := SplitFirst(s[1..], sep);
      if |rest| == 1 then
        assert sep !in s by {
          forall k | 0 <= k < |s| ensures s[k] != sep {
            if k > 0 { assert s[k] == s[1..][k - 1]; }
          }
        }
        [s]
      else
        assert s == [s[0]] + s[1..];
        [[s[0]] + rest[0], rest[1]]
  }

  /** Inside `a`, `a + sep + b` holds no `sep` when `a` has none. */
  lemma SepNotBefore(a: string, sep: char, b: string, n: nat)
    requires sep !in a && n < |a|
    ensures (a + [sep] + b)[n] != sep
  {
    assert (a + [sep] + b)[n] == a[n];
  }

  /** Splitting `a + sep + b` at the first `sep` gives back `a` and `b` when `a` has no `sep`. */
  lemma SplitFirstOf(a: string, sep: char, b: string)
    requires sep !in a
    ensures SplitFirst(a + [sep] + b, sep) == [a, b]
  {
    var s := a + [sep] + b;
    assert s[|a|] == sep;
    var parts := SplitFirst(s, sep);
    assert |parts| == 2;
    var n := |parts[0]|;
    if n < |a| {
      SepNotBefore(a, sep, b, n);
      assert false;
    } else if n > |a| {
      assert false;
    }
    assert parts[0] == s[..n] == a;
    assert parts[1] == s[n + 1..] == b;
  }

  /** `s.split(sep)` with an explicit separator: never empty, and the parts joined by `sep` give back `s`. */
  function Split(s: string, sep: char): (parts: seq<string>)
    ensures |parts| >= 1
    ensures forall k :: 0 <= k < |parts| ==> sep !in parts[k]
    ensures Join(parts, sep) == s
    decreases |s|
  {
    var p := SplitFirst(s, sep);
    if |p| == 1 then p else [p[0]] + Split(p[1], sep)
  }

  /** `sep.join(parts)` */
  function Join(parts: seq<string>, sep: char): string
    requires |parts| >= 1
  {
    if |parts| == 1 then parts[0] else parts[0] + [sep] + Join(parts[1..], sep)
  }

  /** `s[:n]` for a non-negative `n`. */
  function Take(s: string, n: nat): (r: string)
    ensures |r| <= n && |r| <= |s| && r == s[..|r|]
    ensures |r| == n || r == s
  {
    if |s| <= n then s else s[..n]
  }
}
