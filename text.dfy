/**
 * The JavaScript string operations the core relies on, over `string` (a
 * sequence of characters): `trim`, `includes`, `startsWith`, `indexOf`, the
 * first segment of `split`, `replace` with a string pattern, `substring(0, n)`,
 * `toLowerCase` and `toUpperCase`.
 */
module Text {
  import opened Wrappers

  /** The characters `String.prototype.trim` removes: WhiteSpace and LineTerminator of ECMAScript. */
  predicate IsJsSpace(c: char)
    ensures c < '\U{80}' ==> (IsJsSpace(c) <==> c in "\t\n\U{B}\U{C}\r ")
    ensures IsJsSpace(c) ==> !('0' <= c <= '9' || 'A' <= c <= 'Z' || 'a' <= c <= 'z')
  {
    c == '\t' || c == '\n' || c == '\U{B}' || c == '\U{C}' || c == '\r' || c == ' ' ||
    c == '\U{A0}' || c == '\U{1680}' || ('\U{2000}' <= c <= '\U{200A}') ||
    c == '\U{2028}' || c == '\U{2029}' || c == '\U{202F}' || c == '\U{205F}' ||
    c == '\U{3000}' || c == '\U{FEFF}'
  }

  predicate AllSpace(s: string)
  {
    forall k :: 0 <= k < |s| ==> IsJsSpace(s[k])
  }

  /** The first index at or after i that does not hold white space (or |s|). */
  function SkipSpace(s: string, i: nat): (j: nat)
    requires i <= |s|
    ensures i <= j <= |s|
    ensures forall k :: i <= k < j ==> IsJsSpace(s[k])
    ensures j < |s| ==> !IsJsSpace(s[j])
    decreases |s| - i
  {
    if i < |s| && IsJsSpace(s[i]) then SkipSpace(s, i + 1) else i
  }

  /** The smallest j' with lo <= j' <= j such that s[j'..j] is all white space. */
  function SkipSpaceBack(s: string, lo: nat, j: nat): (j': nat)
    requires lo <= j <= |s|
    ensures lo <= j' <= j
    ensures forall k :: j' <= k < j ==> IsJsSpace(s[k])
    ensures j' > lo ==> !IsJsSpace(s[j' - 1])
  {
    if j > lo && IsJsSpace(s[j - 1]) then SkipSpaceBack(s, lo, j - 1) else j
  }

  /** Where `s.trim()` starts and ends in s. */
  function TrimBounds(s: string): (b: (nat, nat))
    ensures b.0 <= b.1 <= |s|
    ensures forall k :: 0 <= k < b.0 ==> IsJsSpace(s[k])
    ensures forall k :: b.1 <= k < |s| ==> IsJsSpace(s[k])
    ensures b.0 < b.1 ==> !IsJsSpace(s[b.0]) && !IsJsSpace(s[b.1 - 1])
  {
    var i := SkipSpace(s, 0);
    var j := SkipSpaceBack(s, i, |s|);
    (i, j)
  }

  /**
   * `s.trim()`: the infix of s that remains after removing white space at both
   * ends. Everything removed is white space; what remains neither starts nor
   * ends with it.
   */
  function Trim(s: string): (r: string)
    ensures |r| <= |s|
    ensures r != [] ==> !IsJsSpace(r[0]) && !IsJsSpace(r[|r| - 1])
    ensures var (i, j) := TrimBounds(s); r == s[i..j]
  {
    var (i, j) := TrimBounds(s);
    s[i..j]
  }

  /** A string trims to nothing exactly when it is all white space. */
  lemma TrimEmptyIff(s: string)
    ensures Trim(s) == [] <==> AllSpace(s)
  {
    var (i, j) := TrimBounds(s);
    if i < j {
      assert !IsJsSpace(s[i]);
    }
  }

  /** `s.substring(0, n)`. */
  function Truncate(s: string, n: nat): (r: string)
    ensures |r| <= n && |r| <= |s| && r == s[..|r|]
    ensures |s| <= n ==> r == s
    ensures |s| > n ==> |r| == n
  {
    if |s| <= n then s else s[..n]
  }

  predicate OccursAt(s: string, pat: string, i: nat)
  {
    i + |pat| <= |s| && s[i..i + |pat|] == pat
  }

  /** The first position at or after `from` where pat occurs. */
  function IndexFrom(s: string, pat: string, from: nat): (r: Option<nat>)
    requires from <= |s|
    ensures r.Some? ==> from <= r.value && OccursAt(s, pat, r.value)
    ensures r.Some? ==> forall j :: from <= j < r.value ==> !OccursAt(s, pat, j)
    ensures r.None? ==> forall j :: from <= j <= |s| ==> !OccursAt(s, pat, j)
    decreases |s| - from
  {
    if OccursAt(s, pat, from) then Some(from)
    else if from == |s| then None
    else IndexFrom(s, pat, from + 1)
  }

  /** `s.indexOf(pat)`, with None for -1. */
  function IndexOf(s: string, pat: string): (r: Option<nat>)
    ensures r.Some? ==> OccursAt(s, pat, r.value) && forall j :: 0 <= j < r.value ==> !OccursAt(s, pat, j)
    ensures r.None? ==> forall j :: 0 <= j <= |s| ==> !OccursAt(s, pat, j)
  {
    IndexFrom(s, pat, 0)
  }

  /** An occurrence anywhere makes `includes` true. */
  lemma OccurrenceContains(s: string, pat: string, i: nat)
    requires OccursAt(s, pat, i)
    ensures Contains(s, pat)
  {
    assert i <= |s|;
  }

  /** Every character of a pattern that occurs in s is a character of s. */
  lemma OccurrenceHasChar(s: string, pat: string, c: char)
    requires c in pat
    ensures Contains(s, pat) ==> c in s
  {
    if Contains(s, pat) {
      var i := IndexOf(s, pat).value;
      var k :| 0 <= k < |pat| && pat[k] == c;
      assert s[i..i + |pat|][k] == s[i + k];
    }
  }

  /** A pattern with a character that s lacks does not occur in s. */
  lemma MissingCharNotContained(s: string, pat: string, c: char)
    requires c in pat && c !in s
    ensures !Contains(s, pat)
  {
    OccurrenceHasChar(s, pat, c);
  }

  /** `s.includes(pat)`: pat occurs somewhere in s. */
  predicate Contains(s: string, pat: string)
    ensures Contains(s, pat) <==> exists i :: OccursAt(s, pat, i)
  {
    IndexOf(s, pat).Some?
  }

  /** `s.startsWith(p)`: p occurs at position 0, so s also includes p. */
  predicate StartsWith(s: string, p: string)
    ensures StartsWith(s, p) <==> OccursAt(s, p, 0)
    ensures StartsWith(s, p) ==> Contains(s, p)
  {
    |p| <= |s| && s[..|p|] == p
  }

  /** `s.split(sep)[0]` for a one-character separator: the text before the first sep, or all of s. */
  function FirstSegment(s: string, sep: char): (r: string)
    ensures |r| <= |s| && r == s[..|r|]
    ensures sep !in r
    ensures |r| < |s| ==> s[|r|] == sep
  {
    match IndexOf(s, [sep])
    case None =>
      forall k | 0 <= k < |s| ensures s[k] != sep {
        assert !OccursAt(s, [sep], k) && s[k..k + 1] == [s[k]];
      }
      s
    case Some(i) =>
      forall k | 0 <= k < i ensures s[k] != sep {
        assert !OccursAt(s, [sep], k) && s[k..k + 1] == [s[k]];
      }
      assert s[i..i + 1] == [s[i]];
      s[..i]
  }

  /** `s.replace(pat, rep)` with a string pattern: only the first occurrence (IndexOf) is replaced. */
  function ReplaceFirst(s: string, pat: string, rep: string): (r: string)
    ensures !Contains(s, pat) ==> r == s
    ensures Contains(s, pat) ==>
      var i := IndexOf(s, pat).value;
      r == s[..i] + rep + s[i + |pat|..] && |r| == |s| - |pat| + |rep|
  {
    match IndexOf(s, pat)
    case None => s
    case Some(i) => s[..i] + rep + s[i + |pat|..]
  }

  /**
   * `toLowerCase` of one character. ASCII capitals map to small letters; the two
   * characters outside ASCII whose lower case contains an ASCII letter are
   * U+0130 (to "i" and a combining dot) and U+212A KELVIN SIGN (to "k"). Every
   * other character is kept: its lower case has no ASCII character either, so
   * for the ASCII patterns that are searched for the choice makes no difference.
   */
  function LowerChar(c: char): (r: string)
    ensures 'A' <= c <= 'Z' ==> r == [(c as int + 32) as char]
    ensures c < '\U{80}' && !('A' <= c <= 'Z') ==> r == [c]
  {
    if 'A' <= c <= 'Z' then [(c as int + 32) as char]
    else if c == '\U{130}' then "i\U{307}"
    else if c == '\U{212A}' then "k"
    else [c]
  }

  predicate IsAscii(s: string)
  {
    forall k :: 0 <= k < |s| ==> s[k] < '\U{80}'
  }

  /** `s.toLowerCase()`, as far as LowerChar describes it: no ASCII capital is left. */
  function ToLower(s: string): (r: string)
    ensures forall k :: 0 <= k < |r| ==> !('A' <= r[k] <= 'Z')
  {
    if s == [] then [] else LowerChar(s[0]) + ToLower(s[1..])
  }

  /** Lower-casing works piecewise: the lower case of a + b is that of a followed by that of b. */
  lemma {:induction false} ToLowerAppend(a: string, b: string)
    ensures ToLower(a + b) == ToLower(a) + ToLower(b)
  {
    if a != [] {
      assert (a + b)[0] == a[0] && (a + b)[1..] == a[1..] + b;
      ToLowerAppend(a[1..], b);
    } else {
      assert a + b == b;
    }
  }

  /** An occurrence of pat at i becomes one of pat's lower case after the lower-cased prefix. */
  lemma LowerOccurs(s: string, pat: string, i: nat)
    requires OccursAt(s, pat, i)
    ensures OccursAt(ToLower(s), ToLower(pat), |ToLower(s[..i])|)
  {
    var pre, rest := s[..i], s[i + |pat|..];
    assert s == pre + (pat + rest);
    ToLowerAppend(pre, pat + rest);
    ToLowerAppend(pat, rest);
    var j := |ToLower(pre)|;
    assert ToLower(s)[j..j + |ToLower(pat)|] == ToLower(pat);
  }

  /** The lower case of "hone", worked out one character at a time. */
  lemma LowerHone()
    ensures ToLower("hone") == "hone"
  {
    assert "e"[1..] == "" && ToLower("e") == "e";
    assert "ne"[1..] == "e" && ToLower("ne") == "ne";
    assert "one"[1..] == "ne" && ToLower("one") == "one";
  }

  /** The lower case of "iPhone", the marker parseUserAgent searches for. */
  lemma LowerIPhone()
    ensures ToLower("iPhone") == "iphone"
  {
    LowerHone();
    assert "Phone"[1..] == "hone" && LowerChar('P') == "p";
    assert ToLower("Phone") == LowerChar('P') + ToLower("hone") == "phone";
    assert "iPhone"[1..] == "Phone";
    assert ToLower("iPhone") == LowerChar('i') + ToLower("Phone");
  }

  /** Lower-casing an ASCII text keeps its length and lower-cases each character in place. */
  lemma {:induction false} ToLowerAscii(s: string)
    requires IsAscii(s)
    ensures |ToLower(s)| == |s|
    ensures forall k :: 0 <= k < |s| ==> [ToLower(s)[k]] == LowerChar(s[k])
  {
    if s != [] {
      assert IsAscii(s[1..]) by {
        forall k | 0 <= k < |s| - 1 ensures s[1..][k] < '\U{80}' {
          assert s[1..][k] == s[k + 1];
        }
      }
      ToLowerAscii(s[1..]);
      var r := ToLower(s);
      assert r == LowerChar(s[0]) + ToLower(s[1..]);
      forall k | 0 <= k < |s| ensures [r[k]] == LowerChar(s[k]) {
        if k > 0 {
          assert r[k] == ToLower(s[1..])[k - 1] && s[k] == s[1..][k - 1];
        }
      }
    }
  }

  /** `toUpperCase` of one character, ASCII letters only. */
  function UpperChar(c: char): (r: char)
    ensures !('a' <= r <= 'z')
    ensures 'a' <= c <= 'z' ==> r == (c as int - 32) as char && 'A' <= r <= 'Z'
    ensures !('a' <= c <= 'z') ==> r == c
  {
    if 'a' <= c <= 'z' then (c as int - 32) as char else c
  }

  /**
   * `s.toUpperCase()` for ASCII letters: same length, each small letter
   * replaced by its capital, every other character kept.
   */
  function ToUpper(s: string): (r: string)
    ensures |r| == |s|
    ensures forall k :: 0 <= k < |r| ==> !('a' <= r[k] <= 'z')
    ensures forall k :: 0 <= k < |s| && 'a' <= s[k] <= 'z' ==> r[k] == (s[k] as int - 32) as char
    ensures forall k :: 0 <= k < |s| && !('a' <= s[k] <= 'z') ==> r[k] == s[k]
  {
    seq(|s|, k requires 0 <= k < |s| => UpperChar(s[k]))
  }
}
