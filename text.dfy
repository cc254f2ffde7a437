/**
 * The Python string built-ins the core relies on: substring membership (`sub in s`),
 * non-overlapping occurrence counting (`s.count(sub)`), `sep.join(parts)`,
 * `s.strip()` and `s.upper()`.
 */
module Text {

  /** `s.startswith(p)` */
  predicate StartsWith(s: string, p: string)
  {
    |p| <= |s| && s[..|p|] == p
  }

  /** `sub in s`: some position of `s` starts an occurrence of `sub`. */
  predicate Contains(s: string, sub: string)
    decreases |s|
  {
    StartsWith(s, sub) || (|s| > 0 && Contains(s[1..], sub))
  }

  lemma {:induction false} ShorterNeverContains(s: string, sub: string)
    requires |s| < |sub|
    ensures !Contains(s, sub)
  {
    if |s| > 0 {
      ShorterNeverContains(s[1..], sub);
    }
  }

  /** An occurrence inside `a` is still one inside `a + b`. */
  lemma {:induction false} ContainsExtendRight(a: string, b: string, sub: string)
    requires Contains(a, sub)
    ensures Contains(a + b, sub)
  {
    if StartsWith(a, sub) {
      assert (a + b)[..|sub|] == a[..|sub|];
    } else {
      ContainsExtendRight(a[1..], b, sub);
      assert (a + b)[1..] == a[1..] + b;
    }
  }

  /** An occurrence inside `b` is still one inside `a + b`. */
  lemma {:induction false} ContainsExtendLeft(a: string, b: string, sub: string)
    requires Contains(b, sub)
    ensures Contains(a + b, sub)
  {
    if a == [] {
      assert a + b == b;
    } else {
      ContainsExtendLeft(a[1..], b, sub);
      assert (a + b)[1..] == a[1..] + b;
    }
  }

  /**
   * `s.count(sub)` for a non-empty `sub`: occurrences are found left to right and
   * the scan resumes after the end of each one, so occurrences never overlap.
   */
  function Count(s: string, sub: string): nat
    requires sub != []
    decreases |s|
  {
    if |s| < |sub| then 0
    else if s[..|sub|] == sub then 1 + Count(s[|sub|..], sub)
    else Count(s[1..], sub)
  }

  /** Occurrences do not overlap, so together they fit in the text. */
  lemma {:induction false} CountFitsInText(s: string, sub: string)
    requires sub != []
    ensures Count(s, sub) * |sub| <= |s|
  {
    if |s| < |sub| {
    } else if s[..|sub|] == sub {
      var rest := s[|sub|..];
      CountFitsInText(rest, sub);
      assert Count(s, sub) * |sub| == |sub| + Count(rest, sub) * |sub|;
    } else {
      CountFitsInText(s[1..], sub);
    }
  }

  /** The count is zero exactly when `sub in s` is false. */
  lemma {:induction false} CountZeroIffAbsent(s: string, sub: string)
    requires sub != []
    ensures Count(s, sub) == 0 <==> !Contains(s, sub)
  {
    if |s| < |sub| {
      ShorterNeverContains(s, sub);
    } else if s[..|sub|] == sub {
      assert StartsWith(s, sub);
    } else {
      assert !StartsWith(s, sub);
      CountZeroIffAbsent(s[1..], sub);
    }
  }

  /** `sep.join(parts)` */
  function Join(parts: seq<string>, sep: string): string
  {
    if |parts| == 0 then ""
    else if |parts| == 1 then parts[0]
    else parts[0] + sep + Join(parts[1..], sep)
  }

  /** Text found in one of the parts is found in their join. */
  lemma {:induction false} JoinKeepsOccurrence(parts: seq<string>, sep: string, i: nat, sub: string)
    requires i < |parts| && Contains(parts[i], sub)
    ensures Contains(Join(parts, sep), sub)
  {
    if |parts| == 1 {
    } else if i == 0 {
      ContainsExtendRight(parts[0], sep + Join(parts[1..], sep), sub);
      assert parts[0] + sep + Join(parts[1..], sep) == parts[0] + (sep + Join(parts[1..], sep));
    } else {
      JoinKeepsOccurrence(parts[1..], sep, i - 1, sub);
      ContainsExtendLeft(parts[0] + sep, Join(parts[1..], sep), sub);
    }
  }

  /**
   * The characters `str.isspace()` accepts and `str.strip()` removes:
   * U+0009..U+000D, U+001C..U+0020, U+0085, U+00A0, U+1680, U+2000..U+200A,
   * U+2028, U+2029, U+202F, U+205F and U+3000.
   */
  predicate IsSpace(c: char)
  {
    || ('\t' <= c <= '\r')
    || ('\U{1C}' <= c <= ' ')
    || c == '\U{85}' || c == '\U{A0}' || c == '\U{1680}'
    || ('\U{2000}' <= c <= '\U{200A}')
    || c == '\U{2028}' || c == '\U{2029}' || c == '\U{202F}' || c == '\U{205F}' || c == '\U{3000}'
  }

  function StripLeft(s: string): string
  {
    if |s| > 0 && IsSpace(s[0]) then StripLeft(s[1..]) else s
  }

  function StripRight(s: string): string
  {
    if |s| > 0 && IsSpace(s[|s| - 1]) then StripRight(s[..|s| - 1]) else s
  }

  /** `s.strip()` with no argument. */
  function Strip(s: string): string
  {
    StripRight(StripLeft(s))
  }

  lemma {:induction false} StripLeftEmptyIff(s: string)
    ensures StripLeft(s) == [] <==> forall i :: 0 <= i < |s| ==> IsSpace(s[i])
  {
    if |s| > 0 && IsSpace(s[0]) {
      StripLeftEmptyIff(s[1..]);
      assert forall i :: 1 <= i < |s| ==> s[i] == s[1..][i - 1];
    }
  }

  lemma {:induction false} StripRightEmptyIff(s: string)
    ensures StripRight(s) == [] <==> forall i :: 0 <= i < |s| ==> IsSpace(s[i])
  {
    if |s| > 0 && IsSpace(s[|s| - 1]) {
      StripRightEmptyIff(s[..|s| - 1]);
      assert forall i :: 0 <= i < |s| - 1 ==> s[i] == s[..|s| - 1][i];
    }
  }

  lemma {:induction false} StripLeftKeepsNonSpace(s: string)
    ensures StripLeft(s) != [] ==> !IsSpace(StripLeft(s)[0])
    ensures forall i :: 0 <= i < |s| && !IsSpace(s[i]) ==> StripLeft(s) != []
  {
    if |s| > 0 && IsSpace(s[0]) {
      StripLeftKeepsNonSpace(s[1..]);
      assert forall i :: 1 <= i < |s| ==> s[i] == s[1..][i - 1];
    }
  }

  /** `StripLeft(s)` is `s` without a prefix made only of whitespace. */
  lemma {:induction false} StripLeftEnds(s: string)
    ensures |StripLeft(s)| <= |s| && StripLeft(s) == s[|s| - |StripLeft(s)|..]
    ensures forall k :: 0 <= k < |s| - |StripLeft(s)| ==> IsSpace(s[k])
  {
    if |s| > 0 && IsSpace(s[0]) {
      StripLeftEnds(s[1..]);
      assert forall k :: 1 <= k < |s| ==> s[k] == s[1..][k - 1];
    }
  }

  /** `StripRight(s)` is `s` without a suffix made only of whitespace. */
  lemma {:induction false} StripRightEnds(s: string)
    ensures |StripRight(s)| <= |s| && StripRight(s) == s[..|StripRight(s)|]
    ensures forall k :: |StripRight(s)| <= k < |s| ==> IsSpace(s[k])
    ensures StripRight(s) != [] ==> !IsSpace(StripRight(s)[|StripRight(s)| - 1])
  {
    if |s| > 0 && IsSpace(s[|s| - 1]) {
      StripRightEnds(s[..|s| - 1]);
      assert forall k :: 0 <= k < |s| - 1 ==> s[k] == s[..|s| - 1][k];
    }
  }

  /** The slice `s[i..j]` is what is left of `s` once a whitespace prefix and a whitespace suffix are cut off. */
  predicate TrimmedSlice(s: string, t: string, i: int, j: int)
  {
    && 0 <= i <= j <= |s| && t == s[i..j]
    && (forall k :: 0 <= k < i ==> IsSpace(s[k]))
    && (forall k :: j <= k < |s| ==> IsSpace(s[k]))
  }

  /**
   * `s.strip()` is `s` with a whitespace-only prefix and suffix removed; it is
   * empty exactly when every character of `s` is whitespace, and otherwise
   * neither starts nor ends with whitespace.
   */
  lemma StripEmptyIffAllSpace(s: string)
    ensures exists i, j :: TrimmedSlice(s, Strip(s), i, j)
    ensures Strip(s) == [] <==> forall i :: 0 <= i < |s| ==> IsSpace(s[i])
    ensures Strip(s) != [] ==> !IsSpace(Strip(s)[0]) && !IsSpace(Strip(s)[|Strip(s)| - 1])
  {
    var l := StripLeft(s);
    StripLeftEmptyIff(s);
    StripLeftKeepsNonSpace(s);
    StripLeftEnds(s);
    StripRightEmptyIff(l);
    StripRightEnds(l);
    var i := |s| - |l|;
    var j := i + |StripRight(l)|;
    assert forall k :: j <= k < |s| ==> s[k] == l[k - i];
    assert TrimmedSlice(s, Strip(s), i, j);
    if l != [] {
      assert !IsSpace(l[0]);
      if StripRight(l) != [] {
        assert StripRight(l)[0] == l[0];
      }
    }
  }

  /** `c.upper()` on the ASCII letters; every other character is kept. */
  function UpperChar(c: char): char
  {
    if 'a' <= c <= 'z' then (c as int - 'a' as int + 'A' as int) as char else c
  }

  /** `s.upper()`, letter by letter. */
  function Upper(s: string): (u: string)
    ensures |u| == |s|
  {
    seq(|s|, i requires 0 <= i < |s| => UpperChar(s[i]))
  }

  predicate IsUpper(s: string)
  {
    forall i :: 0 <= i < |s| ==> !('a' <= s[i] <= 'z')
  }

  /** Upper-casing leaves no lower-case letter, and changes nothing the second time. */
  lemma UpperIsUpper(s: string)
    ensures IsUpper(Upper(s))
    ensures Upper(Upper(s)) == Upper(s)
  {
    assert forall i :: 0 <= i < |s| ==> Upper(s)[i] == UpperChar(s[i]);
  }
}
