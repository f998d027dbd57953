/** Character classes and string primitives the workflow steps are built from:
    whitespace as Python's `str.isspace` and the regular-expression class `\s`
    see it, ASCII case mapping, stripping, and substring search. */
module Strings {

  /** The whitespace characters of Python's `str.strip()` and of `\s` in a
      `str` pattern: the ASCII controls TAB..CR and FS..US, SPACE, NEL, NBSP and
      the Unicode space separators. */
  predicate IsSpace(c: char) {
    || ('\t' <= c <= '\r')
    || ('\U{1C}' <= c <= '\U{1F}')
    || c == ' '
    || c == '\U{85}'
    || c == '\U{A0}'
    || c == '\U{1680}'
    || ('\U{2000}' <= c <= '\U{200A}')
    || c == '\U{2028}'
    || c == '\U{2029}'
    || c == '\U{202F}'
    || c == '\U{205F}'
    || c == '\U{3000}'
  }

  predicate IsUpper(c: char) {
    'A' <= c <= 'Z'
  }

  predicate IsLower(c: char) {
    'a' <= c <= 'z'
  }

  /** ASCII lower-casing of one character. */
  function LowerChar(c: char): (r: char)
    ensures !IsUpper(r)
    ensures IsUpper(c) ==> IsLower(r) && r as int == c as int + 32
    ensures !IsUpper(c) ==> r == c
  {
    if IsUpper(c) then (c as int + 32) as char else c
  }

  /** ASCII upper-casing of one character. */
  function UpperChar(c: char): (r: char)
    ensures !IsLower(r)
    ensures IsLower(c) ==> IsUpper(r) && r as int + 32 == c as int
    ensures !IsLower(c) ==> r == c
  {
    if IsLower(c) then (c as int - 32) as char else c
  }

  /** `s.lower()`, restricted to ASCII letters. */
  function Lower(s: string): (r: string)
    ensures |r| == |s|
    ensures forall i :: 0 <= i < |s| ==> r[i] == LowerChar(s[i])
  {
    seq(|s|, i requires 0 <= i < |s| => LowerChar(s[i]))
  }

  predicate IsPrefix(p: string, s: string) {
    |p| <= |s| && s[..|p|] == p
  }

  /** `sub` occurs in `s` starting at index `i`. */
  predicate OccursAt(s: string, sub: string, i: int) {
    0 <= i && i + |sub| <= |s| && s[i..i + |sub|] == sub
  }

  /** Substring search (`sub in s`, or `re.search` with a pattern that has no
      metacharacters). */
  function Contains(s: string, sub: string): (r: bool)
    ensures r <==> exists i :: OccursAt(s, sub, i)
    decreases |s|
  {
    if IsPrefix(sub, s) then
      assert OccursAt(s, sub, 0);
      true
    else if |s| == 0 then
      assert forall i :: !OccursAt(s, sub, i);
      false
    else
      var found := Contains(s[1..], sub);
      assert forall i :: OccursAt(s[1..], sub, i) <==> OccursAt(s, sub, i + 1) by {
        forall i ensures OccursAt(s[1..], sub, i) <==> OccursAt(s, sub, i + 1) {
          if 0 <= i && i + |sub| <= |s| - 1 {
            assert s[1..][i..i + |sub|] == s[i + 1..i + 1 + |sub|];
          }
        }
      }
      assert OccursAt(s, sub, 0) <==> IsPrefix(sub, s);
      assert forall i :: OccursAt(s, sub, i) ==> i == 0 || OccursAt(s[1..], sub, i - 1);
      found
  }

  /** `s.lstrip()`: drops the leading whitespace. */
  function TrimStart(s: string): (r: string)
    ensures |r| <= |s|
    ensures forall i :: 0 <= i < |s| - |r| ==> IsSpace(s[i])
    ensures |r| > 0 ==> !IsSpace(r[0])
  {
    if |s| > 0 && IsSpace(s[0]) then TrimStart(s[1..]) else s
  }

  /** What `lstrip` keeps is a suffix of its input. */
  lemma {:induction false} TrimStartIsSuffix(s: string)
    ensures TrimStart(s) == s[|s| - |TrimStart(s)|..]
    decreases |s|
  {
    if |s| > 0 && IsSpace(s[0]) {
      TrimStartIsSuffix(s[1..]);
    }
  }

  /** `s.rstrip()`: drops the trailing whitespace. */
  function TrimEnd(s: string): (r: string)
    ensures |r| <= |s| && r == s[..|r|]
    ensures forall i :: |r| <= i < |s| ==> IsSpace(s[i])
    ensures |r| > 0 ==> !IsSpace(r[|r| - 1])
  {
    if |s| > 0 && IsSpace(s[|s| - 1]) then TrimEnd(s[..|s| - 1]) else s
  }

  /** `s.strip()`. */
  function Strip(s: string): (r: string)
    ensures |r| > 0 ==> !IsSpace(r[0]) && !IsSpace(r[|r| - 1])
    ensures r == "" <==> forall i :: 0 <= i < |s| ==> IsSpace(s[i])
    ensures |s| > 0 && !IsSpace(s[0]) && !IsSpace(s[|s| - 1]) ==> r == s
  {
    var t := TrimStart(s);
    StripEmptyIffAllSpace(s, t);
    TrimEnd(t)
  }

  lemma StripEmptyIffAllSpace(s: string, t: string)
    requires t == TrimStart(s)
    ensures TrimEnd(t) == "" <==> forall i :: 0 <= i < |s| ==> IsSpace(s[i])
  {
    var k := |s| - |t|;
    TrimStartIsSuffix(s);
    if TrimEnd(t) == "" {
      assert |t| == 0;
    }
    if forall i :: 0 <= i < |s| ==> IsSpace(s[i]) {
      if |t| > 0 {
        assert t[0] == s[k];
      }
    }
  }

  /** Regrouping a concatenation of four parts. */
  lemma ConcatAssoc(p: string, x: string, y: string, z: string)
    ensures p + (x + y + z) == (p + x) + y + z
  {
  }

  /** Text made only of whitespace. */
  predicate AllSpace(w: string) {
    forall i :: 0 <= i < |w| ==> IsSpace(w[i])
  }

  /** `s` is `r` at offset `i`, with only whitespace before and after it. */
  predicate SpaceAround(s: string, r: string, i: int) {
    && 0 <= i && i + |r| <= |s| && s[i..i + |r|] == r
    && AllSpace(s[..i]) && AllSpace(s[i + |r|..])
  }

  /** Where `strip` cuts: the offset of what it keeps. */
  lemma StripOffset(s: string) returns (k: int)
    ensures k == |s| - |TrimStart(s)|
    ensures SpaceAround(s, Strip(s), k)
  {
    var t := TrimStart(s);
    k := |s| - |t|;
    SuffixSpaceAround(s, t, k);
  }

  lemma SuffixSpaceAround(s: string, t: string, k: int)
    requires t == TrimStart(s) && k == |s| - |t|
    ensures SpaceAround(s, TrimEnd(t), k)
  {
    TrimStartIsSuffix(s);
    var r := TrimEnd(t);
    assert t == s[k..];
    assert r == t[..|r|];
    assert s[k..k + |r|] == r;
    var post := s[k + |r|..];
    forall j | 0 <= j < |post| ensures IsSpace(post[j]) {
      assert post[j] == t[|r| + j];
    }
  }

  /** Cutting `s` around `r` gives back `s`. */
  lemma SpaceAroundSplit(s: string, r: string, i: int)
    requires SpaceAround(s, r, i)
    ensures s == s[..i] + (r + s[i + |r|..])
  {
    assert s == s[..i] + s[i..i + |r|] + s[i + |r|..];
  }

  /** `strip` removes outer whitespace and nothing else: what it keeps is a
      contiguous part of the input with only whitespace around it. */
  lemma StripIsInfix(s: string)
    ensures exists i :: SpaceAround(s, Strip(s), i)
  {
    var k := StripOffset(s);
  }

  /** Leading whitespace is dropped from the front of a concatenation when
      the first part has something visible. */
  lemma {:induction false} TrimStartAppend(x: string, y: string)
    requires TrimStart(x) != ""
    ensures TrimStart(x + y) == TrimStart(x) + y
    decreases |x|
  {
    if IsSpace(x[0]) {
      assert (x + y)[1..] == x[1..] + y;
      TrimStartAppend(x[1..], y);
    }
  }

  /** Stripping whitespace off the front of `w + b`, with `w` all whitespace
      and `b` starting with a visible character, leaves `b`. */
  lemma {:induction false} TrimStartAfterSpaces(w: string, b: string)
    requires AllSpace(w)
    requires |b| == 0 || !IsSpace(b[0])
    ensures TrimStart(w + b) == b
    decreases |w|
  {
    if |w| == 0 {
      assert w + b == b;
    } else {
      assert (w + b)[1..] == w[1..] + b;
      TrimStartAfterSpaces(w[1..], b);
    }
  }

  /** Stripping never touches a first character that is not whitespace. */
  lemma StripKeepsFirstChar(s: string)
    requires |s| > 0 && !IsSpace(s[0])
    ensures |Strip(s)| > 0 && Strip(s)[0] == s[0]
  {
    assert TrimStart(s) == s;
    var r := TrimEnd(s);
    assert r == s[..|r|];
  }
}
