/** The input-normalisation step: canonical language codes, collapsed
    whitespace and a hard length limit on the text to translate. */
module NormalizeInput {
  import opened Wrappers
  import opened Strings
  import opened TranslationState

  function Min(a: int, b: int): int { if a <= b then a else b }
  function Max(a: int, b: int): int { if a <= b then b else a }

  // ---------------------------------------------------------------------------
  // Language codes
  // ---------------------------------------------------------------------------

  /** `s.split("-")[0]`: the longest prefix of `s` without a dash. */
  function BeforeDash(s: string): (r: string)
    ensures IsPrefix(r, s)
    ensures '-' !in r
    ensures |r| < |s| ==> s[|r|] == '-'
  {
    if |s| == 0 || s[0] == '-' then "" else [s[0]] + BeforeDash(s[1..])
  }

  /** Canonical language code: stripped, lower-cased, region subtag removed. */
  function NormalizeLang(lang: string): (r: string)
    ensures lang == "" ==> r == ""
    ensures '-' !in r
    ensures forall i :: 0 <= i < |r| ==> !IsUpper(r[i])
    ensures IsPrefix(r, Lower(Strip(lang)))
    ensures |r| < |Lower(Strip(lang))| ==> Lower(Strip(lang))[|r|] == '-'
  {
    if lang == "" then ""
    else
      var l := Lower(Strip(lang));
      if '-' in l then BeforeDash(l) else l
  }

  // ---------------------------------------------------------------------------
  // Whitespace
  // ---------------------------------------------------------------------------

  /** The non-whitespace characters of `s`, in order. */
  function NonSpace(s: string): string {
    if |s| == 0 then ""
    else (if IsSpace(s[0]) then "" else [s[0]]) + NonSpace(s[1..])
  }

  /** Every whitespace character is a plain space, and no two are adjacent. */
  predicate SingleSpaced(s: string) {
    forall i :: 0 <= i < |s| && IsSpace(s[i]) ==>
      s[i] == ' ' && (i + 1 == |s| || !IsSpace(s[i + 1]))
  }

  /** The shape `_normalize_text` produces: single spaces only, none at
      either end. */
  predicate Normalized(s: string) {
    SingleSpaced(s) && (|s| > 0 ==> !IsSpace(s[0]) && !IsSpace(s[|s| - 1]))
  }

  /** Drops the leading newlines of `s`. */
  function DropNewlines(s: string): (r: string)
    ensures |r| <= |s|
    ensures forall i :: 0 <= i < |s| - |r| ==> s[i] == '\n'
    ensures |r| > 0 ==> r[0] != '\n'
  {
    if |s| > 0 && s[0] == '\n' then DropNewlines(s[1..]) else s
  }

  /** No two adjacent newlines. */
  predicate NoNewlineRun(s: string) {
    forall i :: 0 <= i < |s| - 1 ==> !(s[i] == '\n' && s[i + 1] == '\n')
  }

  /** `re.sub(r"\n{2,}", "\n", s)`: every run of newlines becomes one. */
  function CollapseNewlines(s: string): (r: string)
    ensures |r| <= |s|
    ensures r == "" <==> s == ""
    ensures |s| > 0 ==> r[0] == s[0]
    ensures NoNewlineRun(r)
    decreases |s|
  {
    if |s| == 0 then ""
    else if s[0] == '\n' then
      var rest := DropNewlines(s[1..]);
      var tail := CollapseNewlines(rest);
      NoNewlineRunCons('\n', tail);
      "\n" + tail
    else
      var tail := CollapseNewlines(s[1..]);
      NoNewlineRunCons(s[0], tail);
      [s[0]] + tail
  }

  lemma NoNewlineRunCons(c: char, t: string)
    requires NoNewlineRun(t)
    requires c == '\n' ==> |t| == 0 || t[0] != '\n'
    ensures NoNewlineRun([c] + t)
  {
    var s := [c] + t;
    forall i | 0 <= i < |s| - 1 ensures !(s[i] == '\n' && s[i + 1] == '\n') {
      assert s[i + 1] == t[i];
      if i > 0 {
        assert s[i] == t[i - 1];
      }
    }
  }

  /** Text made only of newlines. */
  predicate AllNewlines(w: string) {
    forall i :: 0 <= i < |w| ==> w[i] == '\n'
  }

  /** What `DropNewlines` keeps is a suffix of its input. */
  lemma {:induction false} DropNewlinesIsSuffix(s: string)
    ensures DropNewlines(s) == s[|s| - |DropNewlines(s)|..]
    decreases |s|
  {
    if |s| > 0 && s[0] == '\n' {
      DropNewlinesIsSuffix(s[1..]);
    }
  }

  lemma {:induction false} DropNewlinesAppend(x: string, y: string)
    requires DropNewlines(x) != ""
    ensures DropNewlines(x + y) == DropNewlines(x) + y
    decreases |x|
  {
    if x[0] == '\n' {
      assert (x + y)[1..] == x[1..] + y;
      DropNewlinesAppend(x[1..], y);
    }
  }

  lemma {:induction false} DropNewlinesAfterNewlines(w: string, b: string)
    requires AllNewlines(w)
    requires |b| == 0 || b[0] != '\n'
    ensures DropNewlines(w + b) == b
    decreases |w|
  {
    if |w| == 0 {
      assert w + b == b;
    } else {
      assert (w + b)[1..] == w[1..] + b;
      DropNewlinesAfterNewlines(w[1..], b);
    }
  }

  /** A run of newlines between two other characters becomes exactly one
      newline, and the text on either side is collapsed on its own. */
  lemma {:induction false} CollapseNewlinesJoin(a: string, w: string, b: string)
    requires |w| > 0 && AllNewlines(w)
    requires |a| == 0 || a[|a| - 1] != '\n'
    requires |b| == 0 || b[0] != '\n'
    ensures CollapseNewlines(a + w + b) == CollapseNewlines(a) + "\n" + CollapseNewlines(b)
    decreases |a|
  {
    if |a| == 0 {
      assert a + w + b == w + b;
      assert (w + b)[1..] == w[1..] + b;
      DropNewlinesAfterNewlines(w[1..], b);
    } else if a[0] != '\n' {
      CollapseNewlinesJoin(a[1..], w, b);
      CollapseNewlinesConsVisible(a, w, b);
    } else {
      DropNewlinesLast(a);
      CollapseNewlinesJoin(DropNewlines(a[1..]), w, b);
      CollapseNewlinesConsNewline(a, w, b);
    }
  }

  /** The join step at a visible first character. */
  lemma CollapseNewlinesConsVisible(a: string, w: string, b: string)
    requires |a| > 0 && a[0] != '\n'
    requires CollapseNewlines(a[1..] + w + b) == CollapseNewlines(a[1..]) + "\n" + CollapseNewlines(b)
    ensures CollapseNewlines(a + w + b) == CollapseNewlines(a) + "\n" + CollapseNewlines(b)
  {
    var s := a + w + b;
    ConcatHead(a, w, b);
    CollapseNewlinesVisibleHead(s);
    CollapseNewlinesVisibleHead(a);
    ConcatAssoc([a[0]], CollapseNewlines(a[1..]), "\n", CollapseNewlines(b));
  }

  /** The join step at a leading newline, when `a` has something after its
      leading newlines. */
  lemma CollapseNewlinesConsNewline(a: string, w: string, b: string)
    requires |a| > 0 && a[0] == '\n' && DropNewlines(a[1..]) != ""
    requires var t := DropNewlines(a[1..]);
      CollapseNewlines(t + w + b) == CollapseNewlines(t) + "\n" + CollapseNewlines(b)
    ensures CollapseNewlines(a + w + b) == CollapseNewlines(a) + "\n" + CollapseNewlines(b)
  {
    var t := DropNewlines(a[1..]);
    var s := a + w + b;
    ConcatHead(a, w, b);
    DropNewlinesAppend(a[1..], w + b);
    ConcatHead3(t, w, b);
    CollapseNewlinesNewlineHead(s);
    CollapseNewlinesNewlineHead(a);
    ConcatAssoc("\n", CollapseNewlines(t), "\n", CollapseNewlines(b));
  }

  lemma CollapseNewlinesVisibleHead(s: string)
    requires |s| > 0 && s[0] != '\n'
    ensures CollapseNewlines(s) == [s[0]] + CollapseNewlines(s[1..])
  {
  }

  lemma CollapseNewlinesNewlineHead(s: string)
    requires |s| > 0 && s[0] == '\n'
    ensures CollapseNewlines(s) == "\n" + CollapseNewlines(DropNewlines(s[1..]))
  {
  }

  /** A text that starts with a newline and ends with something else keeps
      its last character once the leading newlines are dropped. */
  lemma DropNewlinesLast(a: string)
    requires |a| > 0 && a[0] == '\n' && a[|a| - 1] != '\n'
    ensures var t := DropNewlines(a[1..]); |t| > 0 && t[|t| - 1] == a[|a| - 1]
  {
    var t := DropNewlines(a[1..]);
    DropNewlinesIsSuffix(a[1..]);
    assert |a| >= 2;
    assert a[1..][|a| - 2] == a[|a| - 1];
  }

  /** Text without two adjacent newlines is left unchanged. */
  lemma {:induction false} CollapseNewlinesKeepsRunFree(s: string)
    requires NoNewlineRun(s)
    ensures CollapseNewlines(s) == s
    decreases |s|
  {
    if |s| > 0 {
      assert NoNewlineRun(s[1..]) by {
        forall i | 0 <= i < |s| - 2 ensures !(s[1..][i] == '\n' && s[1..][i + 1] == '\n') {
          assert s[1..][i] == s[i + 1] && s[1..][i + 1] == s[i + 2];
        }
      }
      CollapseNewlinesKeepsRunFree(s[1..]);
      if s[0] == '\n' {
        assert |s| == 1 || s[1] != '\n';
        assert DropNewlines(s[1..]) == s[1..];
      }
      assert s == [s[0]] + s[1..];
    }
  }

  /** `re.sub(r"\s+", " ", s)`: every run of whitespace becomes one space. */
  function CollapseSpaces(s: string): (r: string)
    ensures r == "" <==> s == ""
    ensures |s| > 0 && IsSpace(s[0]) ==> r[0] == ' '
    ensures |s| > 0 && !IsSpace(s[0]) ==> r[0] == s[0]
    ensures |s| > 0 && !IsSpace(s[|s| - 1]) ==> !IsSpace(r[|r| - 1])
    ensures SingleSpaced(r)
    decreases |s|
  {
    if |s| == 0 then ""
    else if IsSpace(s[0]) then
      var rest := TrimStart(s[1..]);
      var tail := CollapseSpaces(rest);
      SingleSpacedCons(' ', tail);
      TrimStartIsSuffix(s[1..]);
      assert !IsSpace(s[|s| - 1]) ==> |rest| > 0 && rest[|rest| - 1] == s[|s| - 1];
      " " + tail
    else
      var tail := CollapseSpaces(s[1..]);
      SingleSpacedCons(s[0], tail);
      [s[0]] + tail
  }

  /** A run of whitespace between two visible characters becomes exactly one
      space, and the text on either side is collapsed on its own. */
  lemma {:induction false} CollapseSpacesJoin(a: string, w: string, b: string)
    requires |w| > 0 && AllSpace(w)
    requires |a| == 0 || !IsSpace(a[|a| - 1])
    requires |b| == 0 || !IsSpace(b[0])
    ensures CollapseSpaces(a + w + b) == CollapseSpaces(a) + " " + CollapseSpaces(b)
    decreases |a|
  {
    if |a| == 0 {
      assert a + w + b == w + b;
      assert (w + b)[1..] == w[1..] + b;
      TrimStartAfterSpaces(w[1..], b);
    } else if !IsSpace(a[0]) {
      CollapseSpacesJoin(a[1..], w, b);
      CollapseSpacesConsVisible(a, w, b);
    } else {
      TrimStartLast(a);
      CollapseSpacesJoin(TrimStart(a[1..]), w, b);
      CollapseSpacesConsSpace(a, w, b);
    }
  }

  /** The join step at a visible first character. */
  lemma CollapseSpacesConsVisible(a: string, w: string, b: string)
    requires |a| > 0 && !IsSpace(a[0])
    requires CollapseSpaces(a[1..] + w + b) == CollapseSpaces(a[1..]) + " " + CollapseSpaces(b)
    ensures CollapseSpaces(a + w + b) == CollapseSpaces(a) + " " + CollapseSpaces(b)
  {
    var s := a + w + b;
    ConcatHead(a, w, b);
    CollapseSpacesVisibleHead(s);
    CollapseSpacesVisibleHead(a);
    ConcatAssoc([a[0]], CollapseSpaces(a[1..]), " ", CollapseSpaces(b));
  }

  /** The join step at leading whitespace, when `a` has something visible. */
  lemma CollapseSpacesConsSpace(a: string, w: string, b: string)
    requires |a| > 0 && IsSpace(a[0]) && TrimStart(a[1..]) != ""
    requires var t := TrimStart(a[1..]);
      CollapseSpaces(t + w + b) == CollapseSpaces(t) + " " + CollapseSpaces(b)
    ensures CollapseSpaces(a + w + b) == CollapseSpaces(a) + " " + CollapseSpaces(b)
  {
    var t := TrimStart(a[1..]);
    var s := a + w + b;
    ConcatHead(a, w, b);
    TrimStartAppend(a[1..], w + b);
    ConcatHead3(t, w, b);
    CollapseSpacesSpaceHead(s);
    CollapseSpacesSpaceHead(a);
    ConcatAssoc(" ", CollapseSpaces(t), " ", CollapseSpaces(b));
  }

  lemma ConcatHead(a: string, w: string, b: string)
    requires |a| > 0
    ensures (a + w + b)[0] == a[0]
    ensures (a + w + b)[1..] == a[1..] + w + b
    ensures (a + w + b)[1..] == a[1..] + (w + b)
  {
  }

  lemma ConcatHead3(t: string, w: string, b: string)
    ensures t + (w + b) == t + w + b
  {
  }

  lemma CollapseSpacesVisibleHead(s: string)
    requires |s| > 0 && !IsSpace(s[0])
    ensures CollapseSpaces(s) == [s[0]] + CollapseSpaces(s[1..])
  {
  }

  lemma CollapseSpacesSpaceHead(s: string)
    requires |s| > 0 && IsSpace(s[0])
    ensures CollapseSpaces(s) == " " + CollapseSpaces(TrimStart(s[1..]))
  {
  }

  /** Text that starts with whitespace and ends with a visible character keeps
      that character once the leading whitespace is dropped. */
  lemma TrimStartLast(a: string)
    requires |a| > 0 && IsSpace(a[0]) && !IsSpace(a[|a| - 1])
    ensures var t := TrimStart(a[1..]); |t| > 0 && t[|t| - 1] == a[|a| - 1]
  {
    TrimStartIsSuffix(a[1..]);
    assert |a| >= 2;
    assert a[1..][|a| - 2] == a[|a| - 1];
  }

  /** Collapsing whitespace keeps every visible character, in order. */
  lemma {:induction false} CollapseSpacesKeepsNonSpace(s: string)
    ensures NonSpace(CollapseSpaces(s)) == NonSpace(s)
    decreases |s|
  {
    if |s| > 0 {
      if IsSpace(s[0]) {
        var tail := CollapseSpaces(TrimStart(s[1..]));
        CollapseSpacesKeepsNonSpace(TrimStart(s[1..]));
        NonSpaceTrimStart(s[1..]);
        NonSpaceCons(' ', tail);
      } else {
        var tail := CollapseSpaces(s[1..]);
        CollapseSpacesKeepsNonSpace(s[1..]);
        NonSpaceCons(s[0], tail);
      }
    }
  }

  lemma NonSpaceCons(c: char, t: string)
    ensures NonSpace([c] + t) == (if IsSpace(c) then "" else [c]) + NonSpace(t)
  {
    assert ([c] + t)[1..] == t;
  }

  lemma SingleSpacedCons(c: char, t: string)
    requires SingleSpaced(t)
    requires IsSpace(c) ==> c == ' ' && (|t| == 0 || !IsSpace(t[0]))
    ensures SingleSpaced([c] + t)
  {
    var s := [c] + t;
    forall i | 0 <= i < |s| && IsSpace(s[i])
      ensures s[i] == ' ' && (i + 1 == |s| || !IsSpace(s[i + 1]))
    {
      if i > 0 {
        assert s[i] == t[i - 1];
        if i + 1 < |s| {
          assert s[i + 1] == t[i];
        }
      }
    }
  }

  lemma {:induction false} NonSpaceTrimStart(s: string)
    ensures NonSpace(TrimStart(s)) == NonSpace(s)
    decreases |s|
  {
    if |s| > 0 && IsSpace(s[0]) {
      NonSpaceTrimStart(s[1..]);
    }
  }

  /** `_normalize_text`: strip, collapse newline runs, collapse whitespace
      runs. */
  function NormalizeText(text: string): (r: string)
    ensures text == "" ==> r == ""
    ensures Normalized(r)
    ensures NonSpace(r) == NonSpace(text)
  {
    if text == "" then ""
    else
      var stripped := Strip(text);
      NewlineCollapseSubsumed(stripped);
      NonSpaceStrip(text);
      CollapseSpacesKeepsNonSpace(stripped);
      CollapseSpaces(CollapseNewlines(stripped))
  }

  lemma {:induction false} NonSpaceConcat(a: string, b: string)
    ensures NonSpace(a + b) == NonSpace(a) + NonSpace(b)
    decreases |a|
  {
    if |a| > 0 {
      NonSpaceConcat(a[1..], b);
      assert (a + b)[1..] == a[1..] + b;
    } else {
      assert a + b == b;
    }
  }

  lemma {:induction false} NonSpaceTrimEnd(s: string)
    ensures NonSpace(TrimEnd(s)) == NonSpace(s)
    decreases |s|
  {
    if |s| > 0 && IsSpace(s[|s| - 1]) {
      var init := s[..|s| - 1];
      NonSpaceTrimEnd(init);
      assert s == init + [s[|s| - 1]];
      NonSpaceConcat(init, [s[|s| - 1]]);
    }
  }

  lemma NonSpaceStrip(s: string)
    ensures NonSpace(Strip(s)) == NonSpace(s)
  {
    NonSpaceTrimStart(s);
    NonSpaceTrimEnd(TrimStart(s));
  }

  /** Leading whitespace is removed the same way before and after the
      newline collapse. */
  lemma {:induction false} TrimStartCommutesWithCollapseNewlines(s: string)
    ensures TrimStart(CollapseNewlines(s)) == CollapseNewlines(TrimStart(s))
    decreases |s|
  {
    if |s| == 0 {
    } else if !IsSpace(s[0]) {
    } else if s[0] != '\n' {
      var tail := CollapseNewlines(s[1..]);
      assert ([s[0]] + tail)[1..] == tail;
      TrimStartCommutesWithCollapseNewlines(s[1..]);
    } else {
      var rest := DropNewlines(s[1..]);
      var tail := CollapseNewlines(rest);
      assert ("\n" + tail)[1..] == tail;
      TrimStartCommutesWithCollapseNewlines(rest);
      TrimStartDropNewlines(s[1..]);
    }
  }

  lemma {:induction false} TrimStartDropNewlines(s: string)
    ensures TrimStart(DropNewlines(s)) == TrimStart(s)
    decreases |s|
  {
    if |s| > 0 && s[0] == '\n' {
      assert IsSpace(s[0]);
      TrimStartDropNewlines(s[1..]);
    }
  }

  /** The newline-collapsing pass is redundant: collapsing all whitespace
      runs already turns every newline run into one space. */
  lemma {:induction false} NewlineCollapseSubsumed(s: string)
    ensures CollapseSpaces(CollapseNewlines(s)) == CollapseSpaces(s)
    decreases |s|
  {
    if |s| == 0 {
    } else if !IsSpace(s[0]) {
      NewlineCollapseSubsumed(s[1..]);
    } else if s[0] != '\n' {
      var tail := CollapseNewlines(s[1..]);
      assert ([s[0]] + tail)[1..] == tail;
      TrimStartCommutesWithCollapseNewlines(s[1..]);
      NewlineCollapseSubsumed(TrimStart(s[1..]));
    } else {
      var rest := DropNewlines(s[1..]);
      var tail := CollapseNewlines(rest);
      assert ("\n" + tail)[1..] == tail;
      TrimStartCommutesWithCollapseNewlines(rest);
      TrimStartDropNewlines(s[1..]);
      NewlineCollapseSubsumed(TrimStart(s[1..]));
    }
  }

  lemma {:induction false} CollapseNewlinesWithoutNewline(s: string)
    requires '\n' !in s
    ensures CollapseNewlines(s) == s
    decreases |s|
  {
    if |s| > 0 {
      CollapseNewlinesWithoutNewline(s[1..]);
    }
  }

  /** Single-spaced text is left unchanged by the whitespace collapse. */
  lemma {:induction false} CollapseSpacesSingleSpaced(s: string)
    requires SingleSpaced(s)
    ensures CollapseSpaces(s) == s
    decreases |s|
  {
    if |s| > 0 {
      var t := s[1..];
      SingleSpacedTail(s);
      CollapseSpacesSingleSpaced(t);
      assert s == [s[0]] + t;
      if IsSpace(s[0]) {
        assert s[0] == ' ';
        assert |t| == 0 || !IsSpace(t[0]) by {
          if |t| > 0 {
            assert t[0] == s[1];
          }
        }
        assert TrimStart(t) == t;
        assert CollapseSpaces(s) == " " + CollapseSpaces(t);
      } else {
        assert CollapseSpaces(s) == [s[0]] + CollapseSpaces(t);
      }
    }
  }

  lemma SingleSpacedTail(s: string)
    requires SingleSpaced(s) && |s| > 0
    ensures SingleSpaced(s[1..])
  {
    var t := s[1..];
    forall i | 0 <= i < |t| && IsSpace(t[i])
      ensures t[i] == ' ' && (i + 1 == |t| || !IsSpace(t[i + 1]))
    {
      assert t[i] == s[i + 1];
      if i + 1 < |t| {
        assert t[i + 1] == s[i + 2];
      }
    }
  }

  /** Normalising already-normalised text changes nothing. */
  lemma NormalizedIsFixedPoint(s: string)
    requires Normalized(s)
    ensures NormalizeText(s) == s
  {
    if s != "" {
      assert Strip(s) == s;
      assert '\n' !in s by {
        forall i | 0 <= i < |s| ensures s[i] != '\n' {
          if s[i] == '\n' {
            assert IsSpace(s[i]);
          }
        }
      }
      CollapseNewlinesWithoutNewline(s);
      CollapseSpacesSingleSpaced(s);
    }
  }

  /** `_normalize_text` is idempotent. */
  lemma NormalizeTextIdempotent(text: string)
    ensures NormalizeText(NormalizeText(text)) == NormalizeText(text)
  {
    NormalizedIsFixedPoint(NormalizeText(text));
  }

  // ---------------------------------------------------------------------------
  // Words: an independent description of the normal form
  // ---------------------------------------------------------------------------

  /** The longest prefix of `s` without whitespace. */
  function FirstWord(s: string): (r: string)
    ensures IsPrefix(r, s)
    ensures forall i :: 0 <= i < |r| ==> !IsSpace(r[i])
    ensures |r| < |s| ==> IsSpace(s[|r|])
    decreases |s|
  {
    if |s| == 0 || IsSpace(s[0]) then ""
    else
      var rest := FirstWord(s[1..]);
      assert s[..|rest| + 1] == [s[0]] + s[1..][..|rest|];
      [s[0]] + rest
  }

  /** `s.split()`: the maximal runs of visible characters, in order. */
  function Words(s: string): seq<string>
    decreases |s|
  {
    if |s| == 0 then []
    else if IsSpace(s[0]) then Words(s[1..])
    else
      var w := FirstWord(s);
      [w] + Words(s[|w|..])
  }

  /** `" ".join(words)`. */
  function JoinSpaced(words: seq<string>): string {
    if |words| == 0 then ""
    else if |words| == 1 then words[0]
    else words[0] + " " + JoinSpaced(words[1..])
  }

  /** Whitespace in front of the text adds no word. */
  lemma {:induction false} WordsAfterSpaces(w: string, x: string)
    requires AllSpace(w)
    ensures Words(w + x) == Words(x)
    decreases |w|
  {
    if |w| == 0 {
      assert w + x == x;
    } else {
      assert (w + x)[1..] == w[1..] + x;
      WordsAfterSpaces(w[1..], x);
    }
  }

  /** A word is not extended by what follows a whitespace character. */
  lemma {:induction false} FirstWordAppend(x: string, y: string)
    requires |FirstWord(x)| < |x| || |y| == 0 || IsSpace(y[0])
    ensures FirstWord(x + y) == FirstWord(x)
    decreases |x|
  {
    if |x| == 0 {
      assert x + y == y;
    } else if !IsSpace(x[0]) {
      assert (x + y)[1..] == x[1..] + y;
      FirstWordAppend(x[1..], y);
    }
  }

  /** Whitespace after the text adds no word. */
  lemma {:induction false} WordsBeforeSpaces(x: string, w: string)
    requires AllSpace(w)
    ensures Words(x + w) == Words(x)
    decreases |x|
  {
    if |x| == 0 {
      assert x + w == w + "";
      WordsAfterSpaces(w, "");
    } else if IsSpace(x[0]) {
      assert (x + w)[1..] == x[1..] + w;
      WordsBeforeSpaces(x[1..], w);
    } else {
      var v := FirstWord(x);
      FirstWordAppend(x, w);
      assert (x + w)[|v|..] == x[|v|..] + w;
      WordsBeforeSpaces(x[|v|..], w);
    }
  }

  /** Text without outer whitespace collapses to its words joined by single
      spaces. */
  lemma {:induction false} CollapseSpacesJoinsWords(t: string)
    requires |t| == 0 || (!IsSpace(t[0]) && !IsSpace(t[|t| - 1]))
    ensures CollapseSpaces(t) == JoinSpaced(Words(t))
    decreases |t|
  {
    if |t| > 0 {
      var v := FirstWord(t);
      if |v| == |t| {
        SingleWord(t);
      } else {
        var sp, b := SplitAfterFirstWord(t);
        CollapseSpacesJoin(v, sp, b);
        CollapseSpacesJoinsWords(b);
        SingleWord(v);
        JoinSpacedCons(v, Words(b));
      }
    }
  }

  /** Text without whitespace is one word and is left unchanged by the
      collapse. */
  lemma SingleWord(t: string)
    requires |t| > 0 && |FirstWord(t)| == |t|
    ensures Words(t) == [t]
    ensures CollapseSpaces(t) == t
  {
    assert FirstWord(t) == t;
    assert t[|t|..] == "";
    assert SingleSpaced(t);
    CollapseSpacesSingleSpaced(t);
  }

  /** Text without outer whitespace and with more than one word splits into
      its first word, a whitespace run and the remaining words. */
  lemma SplitAfterFirstWord(t: string) returns (sp: string, b: string)
    requires |t| > 0 && !IsSpace(t[0]) && !IsSpace(t[|t| - 1])
    requires |FirstWord(t)| < |t|
    ensures t == FirstWord(t) + sp + b
    ensures |sp| > 0 && AllSpace(sp)
    ensures |b| > 0 && !IsSpace(b[0]) && !IsSpace(b[|b| - 1]) && |b| < |t|
    ensures Words(t) == [FirstWord(t)] + Words(b)
    ensures Words(b) != []
  {
    var v := FirstWord(t);
    var rest := t[|v|..];
    assert t == v + rest;
    sp, b := SplitSpaces(rest, t[|t| - 1]);
    assert Words(t) == [v] + Words(rest);
    WordsAfterSpaces(sp, b);
  }

  /** Text that starts with whitespace and ends with a visible character is
      a whitespace run followed by text without outer whitespace. */
  lemma SplitSpaces(rest: string, last: char) returns (sp: string, b: string)
    requires |rest| > 0 && IsSpace(rest[0]) && rest[|rest| - 1] == last && !IsSpace(last)
    ensures rest == sp + b
    ensures |sp| > 0 && AllSpace(sp)
    ensures |b| > 0 && !IsSpace(b[0]) && b[|b| - 1] == last && |b| < |rest|
  {
    b := TrimStart(rest);
    TrimStartIsSuffix(rest);
    sp := rest[..|rest| - |b|];
    assert rest == sp + b;
  }

  lemma JoinSpacedCons(v: string, words: seq<string>)
    requires words != []
    ensures JoinSpaced([v] + words) == v + " " + JoinSpaced(words)
  {
    assert ([v] + words)[1..] == words;
  }

  /** `_normalize_text` agrees with Python's `" ".join(text.split())`: the
      words of the text in order, separated by single spaces. */
  lemma NormalizeTextJoinsWords(text: string)
    ensures NormalizeText(text) == JoinSpaced(Words(text))
  {
    var t := Strip(text);
    CollapseSpacesJoinsWords(t);
    NormalizeTextCollapsesStripped(text);
    WordsOfStrip(text);
  }

  lemma NormalizeTextCollapsesStripped(text: string)
    ensures NormalizeText(text) == CollapseSpaces(Strip(text))
  {
    NewlineCollapseSubsumed(Strip(text));
  }

  /** Stripping removes no word. */
  lemma WordsOfStrip(text: string)
    ensures Words(Strip(text)) == Words(text)
  {
    var t := Strip(text);
    var k := StripOffset(text);
    SpaceAroundSplit(text, t, k);
    WordsAfterSpaces(text[..k], t + text[k + |t|..]);
    WordsBeforeSpaces(t, text[k + |t|..]);
  }

  // ---------------------------------------------------------------------------
  // Length limit
  // ---------------------------------------------------------------------------

  /** Python's `s[:stop]`: a negative stop counts back from the end. */
  function SliceTo(s: string, stop: int): (r: string)
    ensures IsPrefix(r, s)
    ensures stop >= 0 ==> |r| == Min(stop, |s|)
    ensures stop < 0 ==> |r| == Max(0, |s| + stop)
  {
    if stop >= |s| then s
    else if stop >= 0 then s[..stop]
    else if |s| + stop > 0 then s[..|s| + stop]
    else ""
  }

  /** `_limit_length`: hard cut to at most `maxLength` characters. */
  function LimitLength(maxLength: int, text: string): (r: string)
    ensures IsPrefix(r, text)
    ensures maxLength >= 0 ==> |r| == Min(maxLength, |text|)
    ensures |text| <= maxLength ==> r == text
    ensures maxLength < 0 ==> |r| == Max(0, |text| + maxLength)
  {
    if |text| <= maxLength then text else SliceTo(text, maxLength)
  }

  lemma PrefixKeepsSingleSpaced(p: string, s: string)
    requires SingleSpaced(s) && IsPrefix(p, s)
    ensures SingleSpaced(p)
  {
    forall i | 0 <= i < |p| && IsSpace(p[i])
      ensures p[i] == ' ' && (i + 1 == |p| || !IsSpace(p[i + 1]))
    {
      assert p[i] == s[i];
      if i + 1 < |p| {
        assert p[i + 1] == s[i + 1];
      }
    }
  }

  /** The step itself. `lengthArgument` is the method's own parameter, which
      the body never reads: the limit comes from the state. */
  function Run(lengthArgument: int, s: State): (r: State)
    ensures r == s.(sourceLanguage := NormalizeLang(s.sourceLanguage),
                    targetLanguage := NormalizeLang(s.targetLanguage),
                    normalizedText := r.normalizedText)
    ensures IsPrefix(r.normalizedText, NormalizeText(s.text))
    ensures s.maxInputLength >= 0 ==>
      |r.normalizedText| == Min(s.maxInputLength, |NormalizeText(s.text)|)
    ensures s.maxInputLength >= 0 ==> |r.normalizedText| <= s.maxInputLength
    ensures s.maxInputLength < 0 ==>
      |r.normalizedText| == Max(0, |NormalizeText(s.text)| + s.maxInputLength)
    ensures SingleSpaced(r.normalizedText)
    ensures |r.normalizedText| > 0 ==> !IsSpace(r.normalizedText[0])
    ensures NonSpace(s.text) == "" ==> r.normalizedText == ""
  {
    var text := NormalizeText(s.text);
    var limited := LimitLength(s.maxInputLength, text);
    PrefixKeepsSingleSpaced(limited, text);
    NormalizedWithoutContent(text);
    s.(sourceLanguage := NormalizeLang(s.sourceLanguage),
       targetLanguage := NormalizeLang(s.targetLanguage),
       normalizedText := limited)
  }

  /** Normalised text with no visible character is empty. */
  lemma NormalizedWithoutContent(s: string)
    requires Normalized(s)
    ensures NonSpace(s) == "" ==> s == ""
  {
    if s != "" {
      assert NonSpace(s) == [s[0]] + NonSpace(s[1..]);
    }
  }

  /** The step's explicit length parameter has no effect on its result. */
  lemma RunIgnoresLengthArgument(a: int, b: int, s: State)
    ensures Run(a, s) == Run(b, s)
  {
  }
}
