/** The quality-check step: two structural checks on the translation, a
    prompt-leak test and a numeric/URL fidelity test, run in that order. */
module QualityCheck {
  import opened Wrappers
  import opened Strings
  import opened TokenOrder
  import opened TranslationState

  const LeakFound: string := "번역 결과에 프롬프트가 포함되어 있습니다."
  const NumbersMismatch: string := "변역 결과에 누락된 숫자 데이터가 포함되어 있습니다."

  /** Tell-tale phrases of a backend echoing its own instructions. None has
      a regular-expression metacharacter, so a search is a substring test. */
  const PromptPatterns: seq<string> := ["translation:", "output:", "result:"]

  /** Numbers (integer or decimal, optional percent sign) and URLs. */
  const NumberPatterns: seq<string> := [@"\b\d+(?:\.\d+)?%?\b", @"https?://[^\s]+"]

  /** No phrase of the list occurs in `text`. */
  function NoneOccurs(phrases: seq<string>, text: string): (ok: bool)
    ensures ok <==> forall i :: 0 <= i < |phrases| ==> !Contains(text, phrases[i])
  {
    if |phrases| == 0 then true
    else if Contains(text, phrases[0]) then false
    else
      var rest := NoneOccurs(phrases[1..], text);
      assert forall i :: 1 <= i < |phrases| ==> phrases[i] == phrases[1..][i - 1];
      rest
  }

  /** `_check_prompt_patterns`: true when the lower-cased translation holds
      none of the three phrases. */
  function CheckPromptPatterns(translated: string): (ok: bool)
    ensures !ok <==> || Contains(Lower(translated), "translation:")
                     || Contains(Lower(translated), "output:")
                     || Contains(Lower(translated), "result:")
  {
    var ok := NoneOccurs(PromptPatterns, Lower(translated));
    assert PromptPatterns[0] == "translation:" && PromptPatterns[1] == "output:"
        && PromptPatterns[2] == "result:";
    ok
  }

  /** For each pattern in turn, the two token lists `findall` extracts agree in
      count and in sorted order; the first disagreement answers false. */
  function TokensAgree(findall: (string, string) -> seq<string>, patterns: seq<string>,
                       source: string, translated: string): (ok: bool)
    ensures ok <==> forall i :: 0 <= i < |patterns| ==>
              multiset(findall(patterns[i], source)) == multiset(findall(patterns[i], translated))
  {
    if |patterns| == 0 then true
    else
      var src := findall(patterns[0], source);
      var tgt := findall(patterns[0], translated);
      SortEqualIffSameTokens(src, tgt);
      if |src| != |tgt| then
        assert |multiset(src)| != |multiset(tgt)|;
        false
      else if Sort(src) != Sort(tgt) then false
      else
        var rest := TokensAgree(findall, patterns[1..], source, translated);
        assert forall i :: 1 <= i < |patterns| ==> patterns[i] == patterns[1..][i - 1];
        rest
  }

  /** `_check_number_patterns`, with the regular-expression `findall` left
      abstract. */
  function CheckNumberPatterns(findall: (string, string) -> seq<string>,
                               source: string, translated: string): (ok: bool)
    ensures ok <==> forall i :: 0 <= i < |NumberPatterns| ==>
              multiset(findall(NumberPatterns[i], source)) == multiset(findall(NumberPatterns[i], translated))
  {
    TokensAgree(findall, NumberPatterns, source, translated)
  }

  /** The fidelity check accepts a text against itself. */
  lemma CheckNumberPatternsReflexive(findall: (string, string) -> seq<string>, text: string)
    ensures CheckNumberPatterns(findall, text, text)
  {
  }

  /** The fidelity check does not care which text is the source. */
  lemma CheckNumberPatternsSymmetric(findall: (string, string) -> seq<string>, a: string, b: string)
    ensures CheckNumberPatterns(findall, a, b) == CheckNumberPatterns(findall, b, a)
  {
  }

  /** Multiplicity matters: a translation whose numbers are the source's plus
      one more (a duplicated number, say) fails the check. */
  lemma CheckNumberPatternsCountsDuplicates(findall: (string, string) -> seq<string>,
                                            source: string, translated: string, extra: string)
    requires findall(NumberPatterns[0], translated) == findall(NumberPatterns[0], source) + [extra]
    ensures !CheckNumberPatterns(findall, source, translated)
  {
    var src := findall(NumberPatterns[0], source);
    assert multiset(src + [extra]) == multiset(src) + multiset{extra};
    assert multiset(src) != multiset(src) + multiset{extra};
  }

  /** `QualityCheckNode.run`: a leak fails first, then a token mismatch;
      otherwise the verdict is YES and the error is left as it was. */
  function Run(findall: (string, string) -> seq<string>, s: State): (r: State)
    ensures r == s.(qcPassed := r.qcPassed, error := r.error)
    ensures r.qcPassed in {"YES", "NO"}
    ensures r.qcPassed == "YES" <==>
              && CheckPromptPatterns(s.translatedText)
              && forall i :: 0 <= i < |NumberPatterns| ==>
                   multiset(findall(NumberPatterns[i], s.normalizedText))
                     == multiset(findall(NumberPatterns[i], s.translatedText))
    ensures r.qcPassed == "YES" ==> r.error == s.error
    ensures !CheckPromptPatterns(s.translatedText) ==> r.error == Some(LeakFound)
    ensures CheckPromptPatterns(s.translatedText) && r.qcPassed == "NO" ==>
              r.error == Some(NumbersMismatch)
  {
    if !CheckPromptPatterns(s.translatedText) then
      s.(error := Some(LeakFound), qcPassed := "NO")
    else if !CheckNumberPatterns(findall, s.normalizedText, s.translatedText) then
      s.(error := Some(NumbersMismatch), qcPassed := "NO")
    else
      s.(qcPassed := "YES")
  }

  /** A leaking translation is rejected without looking at its tokens: the
      result is the same whatever the extractor does. */
  lemma LeakDecidesAlone(f1: (string, string) -> seq<string>, f2: (string, string) -> seq<string>,
                         s: State)
    requires !CheckPromptPatterns(s.translatedText)
    ensures Run(f1, s) == Run(f2, s)
  {
  }
}
