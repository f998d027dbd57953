/** The safety-classification step: a rule-based classifier that answers with
    a single letter, and the single-choice parser that turns that letter into
    a safety route. */
module SafeguardClassify {
  import opened Strings
  import opened TranslationState

  /** The routes a label can take. */
  datatype Route = Safe | Pii | Harmful | PromptInjection | Unknown {
    /** The label string stored in the state. */
    function Value(): string {
      match this
      case Safe => "SAFE"
      case Pii => "PII"
      case Harmful => "HARMFUL"
      case PromptInjection => "PROMPT_INJECTION"
      case Unknown => "UNKNOWN"
    }
  }

  /** Why a label could not be parsed. */
  datatype ParseError = NoError | EmptyOutput | InvalidLabel {
    /** The message stored in the state. */
    function Value(): string {
      match this
      case NoError => "오류 없음"
      case EmptyOutput => "응답이 비어 있습니다"
      case InvalidLabel => "허용되지 않은 라벨입니다"
    }
  }

  /** The four labels the classifier may write after a successful parse. */
  predicate IsParsedLabel(name: string) {
    name in {"SAFE", "PII", "HARMFUL", "PROMPT_INJECTION"}
  }

  /** The choice letter of each known route. */
  function Letter(r: Route): char
    requires r != Unknown
  {
    match r
    case Safe => 'A'
    case Pii => 'B'
    case Harmful => 'C'
    case PromptInjection => 'D'
  }

  /** The letter-to-route table of the parser; letters outside it are
      invalid. */
  function RouteOfLetter(c: char): (r: Route)
    ensures r != Unknown <==> c in "ABCD"
    ensures r != Unknown ==> Letter(r) == c
  {
    match c
    case 'A' => Safe
    case 'B' => Pii
    case 'C' => Harmful
    case 'D' => PromptInjection
    case _ => Unknown
  }

  /** `SafeguardRouter.parse`: strip, reject empty output, then route on the
      upper-cased first character alone. */
  function Parse(raw: string): (r: (Route, ParseError))
    ensures Strip(raw) == "" ==> r == (Unknown, EmptyOutput)
    ensures r.1 == EmptyOutput <==> Strip(raw) == ""
    ensures r.0 == Unknown <==> r.1 != NoError
    ensures r.1 == InvalidLabel <==> Strip(raw) != "" && UpperChar(Strip(raw)[0]) !in "ABCD"
    ensures r.0 != Unknown ==> Strip(raw) != "" && Letter(r.0) == UpperChar(Strip(raw)[0])
  {
    var cleaned := Strip(raw);
    if cleaned == "" then (Unknown, EmptyOutput)
    else
      var route := RouteOfLetter(UpperChar(cleaned[0]));
      if route == Unknown then (Unknown, InvalidLabel) else (route, NoError)
  }

  /** Only the upper-cased first character of the stripped answer matters. */
  lemma ParseDependsOnFirstLetterOnly(a: string, b: string)
    requires Strip(a) != "" && Strip(b) != ""
    requires UpperChar(Strip(a)[0]) == UpperChar(Strip(b)[0])
    ensures Parse(a) == Parse(b)
  {
  }

  /** Each route's letter, alone or followed by anything, parses back to it. */
  lemma ParseLetterRoundTrip(r: Route, suffix: string)
    requires r != Unknown
    ensures Parse([Letter(r)] + suffix) == (r, NoError)
  {
    var raw := [Letter(r)] + suffix;
    StripKeepsFirstChar(raw);
  }

  // ---------------------------------------------------------------------------
  // Rule-based classifier
  // ---------------------------------------------------------------------------

  /** Personal-data patterns: resident number, phone number, e-mail, account
      or card number, and Korean keywords for such data. */
  const PiiPatterns: seq<string> := [
    @"\b\d{3}-\d{2}-\d{4}\b",
    @"\b\d{2,3}-\d{3,4}-\d{4}\b",
    @"\b[A-Za-z0-9._%+-]+@[A-Za-z0-9.-]+\.[A-Za-z]{2,}\b",
    @"\b\d{10,16}\b",
    "(주소|계좌|주민번호|전화번호|이메일)"
  ]

  /** Self-harm, violence, drug or explosive manufacture, and hate. */
  const HarmfulPatterns: seq<string> := [
    "(자해|자살|죽고 싶|kill myself)",
    "(폭탄|총기|칼로 찌르)",
    "(마약 제조|폭발물 제조)",
    "(혐오|인종차별|차별해)"
  ]

  /** Attempts to override the instructions or extract secrets. */
  const InjectionPatterns: seq<string> := [
    "(ignore previous instructions)",
    "(시스템 지침을 무시)",
    "(규칙을 무시하고)",
    "(관리자 권한으로)",
    "(비밀 키를 출력)",
    "(시스템 프롬프트를 보여줘)"
  ]

  /** Some pattern of the list matches `text` under the regular-expression
      search `search` (left abstract). */
  function AnyMatch(search: (string, string) -> bool, patterns: seq<string>, text: string): (r: bool)
    ensures r <==> exists i :: 0 <= i < |patterns| && search(patterns[i], text)
  {
    if |patterns| == 0 then false
    else if search(patterns[0], text) then true
    else
      var rest := AnyMatch(search, patterns[1..], text);
      assert forall i :: 1 <= i < |patterns| ==> patterns[i] == patterns[1..][i - 1];
      rest
  }

  /** `_classification`: the lower-cased text is matched against the personal
      data, harmful and injection lists in that order; the first list with a
      match decides the letter, and "A" means nothing matched. */
  function Classification(search: (string, string) -> bool, text: string): (r: string)
    ensures r in {"A", "B", "C", "D"}
    ensures r == "B" <==> AnyMatch(search, PiiPatterns, Lower(text))
    ensures r == "C" <==> !AnyMatch(search, PiiPatterns, Lower(text))
                          && AnyMatch(search, HarmfulPatterns, Lower(text))
    ensures r == "D" <==> !AnyMatch(search, PiiPatterns, Lower(text))
                          && !AnyMatch(search, HarmfulPatterns, Lower(text))
                          && AnyMatch(search, InjectionPatterns, Lower(text))
  {
    var lowered := Lower(text);
    if AnyMatch(search, PiiPatterns, lowered) then "B"
    else if AnyMatch(search, HarmfulPatterns, lowered) then "C"
    else if AnyMatch(search, InjectionPatterns, lowered) then "D"
    else "A"
  }

  /** `SafeguardClassifyNode.run`: classify the normalised text, parse the
      letter and record label and parse error. */
  function Run(search: (string, string) -> bool, s: State): (r: State)
    ensures r == s.(safeguardLabel := r.safeguardLabel, safeguardError := r.safeguardError)
    ensures r.safeguardError == NoError.Value()
    ensures IsParsedLabel(r.safeguardLabel)
    ensures r.safeguardLabel == "PII" <==> AnyMatch(search, PiiPatterns, Lower(s.normalizedText))
    ensures r.safeguardLabel == "HARMFUL" <==>
              && !AnyMatch(search, PiiPatterns, Lower(s.normalizedText))
              && AnyMatch(search, HarmfulPatterns, Lower(s.normalizedText))
    ensures r.safeguardLabel == "PROMPT_INJECTION" <==>
              && !AnyMatch(search, PiiPatterns, Lower(s.normalizedText))
              && !AnyMatch(search, HarmfulPatterns, Lower(s.normalizedText))
              && AnyMatch(search, InjectionPatterns, Lower(s.normalizedText))
    ensures r.safeguardLabel == "SAFE" <==>
              && !AnyMatch(search, PiiPatterns, Lower(s.normalizedText))
              && !AnyMatch(search, HarmfulPatterns, Lower(s.normalizedText))
              && !AnyMatch(search, InjectionPatterns, Lower(s.normalizedText))
  {
    var letter := Classification(search, s.normalizedText);
    var parsed := Parse(letter);
    ParseClassifierLetter(letter);
    if parsed.1 != NoError then
      s.(safeguardLabel := "UNKNOWN", safeguardError := parsed.1.Value())
    else
      s.(safeguardLabel := parsed.0.Value(), safeguardError := NoError.Value())
  }

  /** The classifier's letters all parse, each to its own route. */
  lemma ParseClassifierLetter(letter: string)
    requires letter in {"A", "B", "C", "D"}
    ensures Parse(letter).1 == NoError
    ensures letter == "A" <==> Parse(letter).0 == Safe
    ensures letter == "B" <==> Parse(letter).0 == Pii
    ensures letter == "C" <==> Parse(letter).0 == Harmful
    ensures letter == "D" <==> Parse(letter).0 == PromptInjection
  {
    assert Strip(letter) == letter;
  }
}
