/** The translate step: precondition checks on the languages and the text,
    prompt rendering, one call to the generation backend, and clean-up of its
    answer. */
module TranslateStep {
  import opened Wrappers
  import opened Strings
  import opened TranslationState

  const LanguagesMissing: string := "번역작업을 위한 언어가 설정되어있지 않습니다."
  const TextMissing: string := "번역작업을 수행 할 텍스트가 비어 있습니다."
  const NoModelResponse: string := "번역 모델 응답이 비어있습니다."
  const EmptyTranslation: string := "번역 결과가 비어있습니다."

  /** What the step needs from outside: the translation prompt template,
      filled with source language, target language and text, and the
      backend, which answers a prompt with text or with nothing. */
  datatype Backend = Backend(
    render: (string, string, string) -> string,
    generate: string -> Option<string>)

  /** Either no usable translation and an error, or a translation and no
      error key at all. */
  predicate Settled(s: State) {
    || (s.translatedText == "" && s.error.Some? && s.error.value != "")
    || (s.translatedText != "" && s.error.None?)
  }

  /** `TranslateNode.run`. */
  function Run(backend: Backend, s: State): (r: State)
    ensures Settled(r)
    ensures r == s.(translatedText := r.translatedText, prompt := r.prompt, error := r.error)
    ensures s.sourceLanguage == "" || s.targetLanguage == "" ==>
              r == s.(translatedText := "", error := Some(LanguagesMissing))
    ensures s.sourceLanguage != "" && s.targetLanguage != "" && s.normalizedText == "" ==>
              r == s.(translatedText := "", error := Some(TextMissing))
    ensures s.sourceLanguage != "" && s.targetLanguage != "" && s.normalizedText != "" ==>
              r.prompt == backend.render(s.sourceLanguage, s.targetLanguage, s.normalizedText)
    ensures r.translatedText != "" ==>
              && s.sourceLanguage != "" && s.targetLanguage != "" && s.normalizedText != ""
              && backend.generate(r.prompt).Some?
              && r.translatedText == Strip(backend.generate(r.prompt).value)
  {
    if s.sourceLanguage == "" || s.targetLanguage == "" then
      s.(translatedText := "", error := Some(LanguagesMissing))
    else if s.normalizedText == "" then
      s.(translatedText := "", error := Some(TextMissing))
    else
      var prompt := backend.render(s.sourceLanguage, s.targetLanguage, s.normalizedText);
      var prompted := s.(prompt := prompt);
      match backend.generate(prompt)
      case None =>
        prompted.(translatedText := "", error := Some(NoModelResponse))
      case Some(output) =>
        var cleaned := Strip(output);
        if cleaned == "" then
          prompted.(translatedText := "", error := Some(EmptyTranslation))
        else
          prompted.(translatedText := cleaned, error := None)
  }

  /** On the backend path the outcome depends only on the backend's answer:
      nothing yields one error, a blank answer another, and any other answer
      is kept stripped with the error key removed. */
  lemma BackendOutcomes(backend: Backend, s: State)
    requires s.sourceLanguage != "" && s.targetLanguage != "" && s.normalizedText != ""
    ensures var answer := backend.generate(Run(backend, s).prompt);
            && (answer.None? ==> Run(backend, s).error == Some(NoModelResponse))
            && (answer.Some? && Strip(answer.value) == "" ==>
                  Run(backend, s).error == Some(EmptyTranslation))
            && (answer.Some? && Strip(answer.value) != "" ==>
                  Run(backend, s).translatedText == Strip(answer.value)
                  && Run(backend, s).error.None?)
  {
  }

  /** The precondition checks never consult the backend: with a language or
      the text missing, any two backends give the same state. */
  lemma ChecksPrecedeBackend(b1: Backend, b2: Backend, s: State)
    requires s.sourceLanguage == "" || s.targetLanguage == "" || s.normalizedText == ""
    ensures Run(b1, s) == Run(b2, s)
  {
  }
}
