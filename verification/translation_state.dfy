/** The record every workflow step reads and writes, and the initial value the
    service layer builds for one request. */
module TranslationState {
  import opened Wrappers

  /** Default limits of the configuration layer. */
  const DefaultMaxInputLength: int := 5000
  const DefaultMaxRetryCount: int := 1

  /** One translation request in flight. Every key of the shared dictionary is
      always present except `error`, which the translate step deletes on
      success. */
  datatype State = State(
    sourceLanguage: string,
    targetLanguage: string,
    text: string,
    normalizedText: string,
    translatedText: string,
    prompt: string,
    safeguardLabel: string,
    safeguardError: string,
    qcPassed: string,
    canRetry: bool,
    retryCount: int,
    maxInputLength: int,
    maxRetryCount: int,
    error: Option<string>)

  /** The state the service layer hands to the graph: the request's languages
      and text, empty derived fields, the optimistic label "PASS", verdict "NO",
      no retries yet, the configured limits and an empty error. */
  function Initial(source: string, target: string, text: string,
                   maxInputLength: int, maxRetryCount: int): (s: State)
    ensures s.sourceLanguage == source && s.targetLanguage == target && s.text == text
    ensures s.normalizedText == "" && s.translatedText == "" && s.prompt == ""
    ensures s.safeguardLabel == "PASS" && s.safeguardError == ""
    ensures s.qcPassed == "NO" && !s.canRetry && s.retryCount == 0
    ensures s.maxInputLength == maxInputLength && s.maxRetryCount == maxRetryCount
    ensures s.error == Some("")
  {
    State(source, target, text, "", "", "", "PASS", "", "NO", false, 0,
          maxInputLength, maxRetryCount, Some(""))
  }

  /** The initial state under the default configuration. */
  function InitialWithDefaults(source: string, target: string, text: string): (s: State)
    ensures s.maxInputLength == 5000 && s.maxRetryCount == 1
    ensures s == Initial(source, target, text, s.maxInputLength, s.maxRetryCount)
  {
    Initial(source, target, text, DefaultMaxInputLength, DefaultMaxRetryCount)
  }
}
