/** The translation workflow: the graph of the shape module wired to the
    steps of this model, and its entry point. */
module TranslateGraph {
  import opened Wrappers
  import opened TranslationState
  import opened GraphShape
  import Strings
  import NormalizeInput
  import Classify = SafeguardClassify
  import Decision = SafeguardDecision
  import TranslateStep
  import Check = QualityCheck

  /** The collaborators the graph runs with: the classifier's pattern search,
      the quality check's token extractor, the translation backend, and the
      four steps whose code is not part of this model. */
  datatype Steps = Steps(
    search: (string, string) -> bool,
    findall: (string, string) -> seq<string>,
    backend: TranslateStep.Backend,
    failResponse: State -> State,
    retryGate: State -> State,
    retryTranslate: State -> State,
    response: State -> State)

  /** The step registered under each node. START and END change nothing, and
      each step of this model writes only the fields its own code writes. */
  function Apply(steps: Steps, n: Node, s: State): (r: State)
    ensures n == Start || n == End ==> r == s
    ensures n == Normalize ==>
      r == s.(sourceLanguage := r.sourceLanguage, targetLanguage := r.targetLanguage,
              normalizedText := r.normalizedText)
    ensures n == SafeguardClassify ==>
      r == s.(safeguardLabel := r.safeguardLabel, safeguardError := r.safeguardError)
    ensures n == SafeguardDecision ==> r == s.(error := r.error)
    ensures n == Translate ==>
      r == s.(translatedText := r.translatedText, prompt := r.prompt, error := r.error)
    ensures n == QualityCheck ==> r == s.(qcPassed := r.qcPassed, error := r.error)
  {
    match n
    case Start => s
    case Normalize => NormalizeInput.Run(s.maxInputLength, s)
    case SafeguardClassify => Classify.Run(steps.search, s)
    case SafeguardDecision => Decision.Run(s)
    case SafeguardFailResponse => steps.failResponse(s)
    case Translate => TranslateStep.Run(steps.backend, s)
    case QualityCheck => Check.Run(steps.findall, s)
    case RetryGate => steps.retryGate(s)
    case RetryTranslate => steps.retryTranslate(s)
    case Response => steps.response(s)
    case End => s
  }

  /** The graph's step function with these collaborators. */
  function Execute(steps: Steps): (Node, State) -> State {
    (n: Node, s: State) => Apply(steps, n, s)
  }

  const NoStateError: string := "state는 None일 수 없습니다. 다시 확인해야 합니다."

  /** `TranslateGraph.run`: an absent state is refused before the graph
      starts; otherwise the graph runs from START. */
  function Run(steps: Steps, fuel: nat, initial: Option<State>): (r: Result<Trace, string>)
    ensures initial.None? <==> r.Failure?
    ensures r.Failure? ==> r.error == NoStateError
    ensures r.Success? ==> r.value.visited == [] || r.value.visited[0] == Start
    ensures initial.Some? ==> r == Success(Walk(Execute(steps), fuel, Start, initial.value))
  {
    match initial
    case None => Failure(NoStateError)
    case Some(s) => Success(Walk(Execute(steps), fuel, Start, s))
  }

  /** Refusing an absent state involves no step: the outcome is the same for
      any collaborators and any budget. */
  lemma AbsentStateRunsNothing(a: Steps, b: Steps, fa: nat, fb: nat)
    ensures Run(a, fa, None) == Run(b, fb, None)
  {
  }

  // ---------------------------------------------------------------------------
  // The safety branch as the classifier drives it
  // ---------------------------------------------------------------------------

  /** After classification the label is never "PASS", so the safety router
      always picks the fail response. */
  lemma ClassifiedStateIsRefused(search: (string, string) -> bool, s: State)
    ensures RouteAfterSafeguard(Decision.Run(Classify.Run(search, s))) == "safeguard_fail_response"
  {
    var c := Classify.Run(search, s);
    assert Classify.IsParsedLabel(c.safeguardLabel);
    assert Decision.Run(c).safeguardLabel == c.safeguardLabel;
  }

  /** The graph's own steps never let "PASS" through, whatever the
      collaborators. */
  lemma ExecuteNeverPasses(steps: Steps)
    ensures SafetyNeverPasses(Execute(steps))
  {
    forall s ensures Execute(steps)(SafeguardClassify, s).safeguardLabel != "PASS"
                     && Execute(steps)(SafeguardDecision, s).safeguardLabel == s.safeguardLabel {
      ClassifyStepNeverPasses(steps, s);
      DecisionStepKeepsLabel(steps, s);
    }
  }

  /** The classification node writes one of the four parsed labels. */
  lemma ClassifyStepNeverPasses(steps: Steps, s: State)
    ensures Classify.IsParsedLabel(Execute(steps)(SafeguardClassify, s).safeguardLabel)
  {
    assert Execute(steps)(SafeguardClassify, s) == Apply(steps, SafeguardClassify, s);
  }

  /** The decision node keeps the label it is given. */
  lemma DecisionStepKeepsLabel(steps: Steps, s: State)
    ensures Execute(steps)(SafeguardDecision, s).safeguardLabel == s.safeguardLabel
  {
    assert Execute(steps)(SafeguardDecision, s) == Apply(steps, SafeguardDecision, s);
  }

  /** Every request takes the blocked path: whatever the collaborators do,
      `run` succeeds, the graph runs normalize, classify, decide, fail
      response and response to END, and it never reaches `translate` or
      `quality_check`. */
  lemma EveryRunTakesBlockedPath(steps: Steps, fuel: nat, s: State)
    requires fuel >= 6
    ensures Run(steps, fuel, Some(s)).Success?
    ensures Run(steps, fuel, Some(s)).value.finished
    ensures Run(steps, fuel, Some(s)).value.visited == BlockedPath
    ensures Translate !in Run(steps, fuel, Some(s)).value.visited
    ensures QualityCheck !in Run(steps, fuel, Some(s)).value.visited
  {
    ExecuteNeverPasses(steps);
    BlockedFromStart(Execute(steps), fuel, s);
  }

  // ---------------------------------------------------------------------------
  // The state `run` returns
  // ---------------------------------------------------------------------------

  /** The state the fail-response step receives: the request after
      normalisation, classification and the safety decision. */
  function Refused(steps: Steps, s: State): State {
    Decision.Run(Classify.Run(steps.search, NormalizeInput.Run(s.maxInputLength, s)))
  }

  /** No classifier rule matches the normalised text of `s`. */
  predicate MatchesNoRule(search: (string, string) -> bool, s: State) {
    var t := Strings.Lower(NormalizeInput.Run(s.maxInputLength, s).normalizedText);
    && !Classify.AnyMatch(search, Classify.PiiPatterns, t)
    && !Classify.AnyMatch(search, Classify.HarmfulPatterns, t)
    && !Classify.AnyMatch(search, Classify.InjectionPatterns, t)
  }

  /** What each node of the blocked path does under `Execute`. */
  lemma ExecuteOn(steps: Steps, n: Node, s: State)
    ensures n == Start ==> Execute(steps)(n, s) == s
    ensures n == Normalize ==> Execute(steps)(n, s) == NormalizeInput.Run(s.maxInputLength, s)
    ensures n == SafeguardClassify ==> Execute(steps)(n, s) == Classify.Run(steps.search, s)
    ensures n == SafeguardDecision ==> Execute(steps)(n, s) == Decision.Run(s)
    ensures n == SafeguardFailResponse ==> Execute(steps)(n, s) == steps.failResponse(s)
    ensures n == Response ==> Execute(steps)(n, s) == steps.response(s)
  {
    assert Execute(steps)(n, s) == Apply(steps, n, s);
  }

  /** The blocked path under the graph's own steps turns a request into the
      response built from the fail response to the refused request. */
  lemma BlockedRestIsRefusal(steps: Steps, s: State)
    ensures BlockedRest(Execute(steps), 0, s) == steps.response(steps.failResponse(Refused(steps, s)))
  {
    var s2 := NormalizeInput.Run(s.maxInputLength, s);
    var s3 := Classify.Run(steps.search, s2);
    var s4 := Decision.Run(s3);
    var s5 := steps.failResponse(s4);
    ExecuteOn(steps, Start, s);
    ExecuteOn(steps, Normalize, s);
    ExecuteOn(steps, SafeguardClassify, s2);
    ExecuteOn(steps, SafeguardDecision, s3);
    ExecuteOn(steps, SafeguardFailResponse, s4);
    ExecuteOn(steps, Response, s5);
    BlockedRestFromStart(Execute(steps), s, s, s2, s3, s4, s5, steps.response(s5));
  }

  /** What `run` returns: with six steps of fuel, every present request comes
      back as the response step's output on the fail response to the refused
      request, whatever the collaborators. */
  lemma EveryRunReturnsRefusal(steps: Steps, fuel: nat, s: State)
    requires fuel >= 6
    ensures Run(steps, fuel, Some(s)).Success?
    ensures Run(steps, fuel, Some(s)).value.last == steps.response(steps.failResponse(Refused(steps, s)))
  {
    ExecuteNeverPasses(steps);
    BlockedSuffixReturns(Execute(steps), fuel, 0, s);
    BlockedRestIsRefusal(steps, s);
  }

  /** A request that no rule flags is labelled SAFE and still refused, and
      the refusal carries whatever `error` the request came with: the
      decision step writes no message for SAFE. */
  lemma BenignRequestKeepsItsError(steps: Steps, s: State)
    requires MatchesNoRule(steps.search, s)
    ensures Refused(steps, s).safeguardLabel == "SAFE"
    ensures Refused(steps, s).error == s.error
  {
    var n := NormalizeInput.Run(s.maxInputLength, s);
    var c := Classify.Run(steps.search, n);
    assert c.safeguardLabel == "SAFE";
    assert Decision.Run(c) == c;
  }

  /** A fresh request that no rule flags reaches the fail-response step with
      the label SAFE and the empty error the service put in, so it is
      refused without a message. */
  lemma BenignRequestRefusedWithoutMessage(steps: Steps, fuel: nat, s: State)
    requires fuel >= 6
    requires s == Initial(s.sourceLanguage, s.targetLanguage, s.text, s.maxInputLength, s.maxRetryCount)
    requires MatchesNoRule(steps.search, s)
    ensures Run(steps, fuel, Some(s)).Success?
    ensures Run(steps, fuel, Some(s)).value.last == steps.response(steps.failResponse(Refused(steps, s)))
    ensures Refused(steps, s).safeguardLabel == "SAFE"
    ensures Refused(steps, s).error == Some("")
  {
    EveryRunReturnsRefusal(steps, fuel, s);
    BenignRequestKeepsItsError(steps, s);
  }
}
