# Translation workflow: a verified model

This project models the core of a small translation service. The service is
built as a LangGraph state graph. One request runs through these steps in
order: input normalisation, a rule-based safety classification, a safety
decision, then either a blocked response or a translation. A translation is
followed by a rule-based quality check and a retry gate that may loop back
through a re-translation. Every step reads and writes one shared record, the
translation state.

The model is functional:

- The state is an immutable datatype (`TranslationState.State`). Every key of
  the source's dictionary is present, except `error`, which is an `Option`
  because the translate step deletes it on success.
- Each step is a pure `State -> State` function. There is one module per
  source file: `NormalizeInput`, `SafeguardClassify`, `SafeguardDecision`,
  `TranslateStep` and `QualityCheck`.
- The graph (`GraphShape`) is an explicit node type, an edge table with two
  conditional branches and their path maps, and the two routing functions.
- A fuel-bounded `Walk` runs any step function along the edges.
  `TranslateGraph` wires the steps of this model into it and models the entry
  point `TranslateGraph.run`.

Outside collaborators are parameters:

- the regular-expression engine: `search` for `re.search`, `findall` for
  `re.findall`;
- the translation backend and its prompt template (`TranslateStep.Backend`);
- the four steps whose code is not part of this model: fail response, retry
  gate, retry translate and response.

Every property below holds for all values of these parameters.

Two facts of the code are reproduced as written, not corrected:

- The classifier writes the label `"SAFE"`, but the safety router only lets
  `"PASS"` through. Every request therefore takes the blocked path
  (`TranslateGraph.EveryRunTakesBlockedPath`), and `run` returns the
  response built from the fail response (`TranslateGraph.EveryRunReturnsRefusal`).
  A request that no rule flags reaches the fail response labelled SAFE and
  with an empty error message
  (`TranslateGraph.BenignRequestRefusedWithoutMessage`).
- The quality check does not clear an earlier `error` when it answers `"YES"`.

Helper modules:

- `Strings`: Python's `str.isspace` whitespace set, ASCII case mapping,
  `strip`, and substring search.
- `TokenOrder`: Python's ordering of `str` values and `sorted`.
- `Wrappers`: `Option` and `Result`.

## Model

All source paths are below `001_first_session/src/firstsession/`:

| member | source | states |
|---|---|---|
| TranslationState.Initial | 001_first_session/src/firstsession/api/translate/service/translation_service.py:35-55 | The state handed to the graph carries the request's languages and text. Derived fields are empty, the label is the optimistic "PASS", the verdict is "NO", there are no retries, the limits are the configured ones, and the error is the empty string. |
| TranslationState.InitialWithDefaults | 001_first_session/src/firstsession/config/settings.py:4-10 | Under the default configuration, the input limit is 5000 characters and the retry limit is 1. |
| Strings.Strip | 001_first_session/src/firstsession/core/translate/nodes/normalize_input_node.py:33 | `str.strip`: the result neither starts nor ends with whitespace. It is empty exactly when the input is all whitespace. It is the input itself when the input has no outer whitespace. |
| Strings.StripIsInfix | 001_first_session/src/firstsession/core/translate/nodes/normalize_input_node.py:33 | `str.strip` removes outer whitespace and nothing else: its result occurs in the input at some offset, and every character before and after it is whitespace. |
| Strings.Lower | 001_first_session/src/firstsession/core/translate/nodes/normalize_input_node.py:21 | `str.lower` on ASCII: the length is kept, and each character is lower-cased on its own, so upper-case letters map to their lower-case letters and everything else is kept. |
| Strings.Contains | 001_first_session/src/firstsession/core/translate/nodes/quality_check_node.py:28 | A search for a pattern without metacharacters succeeds exactly when the pattern occurs in the text at some position. |
| NormalizeInput.BeforeDash | 001_first_session/src/firstsession/core/translate/nodes/normalize_input_node.py:23-24 | `split("-")[0]` is the longest dash-free prefix: a prefix, with no dash, followed in the input by a dash whenever it is shorter than the input. |
| NormalizeInput.NormalizeLang | 001_first_session/src/firstsession/core/translate/nodes/normalize_input_node.py:16-26 | An empty code stays empty. Any result has no dash and no upper-case letter. It is a prefix of the stripped, lower-cased code, and it ends exactly where the first region separator was. |
| NormalizeInput.CollapseNewlines | 001_first_session/src/firstsession/core/translate/nodes/normalize_input_node.py:34 | After newline runs are replaced by one newline, no two newlines are adjacent. The text is no longer than before, is empty only if the input was, and starts with the same character. |
| NormalizeInput.CollapseNewlinesJoin | 001_first_session/src/firstsession/core/translate/nodes/normalize_input_node.py:34 | A run of newlines between two other characters becomes exactly one newline, and the text on each side is collapsed on its own. With `a` or `b` empty this covers leading and trailing runs. |
| NormalizeInput.CollapseNewlinesKeepsRunFree | 001_first_session/src/firstsession/core/translate/nodes/normalize_input_node.py:34 | Text without two adjacent newlines is left unchanged, so single newlines and all other characters survive in place. |
| NormalizeInput.CollapseSpaces | 001_first_session/src/firstsession/core/translate/nodes/normalize_input_node.py:35 | After whitespace runs are replaced by a space, every whitespace character is a lone plain space. The first character is kept (or becomes a space), a non-space last character stays non-space, and the text is empty only if the input was. |
| NormalizeInput.CollapseSpacesJoin | 001_first_session/src/firstsession/core/translate/nodes/normalize_input_node.py:35 | A run of whitespace between two visible characters becomes exactly one space, and the text on each side is collapsed on its own. With `a` or `b` empty this covers leading and trailing runs. |
| NormalizeInput.CollapseSpacesSingleSpaced | 001_first_session/src/firstsession/core/translate/nodes/normalize_input_node.py:35 | Text whose only whitespace is isolated plain spaces is left unchanged. |
| NormalizeInput.CollapseSpacesKeepsNonSpace | 001_first_session/src/firstsession/core/translate/nodes/normalize_input_node.py:35 | Collapsing whitespace keeps every visible character, in order. |
| NormalizeInput.NormalizeText | 001_first_session/src/firstsession/core/translate/nodes/normalize_input_node.py:28-37 | `_normalize_text` maps "" to "". Its result has no outer whitespace and only isolated single spaces, so no newline survives. Its visible characters are exactly the input's, in order. |
| NormalizeInput.NormalizeTextJoinsWords | 001_first_session/src/firstsession/core/translate/nodes/normalize_input_node.py:28-37 | `_normalize_text` equals Python's `" ".join(text.split())`: the words of the text, in order, separated by single spaces. `Words` and `JoinSpaced` are defined independently of the normalisation steps. |
| NormalizeInput.CollapseSpacesJoinsWords | 001_first_session/src/firstsession/core/translate/nodes/normalize_input_node.py:35 | On text without outer whitespace, collapsing whitespace runs gives the text's words, in order, joined by single spaces. |
| NormalizeInput.WordsOfStrip | 001_first_session/src/firstsession/core/translate/nodes/normalize_input_node.py:33 | Stripping the text removes no word and adds none. |
| NormalizeInput.NewlineCollapseSubsumed | 001_first_session/src/firstsession/core/translate/nodes/normalize_input_node.py:34-35 | The newline pass is redundant: collapsing whitespace after it gives the same text as collapsing whitespace alone. |
| NormalizeInput.NormalizedIsFixedPoint | 001_first_session/src/firstsession/core/translate/nodes/normalize_input_node.py:28-37 | Text already in normal form is left unchanged by `_normalize_text`. |
| NormalizeInput.NormalizeTextIdempotent | 001_first_session/src/firstsession/core/translate/nodes/normalize_input_node.py:28-37 | Normalising twice is the same as normalising once. |
| NormalizeInput.SliceTo | 001_first_session/src/firstsession/core/translate/nodes/normalize_input_node.py:42 | Python's `text[:stop]` is a prefix. Its length is min(stop, len) for a non-negative stop, and the length minus the excess counted from the end for a negative stop. |
| NormalizeInput.LimitLength | 001_first_session/src/firstsession/core/translate/nodes/normalize_input_node.py:39-42 | `_limit_length` returns a prefix of the text. Text that fits is returned unchanged. For a non-negative limit the length is min(limit, length); a negative limit cuts from the end, as Python slicing does. |
| NormalizeInput.Run | 001_first_session/src/firstsession/core/translate/nodes/normalize_input_node.py:44-66 | The step canonicalises both language codes. It sets `normalized_text` to a prefix of the normalised text, whose length is min(state limit, normalised length) for a non-negative limit, so at most the state's `max_input_length`. A negative limit cuts that many characters off the end, as a Python slice does. The prefix is single-spaced with no leading space, and is empty when the text has no visible character. No other field changes. |
| NormalizeInput.RunIgnoresLengthArgument | 001_first_session/src/firstsession/core/translate/nodes/normalize_input_node.py:44-63 | The method's own `max_input_length` parameter has no effect: the limit is read from the state. |
| SafeguardClassify.RouteOfLetter | 001_first_session/src/firstsession/core/translate/nodes/safeguard_classify_node.py:39-47 | The letter table is defined exactly on A, B, C and D. Each route found maps back to its letter. |
| SafeguardClassify.Parse | 001_first_session/src/firstsession/core/translate/nodes/safeguard_classify_node.py:33-47 | EMPTY_OUTPUT is returned exactly for blank output, and then the route is UNKNOWN. The route is UNKNOWN exactly when the error is not NONE. INVALID_LABEL is returned exactly when the upper-cased first character of the stripped text is not A–D. Any known route is the one of that first character. |
| SafeguardClassify.ParseDependsOnFirstLetterOnly | 001_first_session/src/firstsession/core/translate/nodes/safeguard_classify_node.py:38 | Two non-blank answers with the same upper-cased first character parse the same, whatever follows it. |
| SafeguardClassify.ParseLetterRoundTrip | 001_first_session/src/firstsession/core/translate/nodes/safeguard_classify_node.py:38-47 | A route's letter, alone or followed by anything, parses back to that route with no error. |
| SafeguardClassify.AnyMatch | 001_first_session/src/firstsession/core/translate/nodes/safeguard_classify_node.py:78-86 | A pattern-list loop succeeds exactly when some pattern of the list matches. |
| SafeguardClassify.Classification | 001_first_session/src/firstsession/core/translate/nodes/safeguard_classify_node.py:75-87 | The answer is always one of A–D. B means a personal-data match. C means a harmful match and no personal-data match. D means an injection match and neither of the others. A means nothing matched. |
| SafeguardClassify.ParseClassifierLetter | 001_first_session/src/firstsession/core/translate/nodes/safeguard_classify_node.py:101-102 | Each of the classifier's four letters parses without error, to its own route. |
| SafeguardClassify.Run | 001_first_session/src/firstsession/core/translate/nodes/safeguard_classify_node.py:100-111 | The parse error is always NONE and the label is one of SAFE, PII, HARMFUL, PROMPT_INJECTION. PII holds exactly when a personal-data pattern matches. HARMFUL holds exactly when a harmful pattern matches and no personal-data pattern does. PROMPT_INJECTION holds exactly when an injection pattern matches and neither of the others does. SAFE holds exactly when no pattern matches. Only the label and the parse error change. |
| SafeguardDecision.BlockMessage | 001_first_session/src/firstsession/core/translate/nodes/safeguard_decision_node.py:38-43 | The enum lookup with its KeyError fallback always yields one of the four messages. A specific message is returned exactly for its own label name, and the message is never empty. |
| SafeguardDecision.Decide | 001_first_session/src/firstsession/core/translate/nodes/safeguard_decision_node.py:33-45 | "SAFE" leaves the state unchanged. Any other label sets a non-empty error. A missing label reads as UNKNOWN and gets the generic message. Only `error` is ever written. |
| SafeguardDecision.Run | 001_first_session/src/firstsession/core/translate/nodes/safeguard_decision_node.py:22-45 | On a state with its label: "SAFE" passes through unchanged, and every other label records its block message in `error` and nothing else. |
| SafeguardDecision.BlockMessagesDistinct | 001_first_session/src/firstsession/core/translate/nodes/safeguard_decision_node.py:11-17 | The three specific messages are pairwise distinct and differ from the generic one. A label gets the generic message exactly when it is not PII, HARMFUL or PROMPT_INJECTION; that includes "UNKNOWN" and "PASS". |
| TranslateStep.Run | 001_first_session/src/firstsession/core/translate/nodes/translate_node.py:17-64 | A missing language wins over missing text, and both stop before the backend with their own error and an empty translation. Otherwise the prompt is the template filled with both languages and the text. A non-empty translation is the stripped backend answer for that prompt. The end state is either empty text with a non-empty error, or text with no error key. Only translation, prompt and error change. |
| TranslateStep.BackendOutcomes | 001_first_session/src/firstsession/core/translate/nodes/translate_node.py:49-63 | On the backend path: no answer gives the no-response error, and a blank answer gives the empty-result error. Any other answer is kept stripped and the error key is removed. |
| TranslateStep.ChecksPrecedeBackend | 001_first_session/src/firstsession/core/translate/nodes/translate_node.py:32-40 | With a language or the text missing, the outcome is the same for every backend, so no call is made. |
| QualityCheck.NoneOccurs | 001_first_session/src/firstsession/core/translate/nodes/quality_check_node.py:27-30 | The phrase loop succeeds exactly when no phrase occurs in the text. |
| QualityCheck.CheckPromptPatterns | 001_first_session/src/firstsession/core/translate/nodes/quality_check_node.py:24-30 | The leak check fails exactly when the lower-cased translation contains "translation:", "output:" or "result:". |
| TokenOrder.Sort | 001_first_session/src/firstsession/core/translate/nodes/quality_check_node.py:41 | `sorted` returns an ordered permutation of its input. |
| TokenOrder.SortEqualIffSameTokens | 001_first_session/src/firstsession/core/translate/nodes/quality_check_node.py:38-42 | Two token lists sort to the same list exactly when they hold the same tokens with the same multiplicities. |
| QualityCheck.TokensAgree | 001_first_session/src/firstsession/core/translate/nodes/quality_check_node.py:34-43 | The count-then-sorted comparison over the patterns succeeds exactly when, for every pattern, the two extracted token lists are equal as multisets. |
| QualityCheck.CheckNumberPatterns | 001_first_session/src/firstsession/core/translate/nodes/quality_check_node.py:32-43 | The number/URL check passes exactly when, for both patterns, source and translation yield the same tokens with the same multiplicities. |
| QualityCheck.CheckNumberPatternsReflexive | 001_first_session/src/firstsession/core/translate/nodes/quality_check_node.py:34-42 | Any text passes the number/URL check against itself. |
| QualityCheck.CheckNumberPatternsSymmetric | 001_first_session/src/firstsession/core/translate/nodes/quality_check_node.py:34-42 | Swapping source and translation does not change the number/URL verdict. |
| QualityCheck.CheckNumberPatternsCountsDuplicates | 001_first_session/src/firstsession/core/translate/nodes/quality_check_node.py:38-39 | A translation carrying one more number than its source fails, even when that number is a duplicate. |
| QualityCheck.Run | 001_first_session/src/firstsession/core/translate/nodes/quality_check_node.py:45-74 | The verdict is YES or NO. It is YES exactly when there is no leak and the tokens agree, and then `error` is untouched. A leak always records the leak error. With no leak, a NO records the number error. Only the verdict and the error change. |
| QualityCheck.LeakDecidesAlone | 001_first_session/src/firstsession/core/translate/nodes/quality_check_node.py:63-66 | A leaking translation is rejected the same way whatever the token extractor does, so the number check is never consulted. |
| GraphShape.Successors | 001_first_session/src/firstsession/core/translate/graphs/translate_graph.py:103-112 | In the edge table only END has no outgoing edge, and only `response` leads to END. Nothing leads back to START. Every edge lowers the rank, except `retry_translate → quality_check`. |
| GraphShape.Targets | 001_first_session/src/firstsession/core/translate/graphs/translate_graph.py:106-110 | The nodes a conditional edge can reach are exactly the values of its path map. |
| GraphShape.RouteAfterSafeguard | 001_first_session/src/firstsession/core/translate/graphs/translate_graph.py:55-59 | The answer is a key of its path map. It is "translate" exactly when the label is "PASS", and otherwise "safeguard_fail_response". |
| GraphShape.RouteAfterRetryGate | 001_first_session/src/firstsession/core/translate/graphs/translate_graph.py:61-69 | The answer is a key of its path map. A passed check always goes to "response", whatever `can_retry` says. Otherwise the answer is "retry_translate" exactly when `can_retry` holds. |
| GraphShape.Choose | 001_first_session/src/firstsession/core/translate/graphs/translate_graph.py:106-110 | Both routers only answer keys of their declared path maps, so every branch has a defined successor. |
| GraphShape.NextFollowsEdge | 001_first_session/src/firstsession/core/translate/graphs/translate_graph.py:103-112 | The node taken after any step is one edge away in the table. |
| GraphShape.NextIsEndOnlyAfterResponse | 001_first_session/src/firstsession/core/translate/graphs/translate_graph.py:112 | END follows `response` and no other node. |
| GraphShape.Walk | 001_first_session/src/firstsession/core/translate/graphs/translate_graph.py:52 | A run of the compiled graph takes at most its fuel in steps. It finishes exactly when the last node it ran is `response`. |
| GraphShape.WalkFollowsGraph | 001_first_session/src/firstsession/core/translate/graphs/translate_graph.py:103-112 | Every run follows the edges of the table. |
| GraphShape.WalkAvoidsEnd | 001_first_session/src/firstsession/core/translate/graphs/translate_graph.py:112 | END is never run as a step. |
| GraphShape.RetryLoopIsCycle | 001_first_session/src/firstsession/core/translate/graphs/translate_graph.py:109-111 | `quality_check → retry_gate → retry_translate → quality_check` is a cycle of the graph. |
| GraphShape.RankDropsAlongForwardPath | 001_first_session/src/firstsession/core/translate/graphs/translate_graph.py:103-112 | Along a path that avoids the back edge, the rank drops by at least one per step. |
| GraphShape.EveryCycleUsesRetryLoop | 001_first_session/src/firstsession/core/translate/graphs/translate_graph.py:103-112 | Every cycle of the graph goes through the back edge `retry_translate → quality_check`, so the retry loop is the only cycle. |
| GraphShape.BlockedFromStart | 001_first_session/src/firstsession/core/translate/graphs/translate_graph.py:103-107 | Suppose the classification step never writes "PASS" and the decision step keeps the label. Then, from START with enough fuel, a run visits START, normalize, classify, decide, fail response, response and finishes, never reaching `translate` or `quality_check`. |
| GraphShape.BlockedSuffix | 001_first_session/src/firstsession/core/translate/graphs/translate_graph.py:103-107 | Under the same conditions, a run entered at any node of the blocked path runs exactly the rest of that path. |
| GraphShape.BlockedSuffixReturns | 001_first_session/src/firstsession/core/translate/graphs/translate_graph.py:103-107 | Under the same conditions, a run entered at any node of the blocked path hands back the state the rest of that path produces, each node's step applied in turn. |
| GraphShape.BlockedRestFromStart | 001_first_session/src/firstsession/core/translate/graphs/translate_graph.py:103-107 | The whole blocked path applies the START, normalize, classify, decide, fail-response and response steps in that order. |
| TranslateGraph.Apply | 001_first_session/src/firstsession/core/translate/graphs/translate_graph.py:84-92 | The node registration table: START and END change nothing. normalize writes only the language codes and the normalised text. safeguard_classify writes only the label and parse error. safeguard_decision writes only `error`. translate writes only the translation, prompt and error. quality_check writes only the verdict and error. |
| TranslateGraph.Run | 001_first_session/src/firstsession/core/translate/graphs/translate_graph.py:41-53 | An absent state fails exactly with the ValueError message. A present state is handed to the compiled graph: the result is the walk from START over the registered steps, and `run` returns it unchanged. |
| TranslateGraph.AbsentStateRunsNothing | 001_first_session/src/firstsession/core/translate/graphs/translate_graph.py:50-51 | Refusing an absent state involves no step: the outcome is the same for every collaborator and budget. |
| TranslateGraph.ClassifiedStateIsRefused | 001_first_session/src/firstsession/core/translate/graphs/translate_graph.py:56 | After classification and decision, the safety router always picks `safeguard_fail_response`. |
| TranslateGraph.ClassifyStepNeverPasses | 001_first_session/src/firstsession/core/translate/graphs/translate_graph.py:85 | The node registered as `safeguard_classify` writes one of the four parsed labels, never "PASS". |
| TranslateGraph.DecisionStepKeepsLabel | 001_first_session/src/firstsession/core/translate/graphs/translate_graph.py:86 | The node registered as `safeguard_decision` keeps the label it is given. |
| TranslateGraph.ExecuteNeverPasses | 001_first_session/src/firstsession/core/translate/graphs/translate_graph.py:84-92 | The registered steps never let "PASS" through to the safety router, whatever the collaborators. |
| TranslateGraph.EveryRunTakesBlockedPath | 001_first_session/src/firstsession/core/translate/graphs/translate_graph.py:41-112 | With six steps of fuel, `run` succeeds on every present state and runs the blocked path to END, whatever the collaborators. It never reaches `translate` or `quality_check`. |
| TranslateGraph.ExecuteOn | 001_first_session/src/firstsession/core/translate/graphs/translate_graph.py:84-92 | Each node of the blocked path runs the step registered for it: START changes nothing, normalize, safeguard_classify and safeguard_decision run this model's steps, and fail response and response run the collaborators. |
| TranslateGraph.BlockedRestIsRefusal | 001_first_session/src/firstsession/core/translate/graphs/translate_graph.py:84-107 | Along the blocked path the registered steps turn a request into the response step's output on the fail response to the request after normalize, classify and decide. |
| TranslateGraph.EveryRunReturnsRefusal | 001_first_session/src/firstsession/core/translate/graphs/translate_graph.py:41-53 | With six steps of fuel, the state `run` returns for every present request is the response step's output on the fail response to the request after normalize, classify and decide, whatever the collaborators. |
| TranslateGraph.BenignRequestKeepsItsError | 001_first_session/src/firstsession/core/translate/nodes/safeguard_decision_node.py:33-45 | When no classifier rule matches the normalised text, the request is labelled SAFE and the decision step writes no message. The state handed to the fail response keeps the request's own `error`. |
| TranslateGraph.BenignRequestRefusedWithoutMessage | 001_first_session/src/firstsession/api/translate/service/translation_service.py:35-55 | A fresh request from the service that no rule flags is still refused: `run` returns the response built from the fail response. That fail response receives the label SAFE and the empty error message the service put in. |

## Where the code differs from its own comments

The model follows the code in each case below. Paths are below
`001_first_session/src/firstsession/core/translate/`.

- The comments at `nodes/safeguard_classify_node.py:2` and `:98`, and at
  `graphs/translate_graph.py:95` and `:116`, name the safety labels PASS, PII,
  HARMFUL and PROMPT_INJECTION. The label enum at
  `nodes/safeguard_classify_node.py:13-19` spells the safe label "SAFE"
  instead, and line 109 writes that value. The router at
  `graphs/translate_graph.py:56` tests for "PASS", so no request reaches
  `translate`.
- The docstring at `nodes/safeguard_classify_node.py:31` describes a
  single-choice answer. The parser reads only the upper-cased first character
  (line 38). A label word such as "PII" or "HARMFUL" is therefore an
  INVALID_LABEL, while any answer that starts with "c", such as "clean", is
  read as HARMFUL.
- The TODO at `nodes/safeguard_classify_node.py:98` asks for a
  safety-classification prompt. The code classifies with regular-expression
  rules (lines 75-87) and calls no backend. Empty text matches no rule and is
  labelled SAFE.
- The TODO at `nodes/quality_check_node.py:54` asks for a YES/NO verdict from
  a quality-check prompt. The code stops after the two structural checks
  (lines 63-71) and answers YES when both pass (line 73). No yes/no parser
  exists in the code.

## Left out

- The model call (`core/translate/nodes/call_model_node.py`): a Gemini client
  with network I/O. It becomes `TranslateStep.Backend.generate`, which answers
  a prompt with text or with nothing.
- TranslateStep.Run: the code reads the answer from a `model_output` key that
  the model-call step never writes. The model takes the backend's answer
  directly, as the step evidently intends.
- TranslateStep.Run: `TranslateNode` builds its model-call step without the
  arguments that step's constructor requires. Object construction is not
  modelled.
- The translation prompt template is not part of this model. It becomes
  `Backend.render`.
- The fail-response, retry-gate, retry-translate and response steps are not
  part of this model. They are parameters of `TranslateGraph.Steps`.
- Retry loop: because of that, no bound on the number of retries is stated.
  Only the graph-shape facts about the loop are proved.
- Regular expressions: the regex engine (`re.search`, `re.findall`, Unicode
  `\s` and `\b`) is abstract, as `search` and `findall` parameters. The
  pattern literals are kept as constants. Every property holds for any engine.
- Case mapping: `str.lower` and `str.upper` are modelled on ASCII letters
  only. Full Unicode case mapping is outside the model.
- GraphShape.Walk: the LangGraph runtime (`StateGraph`, `compile`, `invoke`)
  becomes an explicit edge table and a walk bounded by fuel. A run that
  exhausts its fuel reports itself unfinished. Runtime limits such as
  LangGraph's recursion limit are not modelled.
- NormalizeInput.Run: the graph registers `run(max_input_length, state)`, but
  a node runner passes only the state. As written, `state` is never supplied
  and the call fails before the body runs. That failure is not modelled.
  `Run(s.maxInputLength, s)` is one chosen reading: the state fills both
  parameters, and the body ignores the first in any case.
- QualityCheck.Run: the `None` test on the two texts cannot fire on a state
  whose fields are strings, so it is not modelled.
- The service layer and settings loading are not modelled. Only the initial
  state literal and the two default limits are kept.
