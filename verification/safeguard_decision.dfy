/** The safety-decision step: a SAFE label passes the state through, every
    other label records a block message in `error`. */
module SafeguardDecision {
  import opened Wrappers
  import opened TranslationState

  const PiiBlocked: string := "개인정보가 포함된 요청으로 차단되었습니다."
  const HarmfulBlocked: string := "유해한 콘텐츠 요청으로 차단되었습니다."
  const InjectionBlocked: string := "프롬프트 인젝션 시도로 차단되었습니다."
  /** The message of the `UNKNOWN` member, also used for any label that names
      no member. */
  const PolicyBlocked: string := "안전 정책에 의해 요청이 차단되었습니다."

  /** `SafeguardMessage[label]`, falling back to the `UNKNOWN` message when
      the lookup by member name fails. */
  function BlockMessage(name: string): (msg: string)
    ensures msg in {PiiBlocked, HarmfulBlocked, InjectionBlocked, PolicyBlocked}
    ensures msg == PiiBlocked <==> name == "PII"
    ensures msg == HarmfulBlocked <==> name == "HARMFUL"
    ensures msg == InjectionBlocked <==> name == "PROMPT_INJECTION"
    ensures msg != ""
  {
    match name
    case "PII" => PiiBlocked
    case "HARMFUL" => HarmfulBlocked
    case "PROMPT_INJECTION" => InjectionBlocked
    case _ => PolicyBlocked
  }

  /** The step, given the result of looking up the label key: an absent key
      reads as "UNKNOWN". */
  function Decide(labelEntry: Option<string>, s: State): (r: State)
    ensures labelEntry == Some("SAFE") ==> r == s
    ensures labelEntry != Some("SAFE") ==> r.error.Some? && r.error.value != ""
    ensures r == s.(error := r.error)
    ensures labelEntry.None? ==> r.error == Some(PolicyBlocked)
    ensures labelEntry.Some? && labelEntry.value != "SAFE" ==>
              r.error == Some(BlockMessage(labelEntry.value))
  {
    var name := labelEntry.GetOr("UNKNOWN");
    if name == "SAFE" then s
    else s.(error := Some(BlockMessage(name)))
  }

  /** `SafeguardDecisionNode.run` on a state that carries its label. */
  function Run(s: State): (r: State)
    ensures s.safeguardLabel == "SAFE" ==> r == s
    ensures s.safeguardLabel != "SAFE" ==> r == s.(error := Some(BlockMessage(s.safeguardLabel)))
  {
    Decide(Some(s.safeguardLabel), s)
  }

  /** The three specific block messages are pairwise distinct and distinct
      from the generic one, and every label outside the three blocked
      categories, "UNKNOWN" and "PASS" included, gets the generic message. */
  lemma BlockMessagesDistinct(name: string)
    ensures PiiBlocked != HarmfulBlocked && PiiBlocked != InjectionBlocked
    ensures HarmfulBlocked != InjectionBlocked
    ensures PolicyBlocked !in {PiiBlocked, HarmfulBlocked, InjectionBlocked}
    ensures name !in {"PII", "HARMFUL", "PROMPT_INJECTION"} <==> BlockMessage(name) == PolicyBlocked
  {
  }
}
