/** The two guard nodes of the graph (src/life_os/agent/nodes/guard.py): the input guard screens
    the user's message before anything else reads it; the output guard makes sure the persister
    always has at least one record. A node returns the whole updated state, which is what the
    graph's merge of the node's partial dict produces. */
module Guard {
  import opened Wrappers
  import opened Entities
  import opened State
  import opened Guardrails

  const MaxInputChars: nat := 2000
  const TruncationMarker: string := "... [truncated]"
  const RefusalMessage: string := "Sorry, I cannot process that message."

  const CrisisHead: string :=
    "I noticed something in your message that concerns me. If you are struggling, please reach out:\n\U{1F198} "
  const CrisisTail: string :=
    " (India): 9152987821\n\U{1F198} Vandrevala Foundation: 1860-2662-345 (24/7)\nI am here to chat whenever you feel ready. \U{1F499}"
  /** `_CRISIS_MESSAGE`: the helplines sent instead of any other reply. */
  const CrisisMessage: string := CrisisHead + "iCall" + CrisisTail

  /** The length guard: a message over 2000 characters keeps its first 2000 and gets a marker. */
  function Truncate(raw: string): (r: string)
    ensures |r| <= MaxInputChars + |TruncationMarker|
    ensures |raw| <= MaxInputChars ==> r == raw
    ensures |raw| > MaxInputChars ==> |r| == MaxInputChars + |TruncationMarker|
    ensures |raw| > MaxInputChars ==> r[..MaxInputChars] == raw[..MaxInputChars] && r[MaxInputChars..] == TruncationMarker
  {
    if |raw| > MaxInputChars then raw[..MaxInputChars] + TruncationMarker else raw
  }

  /** `run_input_guard`. The screened text is the truncated one; an injection refuses, a crisis
      sends the helplines (both abort and leave `raw_input` as it was), otherwise the truncated
      text replaces `raw_input` and `abort` is cleared. */
  function InputGuardNode(s: AgentState): (r: AgentState)
    ensures ContainsInjection(Truncate(s.rawInput)) ==> r == s.(abort := Some(true), response := Some(RefusalMessage))
    ensures !ContainsInjection(Truncate(s.rawInput)) && ContainsCrisis(Truncate(s.rawInput)) ==>
      r == s.(abort := Some(true), response := Some(CrisisMessage))
    ensures Aborting(r) <==> ContainsInjection(Truncate(s.rawInput)) || ContainsCrisis(Truncate(s.rawInput))
    ensures !Aborting(r) ==> r == s.(rawInput := Truncate(s.rawInput), abort := Some(false))
  {
    var raw := Truncate(s.rawInput);
    match NewInputGuard(raw)
    case Failure(_) => s.(abort := Some(true), response := Some(RefusalMessage))
    case Success(g) =>
      var checked := CheckCrisis(g);
      if checked.detectedCrisis then s.(abort := Some(true), response := Some(CrisisMessage))
      else s.(rawInput := checked.rawText, abort := Some(false))
  }

  /** The fallback record of `run_output_guard`: the raw message as a journal note. */
  function FallbackRecord(raw: string): (r: FlatRecord)
    ensures r.kind == "journal" && r.fields == [Field("note", TextS(raw))]
  {
    FlatRecord("journal", [Field("note", TextS(raw))])
  }

  /** `run_output_guard`: leaves a non-empty record list alone and replaces an empty one with the
      fallback; only the records can change. */
  function OutputGuardNode(s: AgentState): (r: AgentState)
    ensures |r.structuredRecords| > 0
    ensures s.structuredRecords != [] ==> r == s
    ensures s.structuredRecords == [] ==> r == s.(structuredRecords := [FallbackRecord(s.rawInput)])
    ensures r.(structuredRecords := s.structuredRecords) == s
  {
    if s.structuredRecords == [] then s.(structuredRecords := [FallbackRecord(s.rawInput)]) else s
  }

  /** A second pass of the output guard changes nothing. */
  lemma OutputGuardIdempotent(s: AgentState)
    ensures OutputGuardNode(OutputGuardNode(s)) == OutputGuardNode(s)
  {
  }

  /** The helplines name iCall. */
  lemma CrisisMessageNamesICall()
    ensures CrisisMessage[|CrisisHead|..|CrisisHead| + 5] == "iCall"
  {
  }

  /** A message with both an injection phrase and a crisis phrase is refused, not answered with
      the helplines. */
  lemma InjectionTakesPriority(s: AgentState)
    requires |s.rawInput| <= MaxInputChars
    requires ContainsInjection(s.rawInput) && ContainsCrisis(s.rawInput)
    ensures InputGuardNode(s).response == Some(RefusalMessage)
    ensures InputGuardNode(s).rawInput == s.rawInput
  {
  }

  /** A safe message is kept verbatim when short and cut to 2000 characters plus the marker when long. */
  lemma SafeInputStored(s: AgentState)
    requires !Aborting(InputGuardNode(s))
    ensures |s.rawInput| <= MaxInputChars ==> InputGuardNode(s).rawInput == s.rawInput
    ensures |s.rawInput| > MaxInputChars ==>
      InputGuardNode(s).rawInput == s.rawInput[..MaxInputChars] + TruncationMarker
    ensures InputGuardNode(s).response == s.response
  {
  }

  /** The crisis message for "I am going to kill myself". */
  lemma CrisisExample(s: AgentState)
    requires s.rawInput == "I am going to kill myself"
    ensures Aborting(InputGuardNode(s))
    ensures InputGuardNode(s).response == Some(CrisisMessage)
  {
    Guardrails.CrisisExample();
    Guardrails.CrisisExampleIsNoInjection();
  }
}
