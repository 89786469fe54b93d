/** `AgentState` (src/life_os/agent/state.py). The state is a `TypedDict` with optional keys:
    keys read with a default (`entities`, `missing_fields`, `structured_records`) hold that
    default when absent; the others are `Option`s. */
module State {
  import opened Wrappers
  import opened Entities

  datatype Message = Message(role: string, content: string)

  datatype AgentState = AgentState(
    chatHistory: seq<Message>,
    userId: string,
    rawInput: string,
    entities: Entities,
    missingFields: seq<string>,
    clarificationCount: Option<int>,
    intent: Option<string>,
    abort: Option<bool>,
    response: Option<string>,
    structuredRecords: seq<FlatRecord>)

  /** `state.get("abort")` is truthy */
  predicate Aborting(s: AgentState) {
    s.abort == Some(true)
  }
}
