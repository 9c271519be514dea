/** The items of a chat history, as the sampling-types crate stores them. Fields no modelled
    operation reads or rewrites are grouped (`TurnMeta`, `model`) or reduced to their length. */
module Conversation {
  import opened Wrappers

  datatype ContentPart = Text(text: string) | Image(url: string)

  datatype ImageDetail = Auto | Low | High | Original

  datatype OutputPart = OutText(text: string) | OutImage(url: string, detail: ImageDetail)

  datatype SyntheticReason =
    | CompactionMeta | SystemReminder | LengthContinue | ProjectInstructions | AutoContinue
    | AutoRecovery | Interjection | TaskCompleted | SubagentCompleted | NotificationDrain
    | GoalSummary | GoalClassifierNudge | SchedulerFired | AgentMessage | StopHookFeedback
    | WorkingDirectorySwitch | Unknown

  datatype TurnMeta = TurnMeta(cwdGeneration: Option<nat>, interrupted: bool, promptIndex: Option<nat>)

  const NO_TURN := TurnMeta(None, false, None)

  datatype ToolCall = ToolCall(id: string, name: string, arguments: string)

  datatype Item =
    | System(content: string)
    | User(parts: seq<ContentPart>, reason: Option<SyntheticReason>, turn: TurnMeta)
    | Assistant(content: string, toolCalls: seq<ToolCall>, model: string)
    | ToolResult(toolCallId: string, content: string, images: seq<ContentPart>, ordered: seq<OutputPart>)
    | CustomToolOutput(callId: string, itemId: Option<string>, name: Option<string>, output: seq<OutputPart>)
    | BackendToolCall(contentLen: nat)
    | Reasoning(summary: string, encrypted: Option<string>)

  predicate IsOutput(item: Item) {
    item.ToolResult? || item.CustomToolOutput?
  }

  predicate IsAgentMessage(item: Item) {
    item.User? && item.reason == Some(AgentMessage)
  }

  /** The two decoders of tool-call ids. `custom` reads the compatibility envelope of a native
      custom call, `codex` the envelope of a Codex function call; each yields the provider's call id.
      Every result below holds for whatever strings the two decoders accept. */
  datatype IdCodec = IdCodec(custom: string -> Option<string>, codex: string -> Option<string>)

  /** `provider_tool_call_id`: the reading used for the calls an assistant declares. */
  function ProviderId(d: IdCodec, id: string): string {
    match d.custom(id)
    case Some(c) => c
    case None => match d.codex(id) case Some(c) => c case None => id
  }

  function CallId(d: IdCodec, call: ToolCall): string {
    ProviderId(d, call.id)
  }

  /** The reading of a tool output's id in the compaction crate: it knows the custom envelope only. */
  function OutputId(d: IdCodec, item: Item): string
    requires IsOutput(item)
  {
    match item
    case ToolResult(id, _, _, _) => (match d.custom(id) case Some(c) => c case None => id)
    case CustomToolOutput(id, _, _, _) => id
  }

  /** The reading of a tool output's id in the sampling-types crate: it knows both envelopes. */
  function SamplingOutputId(d: IdCodec, item: Item): string
    requires IsOutput(item)
  {
    match item
    case ToolResult(id, _, _, _) => ProviderId(d, id)
    case CustomToolOutput(id, _, _, _) => id
  }

  function CallIds(d: IdCodec, calls: seq<ToolCall>): set<string> {
    set call | call in calls :: CallId(d, call)
  }

  /** Ids an item declares: an assistant's calls, nothing for any other item. */
  function DeclaredIds(d: IdCodec, item: Item): set<string> {
    if item.Assistant? then CallIds(d, item.toolCalls) else {}
  }

  // ----- runs of outputs

  predicate AllOutputs(run: seq<Item>) {
    forall x :: x in run ==> IsOutput(x)
  }

  /** Length of the leading run of outputs. */
  function RunLength(h: seq<Item>): (n: nat)
    ensures n <= |h| && AllOutputs(h[..n])
    ensures n < |h| ==> !IsOutput(h[n])
  {
    if h != [] && IsOutput(h[0]) then
      var n := 1 + RunLength(h[1..]);
      assert h[..n] == [h[0]] + h[1..][..n - 1];
      n
    else 0
  }
}
