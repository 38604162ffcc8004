/**
 * The conversation state that the workflow nodes read, the values that can
 * stand in a message, and the partial updates the nodes return.
 *
 * The state is a dictionary whose keys may be missing: every key is an
 * Option here, None meaning "the key is absent". A node returns a dictionary
 * holding only the keys it sets, modelled the same way by Update.
 */
module State {

  datatype Option<+T> = None | Some(value: T) {
    /** The value, or `default` when there is none (Python's `dict.get(key, default)`). */
    function GetOr(default: T): T {
      match this
      case Some(v) => v
      case None => default
    }
  }

  /** The outcome of a call that may raise: its value, or the text of the exception. */
  datatype Result<+T> = Success(value: T) | Failure(error: string)

  /** A tool invocation requested by an assistant message. */
  datatype ToolCall = ToolCall(id: string, name: string)

  /**
   * The values an assistant message's content can hold in this workflow:
   * Python's None, a text, or the whole result dictionary of the agent run.
   */
  datatype Value =
    | NoneValue
    | Text(text: string)
    | AgentOutput(result: AgentResult)

  /** The dictionary returned by the agent run; its "messages" key may be missing. */
  datatype AgentResult = AgentResult(messages: Option<seq<Message>>)

  /** The message kinds of the conversation history. */
  datatype Message =
    | HumanMessage(text: string)
    | AIMessage(content: Value, toolCalls: seq<ToolCall>)
    | ToolMessage(text: string, toolCallId: string)
    | SystemMessage(text: string)

  /** The keys of the conversation state that the two nodes read. */
  datatype ExamHelperState = ExamHelperState(
    messages: Option<seq<Message>>,
    userIntent: Option<string>,
    orchestratorResult: Option<Value>,
    turnCount: Option<int>)

  /** The dictionary a node returns: only the keys that are Some are present. */
  datatype Update = Update(
    messages: Option<seq<Message>>,
    userIntent: Option<string>,
    orchestratorResult: Option<Value>,
    currentResponse: Option<Value>,
    turnCount: Option<int>,
    error: Option<seq<string>>)

  /** The empty dictionary, from which each node's result is built key by key. */
  const NoKeys: Update := Update(None, None, None, None, None, None)

  /** A human (user) message. */
  predicate IsHuman(m: Message) {
    m.HumanMessage?
  }

  /**
   * An assistant message without tool calls: the entry that carries the
   * reply of the turn. A message with a non-empty tool-call list is a
   * pending tool request and never counts.
   */
  predicate IsReplySlot(m: Message) {
    m.AIMessage? && |m.toolCalls| == 0
  }

  /** `j` is the highest index of `s` whose element satisfies `p`. */
  ghost predicate IsLastWhere<T>(s: seq<T>, p: T -> bool, j: int) {
    0 <= j < |s| && p(s[j]) && forall k :: j < k < |s| ==> !p(s[k])
  }

  /**
   * The reverse scan both nodes perform: the index of the last element of
   * `s` that satisfies `p`, or None when no element does.
   */
  function LastIndexWhere<T>(s: seq<T>, p: T -> bool): (r: Option<nat>)
    ensures r.Some? ==> IsLastWhere(s, p, r.value)
    ensures r.None? <==> forall j :: 0 <= j < |s| ==> !p(s[j])
    decreases |s|
  {
    if |s| == 0 then None
    else if p(s[|s| - 1]) then Some(|s| - 1)
    else LastIndexWhere(s[..|s| - 1], p)
  }

  /** The last index satisfying a predicate is unique, so it is what the scan returns. */
  lemma LastIndexWhereIs<T>(s: seq<T>, p: T -> bool, j: int)
    requires IsLastWhere(s, p, j)
    ensures LastIndexWhere(s, p) == Some(j)
  {
  }
}
