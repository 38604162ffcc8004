# ExamHelper turn-state nodes, modelled in Dafny

ExamHelper runs each conversational turn through two workflow nodes:

- The **orchestrator node** reads the conversation state. It finds the text of the latest user message and settles the user's intent. A settled intent is sticky. An `"unknown"` intent is classified from the latest user text, if there is one. The node then runs the orchestrator agent on the message history.
- The **synthesizer node** runs after it. It finds the turn's reply entry, which is the last assistant message without tool calls, and passes the orchestrator result to a new assistant message that takes that entry's place. It returns the response and advances the turn counter by one. If the message library rejects the value, the node returns only an error list.

Each node returns a partial dictionary of state keys. Failures come back as an error list and are not raised.

The model has four modules:

- `State` (`state.dfy`) holds the data model:
  - messages: human, assistant with tool calls, tool, system;
  - the values an assistant message can hold: `None`, a text, or the agent's whole result dictionary;
  - the state keys the nodes read;
  - the partial updates the nodes return. A missing key is `None`.
  - It also holds the reverse scan `LastIndexWhere`, which both nodes perform, defined once.
- `Messages` (`messages.dfy`) holds two views of the history:
  - `FoldReply`, the reply-entry replacement;
  - `LastHumanText`, the latest user text.
  - It also proves how the two interact.
- `SynthesizerNode` (`synthesizer_node.dfy`) holds the node as a method. The method copies the history into a fresh array and scans it downwards. It overwrites one slot and stops.
- `OrchestratorNode` (`orchestrator_node.dfy`) holds the node as a method with its own downward scan. It also holds the intent rule, as a function and as a lemma over any series of successful orchestrator runs.

The state's message list is a Dafny sequence, which is a value. The synthesizer works on a copy, so the caller's list is never written, as in the source.

What the nodes do not do:

- The synthesizer node never calls the polishing agent. It passes the orchestrator result, which is the agent's result dictionary or `None`, unchanged to the new assistant message. Whether the message library accepts such a value is the `contentAccepted` parameter of `SynthesizerNode.Process`. If the library rejects it, the node returns only the error list and the history is not returned.
- When there is no reply entry, the history is returned unchanged. No entry is appended.
- The nodes have no responder registry, no greeting short-cut and no no-op turn for empty input.
- An absent `orchestrator_result` reads as `""`. A present `None` (left by a failed orchestrator run) is not replaced by `""`: it is passed as `None` to the new assistant message and returned as the response, unless the message library rejects it.

## Model

| member | source | states |
|---|---|---|
| State.LastIndexWhere | app/nodes/synthesizer_node.py:28-31 | The reverse scan returns the highest index whose element satisfies the test, or none exactly when no element does. |
| Messages.FoldReply | app/nodes/synthesizer_node.py:27-31 | The list keeps its length. Only the last assistant message without tool calls may differ, and it becomes an assistant message with the given content and no tool calls. Human messages and assistant messages with tool calls are never replaced. With no such entry, the list is unchanged. |
| Messages.LastHumanText | app/nodes/orchestrator_node.py:28-32 | The user text is the text of the highest-index human message, or `""` when there is none. |
| Messages.FoldReplyKeepsSlot | app/nodes/synthesizer_node.py:28-31 | After a fold, the scan finds the same reply entry it found before. |
| Messages.FoldReplyLastWriteWins | app/nodes/synthesizer_node.py:28-31 | Two folds equal one fold with the second content, so repeated runs overwrite one entry and never add a second reply. |
| Messages.FoldReplyIdempotent | app/nodes/synthesizer_node.py:28-31 | Folding the same content twice equals folding it once. |
| Messages.FoldReplyKeepsUserMessage | app/nodes/synthesizer_node.py:29-30 | The fold never changes the latest user text that the orchestrator node reads. |
| SynthesizerNode.Process | app/nodes/synthesizer_node.py:22-46 | On success the node returns exactly three keys: the folded copy of the history, the response (the orchestrator result, or `""` when absent, and the same value written into the entry), and the turn count plus one (absent reads as 0). When the new assistant message cannot be built, it returns only `["Synthesizer node failed: " + error]`. |
| OrchestratorNode.ResolveIntent | app/nodes/orchestrator_node.py:34-37 | A settled intent is kept. An unknown intent with no user text stays unknown. An unknown intent with user text becomes the classifier's verdict on that text. |
| OrchestratorNode.Process | app/nodes/orchestrator_node.py:24-62 | On success the node returns exactly three keys: the agent's messages (empty when absent), the resolved intent (an absent intent reads as `"unknown"`), and the whole agent result. On failure it returns only a `None` result and the error list `["Orchestrator node failed: " + error]`, with no messages or intent key. |
| OrchestratorNode.IntentIsSticky | app/nodes/orchestrator_node.py:34-37 | Over any series of successful orchestrator runs, each starting from the intent the previous one returned, a settled intent never changes. An unknown intent ends as the verdict on the first non-empty text the classifier does not call unknown, or stays unknown when there is none. |

## Left out

- Building and invoking the orchestrator agent (`get_agent_tools`, `get_prompt`, `create_react_agent`, `agent.invoke`): these are language-model and library calls. `OrchestratorNode.Process` takes their combined outcome as a parameter, either a result dictionary or an exception text. The agent's input (the prompt, built from the intent stored before this turn, and the history) is therefore not modelled.
- `detect_intent`: app/utils/intent_detector.py is not part of this model. It is a parameter, a deterministic function from text to intent.
- `get_conversation_context` is imported by the orchestrator node but never called. app/agents/state.py is not part of this model.
- OrchestratorNode.IntentIsSticky: covers only successful orchestrator runs chained through their returned intent. A failed run returns no `user_intent` key and drops the intent it resolved. Carrying the intent from one run to the next depends on state merging, which is not modelled.
- Merging node updates into the state: the reducers declared in app/agents/state.py are not part of this model. The model ends at the dictionary each node returns.
- SynthesizerNode.Process: the validation that may make `AIMessage(content=...)` raise belongs to the message library, so it is a parameter (`contentAccepted`), and the exception text is a parameter too.
- Other ways the two nodes can raise are not modelled: a state key present with a value of the wrong type, such as a `None` message list or turn count. The model types each key as an optional value of its proper type.
- Human, tool and system message content is text. List-valued content (multimodal parts) and subclasses of the message classes are not modelled.
- The synthesizer agent (app/agents/synthesizer_agent/synthesizer_agent.py) is not modelled, because the node never calls it. Its only logic is a fallback to the input text when the model call fails.
- Prompt text and templating in the orchestrator and learner agents, the interactive loop in app/main.py, and the web search tool (app/tools/firecrawl_search_tool.py) are not modelled. They are language-model, console and network I/O.
- Logging through `structlog` is not modelled.
