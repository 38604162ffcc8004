/**
 * The orchestrator node: the first step of a turn. It finds the latest user
 * text, settles the user's intent and runs the orchestrator agent on the
 * history.
 */
module OrchestratorNode {
  import opened State
  import opened Messages

  /** The intent value of a conversation whose intent is not settled yet. */
  const Unknown: string := "unknown"

  /** Prefix of the error string the node returns when it raises. */
  const FailurePrefix: string := "Orchestrator node failed: "

  /**
   * The intent after this turn. A settled intent is kept whatever the user
   * writes; an unknown one is classified by `detectIntent` from the latest
   * user text, and stays unknown, without classification, when there is no
   * such text.
   */
  function ResolveIntent(current: string, userMsg: string, detectIntent: string -> string): (r: string)
    ensures current != Unknown ==> r == current
    ensures current == Unknown && userMsg == "" ==> r == Unknown
    ensures current == Unknown && userMsg != "" ==> r == detectIntent(userMsg)
  {
    if current == Unknown && userMsg != "" then detectIntent(userMsg) else current
  }

  /**
   * One run of the node on `state`.
   *
   * `detectIntent` is the intent classifier, a deterministic function of the
   * text whose rules are not part of this model. `outcome` stands for
   * building and invoking the agent on the history: its result dictionary,
   * or the text of the exception that any of those steps raised. On success
   * the node returns the agent's messages (empty when the result has none),
   * the resolved intent and the whole result; on failure only a None result
   * and a one-element error list, so the intent it resolved is dropped.
   */
  method Process(state: ExamHelperState, detectIntent: string -> string, outcome: Result<AgentResult>)
    returns (update: Update)
    ensures if outcome.Failure?
            then update == NoKeys.(orchestratorResult := Some(NoneValue),
                                   error := Some([FailurePrefix + outcome.error]))
            else update == NoKeys.(messages := Some(outcome.value.messages.GetOr([])),
                                   userIntent := Some(ResolveIntent(state.userIntent.GetOr(Unknown),
                                                                    LastHumanText(state.messages.GetOr([])),
                                                                    detectIntent)),
                                   orchestratorResult := Some(AgentOutput(outcome.value)))
  {
    var history := state.messages.GetOr([]);
    var userMsg := "";
    for i := |history| downto 0
      invariant forall k :: i <= k < |history| ==> !IsHuman(history[k])
    {
      if IsHuman(history[i]) {
        assert IsLastWhere(history, IsHuman, i);
        userMsg := history[i].text;
        break;
      }
    }
    assert userMsg == LastHumanText(history);

    var currentIntent := ResolveIntent(state.userIntent.GetOr(Unknown), userMsg, detectIntent);

    match outcome
    case Failure(e) =>
      update := NoKeys.(orchestratorResult := Some(NoneValue), error := Some([FailurePrefix + e]));
    case Success(result) =>
      update := NoKeys.(messages := Some(result.messages.GetOr([])),
                        userIntent := Some(currentIntent),
                        orchestratorResult := Some(AgentOutput(result)));
  }

  /** The intent after a series of turns whose latest user texts are `userMsgs`, in order. */
  function IntentAfterTurns(intent: string, userMsgs: seq<string>, detectIntent: string -> string): string
    decreases |userMsgs|
  {
    if |userMsgs| == 0 then intent
    else IntentAfterTurns(ResolveIntent(intent, userMsgs[0], detectIntent), userMsgs[1..], detectIntent)
  }

  /** The classification of the first non-empty text that classifies as something other than unknown. */
  function FirstResolved(userMsgs: seq<string>, detectIntent: string -> string): Option<string>
    decreases |userMsgs|
  {
    if |userMsgs| == 0 then None
    else if userMsgs[0] != "" && detectIntent(userMsgs[0]) != Unknown then Some(detectIntent(userMsgs[0]))
    else FirstResolved(userMsgs[1..], detectIntent)
  }

  /**
   * Over any number of turns the intent is sticky: a settled intent never
   * changes, and an unknown one becomes the classification of the first
   * user text that classifies as something known, and then stays.
   */
  lemma {:induction false} IntentIsSticky(intent: string, userMsgs: seq<string>, detectIntent: string -> string)
    ensures intent != Unknown ==> IntentAfterTurns(intent, userMsgs, detectIntent) == intent
    ensures intent == Unknown ==>
              IntentAfterTurns(intent, userMsgs, detectIntent) == FirstResolved(userMsgs, detectIntent).GetOr(Unknown)
    decreases |userMsgs|
  {
    if |userMsgs| > 0 {
      IntentIsSticky(ResolveIntent(intent, userMsgs[0], detectIntent), userMsgs[1..], detectIntent);
    }
  }
}
