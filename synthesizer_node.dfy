/**
 * The synthesizer node: the last step of a turn. It writes the orchestrator
 * result into the turn's reply entry of the message history and advances the
 * turn counter.
 */
module SynthesizerNode {
  import opened State
  import opened Messages

  /** Prefix of the error string the node returns when it raises. */
  const FailurePrefix: string := "Synthesizer node failed: "

  /**
   * One run of the node on `state`.
   *
   * The node copies the history, scans the copy from the end for the last
   * assistant message without tool calls, puts a new assistant message with
   * the orchestrator result (or "" when that key is absent) in its place and
   * stops; then it returns the copy, the response and the turn counter plus
   * one (an absent counter reads as 0).
   *
   * Building the new assistant message is the one step here that can raise:
   * the message library validates the content, and that validation is not
   * part of this model. `contentAccepted` says which contents it accepts and
   * `raised` is the text of the exception otherwise; the node then returns
   * only the error list.
   */
  method Process(state: ExamHelperState, contentAccepted: Value -> bool, raised: string)
    returns (update: Update)
    ensures var polished := state.orchestratorResult.GetOr(Text(""));
            var history := state.messages.GetOr([]);
            if LastIndexWhere(history, IsReplySlot).Some? && !contentAccepted(polished)
            then update == NoKeys.(error := Some([FailurePrefix + raised]))
            else update == NoKeys.(messages := Some(FoldReply(history, polished)),
                                   currentResponse := Some(polished),
                                   turnCount := Some(state.turnCount.GetOr(0) + 1))
  {
    var polished := state.orchestratorResult.GetOr(Text(""));
    var history := state.messages.GetOr([]);

    // The node works on a copy; the state's own list is never written.
    var newMessages := new Message[|history|](j requires 0 <= j < |history| => history[j]);
    for i := newMessages.Length downto 0
      invariant newMessages[..] == history
      invariant forall k :: i <= k < |history| ==> !IsReplySlot(history[k])
    {
      if IsReplySlot(newMessages[i]) {
        assert IsLastWhere(history, IsReplySlot, i);
        LastIndexWhereIs(history, IsReplySlot, i);
        if !contentAccepted(polished) {
          return NoKeys.(error := Some([FailurePrefix + raised]));
        }
        newMessages[i] := AIMessage(polished, []);
        assert newMessages[..] == FoldReply(history, polished);
        break;
      }
    }

    update := NoKeys.(messages := Some(newMessages[..]),
                      currentResponse := Some(polished),
                      turnCount := Some(state.turnCount.GetOr(0) + 1));
  }
}
