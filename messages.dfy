/**
 * The two views of the message history that the nodes rely on: the reply
 * fold (replace the last assistant entry without tool calls) and the last
 * user text. Both are defined once, on the shared reverse scan.
 */
module Messages {
  import opened State

  /**
   * The history after the reply fold: the last assistant message without
   * tool calls is replaced by a fresh assistant message holding `content`
   * and no tool calls; when there is no such message nothing changes.
   */
  function FoldReply(ms: seq<Message>, content: Value): (r: seq<Message>)
    ensures |r| == |ms|
    ensures forall j :: 0 <= j < |ms| && r[j] != ms[j] ==> IsLastWhere(ms, IsReplySlot, j)
    ensures forall j :: IsLastWhere(ms, IsReplySlot, j) ==> r[j] == AIMessage(content, [])
    ensures forall j :: 0 <= j < |ms| && !IsReplySlot(ms[j]) ==> r[j] == ms[j]
    ensures (forall j :: 0 <= j < |ms| ==> !IsReplySlot(ms[j])) ==> r == ms
  {
    match LastIndexWhere(ms, IsReplySlot)
    case None => ms
    case Some(i) => ms[i := AIMessage(content, [])]
  }

  /** The text of the most recent human message, or "" when there is none. */
  function LastHumanText(ms: seq<Message>): (r: string)
    ensures (forall j :: 0 <= j < |ms| ==> !IsHuman(ms[j])) ==> r == ""
    ensures forall j :: IsLastWhere(ms, IsHuman, j) ==> r == ms[j].text
  {
    match LastIndexWhere(ms, IsHuman)
    case None => ""
    case Some(i) => ms[i].text
  }

  /** The fold keeps the reply slot where it was: the next fold finds the same entry. */
  lemma FoldReplyKeepsSlot(ms: seq<Message>, content: Value)
    ensures LastIndexWhere(FoldReply(ms, content), IsReplySlot) == LastIndexWhere(ms, IsReplySlot)
  {
  }

  /**
   * Folding twice is folding once with the second content: the second fold
   * overwrites the entry the first one wrote, so no second reply appears.
   */
  lemma FoldReplyLastWriteWins(ms: seq<Message>, first: Value, second: Value)
    ensures FoldReply(FoldReply(ms, first), second) == FoldReply(ms, second)
  {
  }

  /** The fold is idempotent. */
  lemma FoldReplyIdempotent(ms: seq<Message>, content: Value)
    ensures FoldReply(FoldReply(ms, content), content) == FoldReply(ms, content)
  {
  }

  /** The fold never changes which text is the latest user message. */
  lemma FoldReplyKeepsUserMessage(ms: seq<Message>, content: Value)
    ensures LastHumanText(FoldReply(ms, content)) == LastHumanText(ms)
  {
  }
}
