/**
 * The reply list and the reply choice of the compact pop-up chat component
 * (components/MiniChatAgent.tsx), and the delay before its reply is sent.
 */
module MiniChatAgent {
  import JsMath

  /** `responses` in `generateAgentResponse`. */
  const Responses: seq<string> := [
    "Great question! Let me help you with that business challenge.",
    "I'd recommend focusing on market analysis and strategic planning for this.",
    "That's a common issue. Here's what I suggest...",
    "Let's break this down into actionable steps.",
    "Based on best practices, here's my recommendation...",
    "I can help you develop a strategy for that."
  ]

  /**
   * The `setTimeout` delay before the agent reply is sent, in milliseconds.
   * It only records the constant: the send pipeline models the order of
   * its steps, not their timing.
   */
  const ThinkingDelayMs: nat := 1000

  /**
   * `generateAgentResponse(userMessage)` for the draw `r` of `Math.random()`:
   * one of the six replies, whatever the message (the empty one included).
   */
  function GenerateAgentResponse(userMessage: string, r: real): (reply: string)
    requires 0.0 <= r < 1.0
    ensures reply in Responses
    ensures reply != ""
  {
    JsMath.RandomElement(Responses, r)
  }

  /** The message does not influence the choice: only the draw does. */
  lemma ReplyIgnoresMessage(m1: string, m2: string, r: real)
    requires 0.0 <= r < 1.0
    ensures GenerateAgentResponse(m1, r) == GenerateAgentResponse(m2, r)
  {
  }

  /** Each of the six replies is the outcome of some draw, for every message. */
  lemma EveryReplyPossible(userMessage: string, k: nat)
    requires k < |Responses|
    ensures 0.0 <= (k as real) / 6.0 < 1.0
    ensures GenerateAgentResponse(userMessage, (k as real) / 6.0) == Responses[k]
  {
    JsMath.EveryIndexReachable(k, |Responses|);
  }
}
