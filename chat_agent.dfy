/**
 * The reply list and the reply choice of the full-page chat component
 * (components/ChatAgent.tsx), and the delay before its reply is sent.
 */
module ChatAgent {
  import JsMath

  /** `responses` in `generateAgentResponse`. */
  const Responses: seq<string> := [
    "That's an interesting business challenge. Let me help you think through some potential solutions and strategies.",
    "Based on your question, I'd recommend focusing on a few key areas: market analysis, operational efficiency, and strategic planning.",
    "Great question! In my experience with similar business situations, here are some approaches that have proven effective...",
    "Let's break this down systematically. First, we should consider your current position, then identify opportunities for improvement.",
    "I understand your concern. This is a common challenge many businesses face. Here's how I'd approach it...",
    "That's a strategic question that requires careful consideration of multiple factors including market conditions, resources, and timing."
  ]

  /**
   * The `setTimeout` delay before the agent reply is sent, in milliseconds.
   * It only records the constant: the send pipeline models the order of
   * its steps, not their timing.
   */
  const ThinkingDelayMs: nat := 1500

  /**
   * `generateAgentResponse(userMessage)` for the draw `r` of `Math.random()`:
   * one of the six replies, whatever the message (the empty one included).
   */
  function GenerateAgentResponse(userMessage: string, r: real): (reply: string)
    requires 0.0 <= r < 1.0
    ensures reply in Responses
    ensures reply != ""
  {
    JsMath.RandomElement(Responses, r)
  }

  /** The message does not influence the choice: only the draw does. */
  lemma ReplyIgnoresMessage(m1: string, m2: string, r: real)
    requires 0.0 <= r < 1.0
    ensures GenerateAgentResponse(m1, r) == GenerateAgentResponse(m2, r)
  {
  }

  /** Each of the six replies is the outcome of some draw, for every message. */
  lemma EveryReplyPossible(userMessage: string, k: nat)
    requires k < |Responses|
    ensures 0.0 <= (k as real) / 6.0 < 1.0
    ensures GenerateAgentResponse(userMessage, (k as real) / 6.0) == Responses[k]
  {
    JsMath.EveryIndexReachable(k, |Responses|);
  }
}
