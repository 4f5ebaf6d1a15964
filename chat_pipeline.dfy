/**
 * The send pipeline shared by components/ChatAgent.tsx and
 * components/MiniChatAgent.tsx. The two components have the same
 * `handleSendMessage`, the same guards and the same state (`message`,
 * `isLoading`); they differ only in their reply list and reply delay,
 * which `Variant` selects.
 *
 * `handleSendMessage` runs in two steps separated by a timer: the first
 * step (HandleSendMessage) validates and trims the input, clears it, sets
 * the loading flag, sends the user message and schedules the reply; the
 * second step (FireTimer) is the `setTimeout` callback, which sends the
 * agent reply and clears the loading flag. Scheduled callbacks wait in
 * `pending`, in the order they will fire (every one has the same delay).
 * Results of the backend calls (success or a thrown error), the draws of
 * `Math.random()` and the server clock are parameters.
 */
module ChatPipeline {
  import opened Common
  import JsString
  import MessageLog
  import ChatAgent
  import MiniChatAgent
  import JsMath

  /** Which of the two components: the full page or the compact pop-up. */
  datatype Variant = FullPage | Popup

  /** The reply list of a variant. */
  function Responses(v: Variant): seq<string>
  {
    match v
    case FullPage => ChatAgent.Responses
    case Popup => MiniChatAgent.Responses
  }

  /**
   * The variant's `setTimeout` delay in milliseconds. It only records the
   * constant: the model keeps the order of the steps, not their timing.
   */
  function ThinkingDelayMs(v: Variant): nat
  {
    match v
    case FullPage => ChatAgent.ThinkingDelayMs
    case Popup => MiniChatAgent.ThinkingDelayMs
  }

  /** The variant's `generateAgentResponse`. */
  function GenerateAgentResponse(v: Variant, userMessage: string, r: real): (reply: string)
    requires 0.0 <= r < 1.0
    ensures reply in Responses(v) && reply != ""
  {
    match v
    case FullPage => ChatAgent.GenerateAgentResponse(userMessage, r)
    case Popup => MiniChatAgent.GenerateAgentResponse(userMessage, r)
  }

  /** The fields of the signed-in user that the components read; `None` is a null field. */
  datatype SignedInUser = SignedInUser(fullName: Option<string>, firstName: Option<string>)

  /** A JavaScript string value is truthy when it is present and not empty. */
  predicate Truthy(s: Option<string>)
  {
    s.Some? && s.value != ""
  }

  /** `user.fullName || user.firstName || "Anonymous"`. */
  function Author(u: SignedInUser): (name: string)
    ensures name != ""
    ensures Truthy(u.fullName) ==> name == u.fullName.value
    ensures !Truthy(u.fullName) && Truthy(u.firstName) ==> name == u.firstName.value
    ensures !Truthy(u.fullName) && !Truthy(u.firstName) ==> name == "Anonymous"
  {
    if Truthy(u.fullName) then u.fullName.value
    else if Truthy(u.firstName) then u.firstName.value
    else "Anonymous"
  }

  /** The guard at the top of `handleSendMessage`: a non-blank input and a signed-in user. */
  predicate CanSend(message: string, user: Option<SignedInUser>): (ok: bool)
    ensures ok <==> !JsString.AllTrimmable(message) && user.Some?
  {
    JsString.TrimBlankIff(message);
    JsString.Trim(message) != "" && user.Some?
  }

  /** A guard-passing send stores a non-empty body and a non-empty author. */
  lemma SendStoresNonEmpty(message: string, user: Option<SignedInUser>)
    requires CanSend(message, user)
    ensures JsString.Trim(message) != "" && Author(user.value) != ""
    ensures !JsString.AllTrimmable(message)
  {
    JsString.TrimBlankIff(message);
  }

  /** A scheduled `setTimeout` callback: the reply it will send and the message it answers. */
  datatype PendingReply = PendingReply(agentResponse: string, inResponseTo: string)

  /** The state of one mounted chat component and the table it talks to. */
  class ChatSession {
    const variant: Variant
    /** The variant's reply list, `Responses(variant)`. */
    const responses: seq<string>
    const table: MessageLog.MessageTable
    var message: string
    var isLoading: bool
    var pending: seq<PendingReply>

    ghost predicate Valid()
      reads this, table
    {
      && table.Valid()
      && responses == Responses(variant)
      && |responses| > 0
      && forall k :: 0 <= k < |responses| ==> responses[k] != ""
    }

    /**
     * The UI keeps submissions from overlapping: while a reply is
     * scheduled the component is loading, and at most one reply is
     * scheduled at a time.
     */
    ghost predicate NoOverlap()
      reads this
    {
      |pending| <= 1 && (pending != [] ==> isLoading)
    }

    /** Mounting the component: `useState("")` and `useState(false)`. */
    constructor (variant: Variant, table: MessageLog.MessageTable)
      requires table.Valid()
      ensures Valid() && NoOverlap()
      ensures this.variant == variant && this.table == table && responses == Responses(variant)
      ensures message == "" && !isLoading && pending == []
    {
      this.variant := variant;
      responses := Responses(variant);
      this.table := table;
      message := "";
      isLoading := false;
      pending := [];
    }

    /** `disabled={!message.trim() || isLoading}` on the send button. */
    function SendDisabled(): (disabled: bool)
      reads this
      ensures disabled <==> isLoading || JsString.AllTrimmable(message)
    {
      JsString.TrimBlankIff(message);
      JsString.Trim(message) == "" || isLoading
    }

    /** The text area's `onChange`: `setMessage(e.target.value)`. */
    method SetMessage(text: string)
      modifies this
      ensures message == text
      ensures isLoading == old(isLoading) && pending == old(pending)
    {
      message := text;
    }

    /**
     * The first step of `handleSendMessage`. `r` is the draw of
     * `Math.random()`, `sendSucceeds` says whether the `sendMessage`
     * mutation resolved or threw, `now` is the server clock at its insert.
     */
    method HandleSendMessage(user: Option<SignedInUser>, r: real, sendSucceeds: bool, now: int)
      requires Valid()
      requires 0.0 <= r < 1.0
      modifies this, table
      ensures Valid()
      ensures !CanSend(old(message), user) ==>
        message == old(message) && isLoading == old(isLoading) && pending == old(pending)
        && table.rows == old(table.rows)
      ensures CanSend(old(message), user) && !sendSucceeds ==>
        message == "" && !isLoading && pending == old(pending) && table.rows == old(table.rows)
      ensures CanSend(old(message), user) && sendSucceeds ==>
        var userMessage := JsString.Trim(old(message));
        && message == ""
        && isLoading
        && table.rows == old(table.rows) + [MessageLog.Message(|old(table.rows)|, Author(user.value), userMessage, now, MessageLog.User)]
        && pending == old(pending) + [PendingReply(JsMath.RandomElement(responses, r), userMessage)]
    {
      if JsString.Trim(message) == "" || user.None? {
        return;
      }
      var userMessage := JsString.Trim(message);
      message := "";
      isLoading := true;
      if !sendSucceeds {
        // the catch block
        isLoading := false;
        return;
      }
      table.SendMessage(Author(user.value), userMessage, Some(MessageLog.User), now);
      var agentResponse := JsMath.RandomElement(responses, r);
      pending := pending + [PendingReply(agentResponse, userMessage)];
    }

    /**
     * The `setTimeout` callback, run when its delay has passed. When the
     * `sendAgentResponse` mutation throws, the rejection is not caught:
     * nothing is stored and `isLoading` stays as it was.
     */
    method FireTimer(sendSucceeds: bool, now: int)
      requires Valid()
      requires pending != []
      modifies this, table
      ensures Valid()
      ensures message == old(message) && pending == old(pending)[1..]
      ensures sendSucceeds ==>
        && !isLoading
        && table.rows == old(table.rows) + [MessageLog.Message(|old(table.rows)|, MessageLog.AgentName, old(pending)[0].agentResponse, now, MessageLog.Agent)]
      ensures !sendSucceeds ==> isLoading == old(isLoading) && table.rows == old(table.rows)
      ensures old(NoOverlap()) ==> NoOverlap() && pending == []
    {
      var p := pending[0];
      pending := pending[1..];
      if sendSucceeds {
        table.SendAgentResponse(p.agentResponse, Some(p.inResponseTo), now);
        isLoading := false;
      }
    }

    /**
     * A submission from the UI: pressing Enter in the text area or
     * clicking the send button. Both are disabled while loading
     * (`disabled={isLoading}` on the text area), so
     * `handleSendMessage` runs only when not loading; a blank input is
     * then refused by its own guard.
     */
    method Submit(user: Option<SignedInUser>, r: real, sendSucceeds: bool, now: int)
      requires Valid() && NoOverlap()
      requires 0.0 <= r < 1.0
      modifies this, table
      ensures Valid() && NoOverlap()
      ensures old(isLoading) ==> message == old(message) && isLoading && pending == old(pending) && table.rows == old(table.rows)
      ensures !old(isLoading) && !CanSend(old(message), user) ==>
        message == old(message) && !isLoading && pending == old(pending) && table.rows == old(table.rows)
      ensures !old(isLoading) && CanSend(old(message), user) && !sendSucceeds ==>
        message == "" && !isLoading && pending == [] && table.rows == old(table.rows)
      ensures !old(isLoading) && CanSend(old(message), user) && sendSucceeds ==>
        var userMessage := JsString.Trim(old(message));
        && message == ""
        && isLoading
        && table.rows == old(table.rows) + [MessageLog.Message(|old(table.rows)|, Author(user.value), userMessage, now, MessageLog.User)]
        && pending == [PendingReply(JsMath.RandomElement(responses, r), userMessage)]
    {
      if !isLoading {
        HandleSendMessage(user, r, sendSucceeds, now);
      }
    }

    /**
     * One whole exchange from an idle component: the user message is
     * stored first, then the agent reply, and a read afterwards shows the
     * reply first and the user message second.
     */
    method SendAndReply(user: Option<SignedInUser>, r: real, now1: int, now2: int) returns (page: seq<MessageLog.Message>)
      requires Valid() && NoOverlap() && !isLoading
      requires CanSend(message, user)
      requires 0.0 <= r < 1.0
      modifies this, table
      ensures Valid() && NoOverlap()
      ensures message == "" && !isLoading && pending == []
      ensures
        var userMessage := JsString.Trim(old(message));
        var n := |old(table.rows)|;
        table.rows == old(table.rows) + [
          MessageLog.Message(n, Author(user.value), userMessage, now1, MessageLog.User),
          MessageLog.Message(n + 1, MessageLog.AgentName, JsMath.RandomElement(responses, r), now2, MessageLog.Agent)]
      ensures |page| >= 2 && page[0] == table.rows[|table.rows| - 1] && page[1] == table.rows[|table.rows| - 2]
      ensures page[0].messageType == MessageLog.Agent && page[0].user == MessageLog.AgentName
      ensures page[1].messageType == MessageLog.User && page[1].body == JsString.Trim(old(message))
    {
      ghost var before := table.rows;
      ghost var userMessage := JsString.Trim(message);
      ghost var reply := JsMath.RandomElement(responses, r);
      HandleSendMessage(user, r, true, now1);
      assert pending == [PendingReply(reply, userMessage)];
      ghost var userRecord := table.rows[|before|];
      FireTimer(true, now2);
      AppendTwice(before, userRecord, table.rows[|before| + 1]);
      assert table.Valid();
      page := table.GetMessages();
    }
  }

  /**
   * The reply a valid session schedules for a draw `r` (`HandleSendMessage`
   * puts `RandomElement(responses, r)` in `pending`) is its component's
   * `generateAgentResponse` of the message, one of that component's replies.
   */
  lemma SessionReplyIsGenerated(s: ChatSession, userMessage: string, r: real)
    requires s.Valid()
    requires 0.0 <= r < 1.0
    ensures JsMath.RandomElement(s.responses, r) == GenerateAgentResponse(s.variant, userMessage, r)
    ensures JsMath.RandomElement(s.responses, r) in Responses(s.variant)
  {
  }
}
