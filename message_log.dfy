/**
 * The `messages` table of the Convex backend and the three functions of
 * convex/chat.ts that use it: the mutations `sendMessage` and
 * `sendAgentResponse`, each inserting one record, and the query
 * `getMessages`, which reads the 50 newest records, newest first.
 *
 * The table is append-only: nothing in the backend updates or deletes a
 * record. Convex orders a table by insertion (its creation time), so a
 * record's position in `rows` is its logical insertion clock, kept in the
 * record as `creation`. The stored `timestamp` is the server's `new Date()`
 * at insertion; it is a parameter here and plays no part in the order.
 */
module MessageLog {
  import opened Common

  /** The `messageType` column: "user" or "agent". */
  datatype MessageType = User | Agent

  /** One stored record. `creation` stands for the system fields `_id` and `_creationTime`. */
  datatype Message = Message(creation: nat, user: string, body: string, timestamp: int, messageType: MessageType)

  /** The author that `sendAgentResponse` writes on every agent record. */
  const AgentName: string := "Business Consultant Agent"

  /** `take(50)` in `getMessages`. */
  const PageSize: nat := 50

  /**
   * `args.messageType || "user"`: both literals are non-empty strings, so
   * the argument is kept whenever it is given.
   */
  function StoredType(messageType: Option<MessageType>): (t: MessageType)
    ensures messageType.Some? ==> t == messageType.value
    ensures messageType.None? ==> t == User
  {
    match messageType
    case Some(k) => k
    case None => User
  }

  /** Every record sits at the position given by its creation clock. */
  ghost predicate WellNumbered(rows: seq<Message>)
  {
    forall i :: 0 <= i < |rows| ==> rows[i].creation == i
  }

  /**
   * `order("desc").take(n)`: the `n` most recently inserted records,
   * newest first.
   */
  function Newest(rows: seq<Message>, n: nat): (page: seq<Message>)
    ensures |page| == Min(n, |rows|)
    ensures forall k :: 0 <= k < |page| ==> page[k] == rows[|rows| - 1 - k]
    decreases n
  {
    if n == 0 || |rows| == 0 then []
    else [rows[|rows| - 1]] + Newest(rows[..|rows| - 1], n - 1)
  }

  /** Appending one record puts it at the head of every non-empty read and shifts the rest by one. */
  lemma {:induction false} NewestAfterAppend(rows: seq<Message>, m: Message, n: nat)
    ensures Newest(rows + [m], n + 1) == [m] + Newest(rows, n)
  {
    assert (rows + [m])[..|rows + [m]| - 1] == rows;
  }

  /** On a well-numbered table a read is strictly newest first by creation clock. */
  lemma NewestIsNewestFirst(rows: seq<Message>, n: nat)
    requires WellNumbered(rows)
    ensures forall p, q :: 0 <= p < q < |Newest(rows, n)| ==>
      Newest(rows, n)[p].creation > Newest(rows, n)[q].creation
  {
  }

  /**
   * A read holds exactly the records created in the last `min(n, |rows|)`
   * insertions: nothing older, and nothing newer is left out.
   */
  lemma {:induction false} NewestIsLatestWindow(rows: seq<Message>, n: nat, m: Message)
    requires WellNumbered(rows)
    requires m in rows
    ensures m in Newest(rows, n) <==> m.creation >= |rows| - Min(n, |rows|)
  {
    var page := Newest(rows, n);
    var i :| 0 <= i < |rows| && rows[i] == m;
    if m.creation >= |rows| - Min(n, |rows|) {
      assert page[|rows| - 1 - i] == m;
    }
  }

  /**
   * If the server clock never went backwards across inserts, a read is
   * also non-increasing by `timestamp`.
   */
  lemma NewestByTimestamp(rows: seq<Message>, n: nat)
    requires forall i, j :: 0 <= i < j < |rows| ==> rows[i].timestamp <= rows[j].timestamp
    ensures forall p, q :: 0 <= p < q < |Newest(rows, n)| ==>
      Newest(rows, n)[p].timestamp >= Newest(rows, n)[q].timestamp
  {
  }

  /** The `messages` table: an append-only sequence of records. */
  class MessageTable {
    var rows: seq<Message>

    ghost predicate Valid()
      reads this
    {
      WellNumbered(rows)
    }

    constructor ()
      ensures Valid() && rows == []
    {
      rows := [];
    }

    /** The `sendMessage` mutation: one insert of the caller's user and body. */
    method SendMessage(user: string, body: string, messageType: Option<MessageType>, now: int)
      requires Valid()
      modifies this
      ensures Valid()
      ensures rows == old(rows) + [Message(|old(rows)|, user, body, now, StoredType(messageType))]
    {
      rows := rows + [Message(|rows|, user, body, now, StoredType(messageType))];
    }

    /**
     * The `sendAgentResponse` mutation: one insert with the fixed agent
     * author and type "agent". `inResponseTo` is accepted and not used,
     * which the postcondition shows by not mentioning it. The handler's
     * one-second sleep before the insert is not modelled.
     */
    method SendAgentResponse(body: string, inResponseTo: Option<string>, now: int)
      requires Valid()
      modifies this
      ensures Valid()
      ensures rows == old(rows) + [Message(|old(rows)|, AgentName, body, now, Agent)]
    {
      rows := rows + [Message(|rows|, AgentName, body, now, Agent)];
    }

    /** The `getMessages` query: reads the table and changes nothing. */
    method GetMessages() returns (page: seq<Message>)
      requires Valid()
      ensures page == Newest(rows, PageSize)
      ensures |page| <= PageSize
    {
      page := Newest(rows, PageSize);
    }
  }

  /** Two reads with no insert between them return the same records in the same order. */
  method ReadTwice(table: MessageTable) returns (first: seq<Message>, second: seq<Message>)
    requires table.Valid()
    ensures first == second
    ensures |first| <= PageSize
  {
    first := table.GetMessages();
    second := table.GetMessages();
  }
}
