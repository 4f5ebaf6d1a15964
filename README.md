# consulting_app: a Dafny model of the chat log, the send pipeline and the dashboard logic

This project models the parts of the consulting web application that carry
rules rather than layout:

- **The message log** (convex/chat.ts). The Convex `messages` table is an
  append-only sequence. The mutation `sendMessage` appends one user record
  and `sendAgentResponse` appends one agent record. The query `getMessages`
  reads the 50 most recently inserted records, newest first. A record's
  position in the sequence is its logical insertion clock (`creation`).
  Convex orders by that clock, not by the stored `timestamp`.
- **The send pipeline** (components/ChatAgent.tsx and
  components/MiniChatAgent.tsx). Both components run the same
  `handleSendMessage` over the state `message` and `isLoading`. It checks
  that the input is not blank after trimming and that a user is signed in.
  It then clears the input, sets loading, stores the trimmed user message
  and schedules a canned agent reply on a timer. When the timer fires, the
  reply is stored and loading is cleared. `ChatPipeline.ChatSession` is
  that state machine, and `Variant` selects which component's reply list
  is used. The modules `ChatAgent` and `MiniChatAgent` hold each
  component's six replies and its `generateAgentResponse`. `JsString.Trim`
  is JavaScript's `String.prototype.trim`.
  `JsMath.RandomIndex` is `Math.floor(Math.random() * n)`, with the
  random draw passed in as a parameter.
- **The profile dashboard** (app/profile/page.tsx). `toggleTeam` copies
  the expanded-teams `Set` and toggles one id in the copy. The deadline
  list is sorted in place by priority weight (high 3, medium 2, low 1,
  descending), then by due date, ascending. The usage total and each pie
  slice's running sum (`prevTotal`) are left folds.

Calls into services outside the repository become parameters: the success
or failure of each Convex mutation, each draw of `Math.random()`, and the
server clock (`new Date()`). The `setTimeout` delays become an order of
steps: `HandleSendMessage` runs first and `FireTimer` later.

## Model

| member | source | states |
|---|---|---|
| MessageLog.StoredType | convex/chat.ts:8-15 | the stored `messageType` is the argument when one is given, and "user" when it is omitted |
| MessageLog.MessageTable.constructor | convex/schema.ts:4-12 | a new `messages` table holds no records and is valid |
| MessageLog.MessageTable.SendMessage | convex/chat.ts:4-18 | appends exactly one record holding the caller's `user` and `body` verbatim, the server time and the defaulted type; every earlier record is unchanged |
| MessageLog.MessageTable.SendAgentResponse | convex/chat.ts:30-46 | appends exactly one record with author "Business Consultant Agent", type "agent" and the given body; the record does not depend on `inResponseTo`; earlier records are unchanged |
| MessageLog.Newest | convex/chat.ts:23-26 | `order("desc").take(n)` returns min(n, size) records, and its k-th record is the k-th newest in the table |
| MessageLog.NewestAfterAppend | convex/chat.ts:11-26 | after one insert, a read starts with the new record and continues with what the read saw before, one shorter |
| MessageLog.NewestIsNewestFirst | convex/chat.ts:25 | a read is strictly decreasing in insertion order |
| MessageLog.NewestIsLatestWindow | convex/chat.ts:23-26 | a stored record is in a read exactly when it was among the last min(n, size) inserted |
| MessageLog.NewestByTimestamp | convex/chat.ts:14-25 | if the server clock never went back between inserts, a read is also non-increasing by `timestamp` |
| MessageLog.MessageTable.GetMessages | convex/chat.ts:20-28 | `getMessages` changes nothing and returns at most 50 records, exactly the min(50, size) newest, newest first |
| MessageLog.ReadTwice | convex/chat.ts:20-28 | two reads with no insert between them return the same sequence |
| JsString.Trim | components/ChatAgent.tsx:41-43 | the trimmed text neither starts nor ends with white space or a line terminator, and it is no longer than the input |
| JsString.TrimBlankIff | components/ChatAgent.tsx:41 | `!message.trim()` holds exactly when every character of the input is white space or a line terminator |
| JsString.TrimIsInfix | components/ChatAgent.tsx:43 | the trimmed message is the contiguous part of the input that follows the leading blanks, and everything after it is white space or a line terminator |
| JsString.TrimIdempotent | components/ChatAgent.tsx:43 | trimming the stored body again leaves it unchanged |
| JsMath.RandomIndex | components/ChatAgent.tsx:83 | `Math.floor(r * n)` for r in [0, 1) is an index in 0..n-1 |
| JsMath.EveryIndexReachable | components/ChatAgent.tsx:83 | every index 0..n-1 is produced by some draw, namely k/n |
| JsMath.RandomElement | components/MiniChatAgent.tsx:82 | `items[Math.floor(r * items.length)]` is an element of the list |
| ChatAgent.GenerateAgentResponse | components/ChatAgent.tsx:73-84 | the reply is one of the six full-page replies, and it is non-empty, for every message including "" |
| ChatAgent.ReplyIgnoresMessage | components/ChatAgent.tsx:73-83 | the reply depends only on the random draw, never on the message |
| ChatAgent.EveryReplyPossible | components/ChatAgent.tsx:74-83 | each of the six full-page replies can be chosen, whatever the message |
| MiniChatAgent.GenerateAgentResponse | components/MiniChatAgent.tsx:72-83 | the reply is one of the six compact replies, and it is non-empty, for every message |
| MiniChatAgent.ReplyIgnoresMessage | components/MiniChatAgent.tsx:72-82 | the compact reply depends only on the random draw |
| MiniChatAgent.EveryReplyPossible | components/MiniChatAgent.tsx:73-82 | each of the six compact replies can be chosen |
| ChatPipeline.GenerateAgentResponse | components/ChatAgent.tsx:56 | the reply a component generates is in that component's own list and is non-empty |
| ChatPipeline.SessionReplyIsGenerated | components/ChatAgent.tsx:55-62 | in every valid session, the reply scheduled for a draw is the component's `generateAgentResponse` of the trimmed message, one of that component's replies |
| ChatPipeline.Author | components/ChatAgent.tsx:50 | the author is `fullName` if it is truthy, else `firstName` if that is truthy, else "Anonymous"; an empty string counts as missing, and the result is never empty |
| ChatPipeline.CanSend | components/ChatAgent.tsx:41 | `handleSendMessage` proceeds exactly when the input has a character that is not white space or a line terminator and a user is signed in |
| ChatPipeline.SendStoresNonEmpty | components/ChatAgent.tsx:41-51 | a send that passes the guard stores a non-empty body and a non-empty author |
| ChatPipeline.ChatSession.constructor | components/ChatAgent.tsx:23-30 | a mounted component has an empty input, is not loading, has nothing scheduled, and uses its variant's reply list |
| ChatPipeline.ChatSession.SendDisabled | components/ChatAgent.tsx:197 | the send button is disabled exactly when loading or when the input is entirely white space |
| ChatPipeline.ChatSession.SetMessage | components/ChatAgent.tsx:182 | typing replaces the input and touches nothing else |
| ChatPipeline.ChatSession.HandleSendMessage | components/ChatAgent.tsx:39-71 | with a blank input or no user nothing changes. Otherwise the input is cleared. If `sendMessage` throws, loading is reset and nothing is stored or scheduled. If it succeeds, loading is set, one user-type record with the trimmed body and the fallback author is appended, and one reply from the list is scheduled |
| ChatPipeline.ChatSession.FireTimer | components/MiniChatAgent.tsx:58-64 | the timer sends the scheduled reply as one agent record and clears loading. If `sendAgentResponse` throws, nothing is stored and loading stays as it was. Either way the timer is used up and the input untouched |
| ChatPipeline.ChatSession.Submit | components/MiniChatAgent.tsx:175-193 | Enter and the send button act only when not loading, so at most one reply is ever scheduled and a scheduled reply implies loading. When loading or the guard fails nothing changes; a failed send clears the input only; a successful send clears the input, sets loading, appends the trimmed message under the fallback author after the unchanged earlier rows, and schedules exactly one reply from the list |
| ChatPipeline.ChatSession.SendAndReply | components/ChatAgent.tsx:49-65 | from an idle component, a successful exchange appends the user record, then the agent record. A read afterwards shows the agent reply first and the user message second, and the component ends idle with an empty input |
| ProfilePage.IdSet.Empty | app/profile/page.tsx:51 | `new Set()` holds no ids |
| ProfilePage.IdSet.Copy | app/profile/page.tsx:56 | `new Set(expandedTeams)` is a new set with the same ids as the original |
| ProfilePage.IdSet.Has | app/profile/page.tsx:57 | `has` answers true exactly for the ids in the set |
| ProfilePage.IdSet.Delete | app/profile/page.tsx:58 | `delete` removes the id and keeps every other id |
| ProfilePage.IdSet.Add | app/profile/page.tsx:60 | `add` inserts the id and keeps every other id |
| ProfilePage.Dashboard.constructor | app/profile/page.tsx:51 | the page mounts with a fresh, empty set of expanded teams |
| ProfilePage.Toggled | app/profile/page.tsx:55-61 | `teamId` is in the new set exactly when it was not in the old one, and every other id keeps its membership |
| ProfilePage.ToggleTwice | app/profile/page.tsx:55-62 | toggling the same team twice restores the original set |
| ProfilePage.Dashboard.ToggleTeam | app/profile/page.tsx:55-63 | the new state is a fresh `Set` holding the toggled contents; the `Set` object that was the state before keeps its contents |
| ProfilePage.Weight | app/profile/page.tsx:138 | every priority weighs between 1 and 3 |
| ProfilePage.WeightOrder | app/profile/page.tsx:138 | high weighs more than medium, which weighs more than low |
| ProfilePage.Compare | app/profile/page.tsx:136-141 | the comparator is negative exactly when the first deadline weighs more, or has the same priority and an earlier due date; it is zero exactly when priority and due date are both equal |
| ProfilePage.CompareMeansBefore | app/profile/page.tsx:136-141 | the comparator is non-positive exactly when the first deadline has the higher weight, or the same priority and a due date no later; it is antisymmetric |
| ProfilePage.BeforeIsTotalPreorder | app/profile/page.tsx:136-141 | the comparator's order is reflexive, total and transitive, so the sort is well defined |
| ProfilePage.SortedMeansPriorityBands | app/profile/page.tsx:137-141 | in the sorted list every high deadline precedes every other one, every medium one precedes every low one, and equal priorities are in due-date order |
| ProfilePage.SortDeadlines | app/profile/page.tsx:135-142 | sorting in place leaves the deadlines in comparator order and is a permutation of the original list |
| ProfilePage.Total | app/profile/page.tsx:65 | the total of non-negative stat values is non-negative |
| ProfilePage.PrevTotal | app/profile/page.tsx:83 | the sum of the values before a slice is non-negative when those values are non-negative |
| ProfilePage.PrevTotalStep | app/profile/page.tsx:83-85 | each slice ends (`prevTotal + value`) where the next slice's `prevTotal` starts |
| ProfilePage.PrevTotalAll | app/profile/page.tsx:65 | the running sum over every slice is the total |
| ProfilePage.SliceWithinTotal | app/profile/page.tsx:65-85 | with non-negative values, for every index `prevTotal + value` is at most `total`, and for the last index it equals `total` |

## Left out

- JSX rendering and styling are not modelled. This covers avatars, the auto-scroll effect, the "thinking" indicator and the welcome text.
- `messages.reverse()` in the render reverses the query result in place for display. It is a re-render concern, so no property is stated about it.
- `formatTimestamp` and the `toLocaleDateString` of due dates are not modelled: they depend on the locale.
- Real time is not modelled. The 1500 ms and 1000 ms `setTimeout` delays and the server-side 1000 ms sleep in `sendAgentResponse` become an order of steps. The delay constants are kept as `ThinkingDelayMs`.
- `new Date()` is a clock parameter `now`, and ordering uses the insertion clock.
- `Math.random()` is a parameter `r` in [0, 1), so the model says which replies are possible and nothing about how likely each one is.
- Floating-point rounding of `r * n` is not modelled: the product is computed over the reals.
- Clerk (`useUser`, sign-in) is outside the model: a signed-in user is a parameter.
- The Convex client hooks (`useQuery`, `useMutation`) and `ctx.db` internals are outside the model. A mutation that throws is a boolean parameter of the step that calls it.
- A failing `getMessages` read is not modelled, and a failing insert inside the backend is seen only through that parameter.
- Concurrency between browser tabs is not modelled. Another session may append between `HandleSendMessage` and `FireTimer`; `SendAndReply` states only the uninterrupted exchange.
- The pie-chart geometry (angles, `Math.cos`/`Math.sin`, the large-arc flag) is floating-point trigonometry and is not modelled.
- Priority strings other than "high", "medium" and "low" are not modelled; the comparator would see `NaN` for them. Due dates are integers that keep the order of the ISO dates; the comparator's magnitude (milliseconds) does not matter to the sort.
- ProfilePage.SortDeadlines: does not state stability (deadlines with equal priority and date keep their original order), which ECMAScript requires of `Array.prototype.sort`. The insertion sort used only swaps strictly out-of-order neighbours, but stability is not proved.
- components/FloatingChatButton.tsx, components/navbar.tsx, app/layout.tsx, app/page.tsx and app/chat/page.tsx contain page composition and routing only, so they are not part of this model.
- In convex/schema.ts, only the `messages` columns that are written are modelled. `isAgent` is never written.
- The store accepts empty authors and bodies; only the client's guard keeps a stored body non-empty.
- `getMessages` always reads 50 records; the size is not a parameter.
- A reply whose `sendAgentResponse` throws is lost, its rejection is not caught, and loading stays set.
