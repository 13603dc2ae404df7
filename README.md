# Chat store model

A Dafny model of the client-side chat store of a one-to-one chat app
(`frontend/src/store/useChatStore.js`, a zustand store). The store holds the
open conversation's `messages`, the peer list `users`, the `selectedUser`,
two loading flags and the per-peer `unreadCounts`. It changes through four
request/response actions (`getMessages`, `sendMessage`, `deleteMessage`,
`markMessagesAsRead`, plus `getUsers`), two push-event handlers bound by
`subscribeToMessages` (`newMessage`, `messageDeleted`) and unbound by
`unsubscribeFromMessages`, and `setSelectedUser`.

Structure:

- `Messages` — the message record (`_id`, `senderId`) and the delete-by-id
  filter, with its laws: membership, order, idempotence, commutation.
- `UnreadCounts` — the counter map, `CountOf` (`unreadCounts[u] || 0`), the
  increment and the zeroing single-key updates.
- `Requests` — the requests the store awaits. Every `await` is split into an
  issue step, which puts the request under a fresh ticket, and a completion
  step `Complete…(ticket, reply)`. Completions may come in any order and any
  push event may come between two steps, so interleavings are explicit
  sequences of method calls. A reply is `Ok(payload)` or `Failed`.
- `Subscription` — the bound handlers, kept as the list of the
  `selectedUser` values captured by each `subscribeToMessages` call. The
  dispatch of one push event to all of them is a function. Repeated
  subscriptions accumulate entries; `socket.off` clears the list.
- `ChatStore.Store` — the store as a class whose fields the methods update
  in place. Each method's contract states the whole new state through
  `State()`. `Valid()` holds in every reachable state: it is established by
  the constructor and kept by every method. It says no counter is negative,
  tickets are fresh, and a loading flag is only on while a fetch of its kind
  is outstanding. `SelectPeer` and `Deselect` are composite steps. They follow
  the effect in `frontend/src/components/ChatContainer.jsx:26-37`: on a change
  of the selected id, the previous effect's cleanup unsubscribes, then
  `getMessages(id)` and `subscribeToMessages()` run.
- `Scenarios` — event sequences on a fresh store with the outcome proved.

The model does what the code does, and the code lacks several safeguards one
might expect of a chat client. There is no de-duplication on append and no
guard against a stale fetch result. A counter is not zeroed when its peer is
selected, only when the read request succeeds. It does not clear `messages` on a selection
change. Nothing stops a second `subscribeToMessages` from binding a second
handler pair; only the view's cleanup order prevents that.
`Scenarios` proves each of these behaviours on a concrete event sequence.

## Model

| member | source | states |
|---|---|---|
| `ChatStore.Store.constructor` | frontend/src/store/useChatStore.js:6-12 | initial state: no messages, no users, no selection, flags off, empty counters, nothing bound, nothing in flight |
| `ChatStore.Store.GetUsers` | frontend/src/store/useChatStore.js:14-17 | spinner on, one `FetchUsers` request issued, nothing else changes |
| `ChatStore.Store.CompleteGetUsers` | frontend/src/store/useChatStore.js:17-23 | on success `users` is replaced by the response, on failure kept; the spinner goes off on both outcomes |
| `ChatStore.Store.GetMessages` | frontend/src/store/useChatStore.js:26-29 | `isMessagesLoading` set, one fetch for that peer issued, messages untouched |
| `ChatStore.Store.CompleteGetMessages` | frontend/src/store/useChatStore.js:29-35 | on success `messages` is replaced wholesale by the response, with no merge and no check of whom it was fetched for; on failure unchanged; the flag goes off on both outcomes |
| `ChatStore.Store.SendMessage` | frontend/src/store/useChatStore.js:37-43 | with a selection, posts to the selected peer carrying the snapshot of `messages` read before the request; with none, nothing is sent and nothing changes |
| `ChatStore.Store.CompleteSend` | frontend/src/store/useChatStore.js:40-47 | on success `messages` becomes the snapshot plus the reply, dropping whatever changed meanwhile; on failure the state is unchanged |
| `ChatStore.Store.DeleteMessage` | frontend/src/store/useChatStore.js:50-52 | one delete request issued, nothing else changes |
| `ChatStore.Store.CompleteDelete` | frontend/src/store/useChatStore.js:52-59 | on success the entries with that id are filtered out of the current messages; on failure unchanged |
| `ChatStore.Store.MarkMessagesAsRead` | frontend/src/store/useChatStore.js:62-64 | one read request issued, counters untouched |
| `ChatStore.Store.CompleteMarkRead` | frontend/src/store/useChatStore.js:64-73 | on success that peer's counter becomes 0 in the current counters, others unchanged; on failure (logged only) unchanged |
| `ChatStore.Store.SubscribeToMessages` | frontend/src/store/useChatStore.js:76-80 | one more handler pair bound, capturing the current selection; earlier pairs stay |
| `ChatStore.Store.ReceiveNewMessage` | frontend/src/store/useChatStore.js:80-95 | no handler: nothing changes; one handler whose captured peer is the sender: appended at the end, one read request, counters untouched; one handler, other sender: messages unchanged, sender's counter old-or-0 plus 1, every other counter unchanged; in general the state given by `AfterNewMessage` |
| `ChatStore.AfterNewMessageValid` | frontend/src/store/useChatStore.js:80-95 | a `newMessage` event keeps the store invariant: no counter negative, fresh tickets, loading flags backed by an outstanding fetch |
| `ChatStore.AfterNewMessageCases` | frontend/src/store/useChatStore.js:80-95 | on the state as a value: no handler changes nothing; one handler whose captured peer is the sender appends the message and adds one read request at the next ticket; one handler, other sender, changes only the sender's counter, by one |
| `ChatStore.Store.ReceiveMessageDeleted` | frontend/src/store/useChatStore.js:97-101 | with any handler bound, exactly the entries with that id go; with none, nothing changes |
| `ChatStore.Store.UnsubscribeFromMessages` | frontend/src/store/useChatStore.js:104-108 | no handler remains, nothing else changes |
| `ChatStore.Store.SetSelectedUser` | frontend/src/store/useChatStore.js:110-115 | selection set; a null user issues no request; a user issues exactly one read request for that user; no counter changes |
| `ChatStore.Store.SelectPeer` | frontend/src/components/ChatContainer.jsx:26-37 | same peer: only the read request; new peer: unbind if a conversation was open, read request, fetch, flag on, one handler pair capturing the new peer; messages and counters untouched |
| `ChatStore.Store.Deselect` | frontend/src/components/ChatContainer.jsx:31 | selection cleared, no read request, handlers unbound when a conversation was open |
| `Messages.RemoveById` | frontend/src/store/useChatStore.js:53-55 | a message stays iff it was there and its id differs; the length drops by the number of entries with that id |
| `Messages.RemoveByIdCons` | frontend/src/store/useChatStore.js:54 | the filter keeps a first entry iff its id differs, then filters the rest |
| `Messages.RemoveByIdConcat` | frontend/src/store/useChatStore.js:99 | the filter distributes over concatenation, so survivors keep their relative order |
| `Messages.RemoveByIdAbsent` | frontend/src/store/useChatStore.js:54 | deletion leaves the list unchanged iff no entry has that id |
| `Messages.RemoveByIdIdempotent` | frontend/src/store/useChatStore.js:97-101 | a second deletion of the same id changes nothing |
| `Messages.RemoveByIdCommutes` | frontend/src/store/useChatStore.js:53-55 | two deletions commute, whichever of the action or the push comes first |
| `UnreadCounts.Increment` | frontend/src/store/useChatStore.js:88-92 | sender's counter is old-or-0 plus 1, every other counter unchanged, non-negativity kept |
| `UnreadCounts.Zeroed` | frontend/src/store/useChatStore.js:66-69 | that peer's counter reads 0, every other counter unchanged, non-negativity kept |
| `UnreadCounts.IncrementsCommute` | frontend/src/store/useChatStore.js:87-93 | pushes from two senders give the same counters in either order |
| `UnreadCounts.ZeroedAbsorbsIncrement` | frontend/src/store/useChatStore.js:65-69 | a read acknowledgement completing after a push from that peer erases the push's increment |
| `Subscription.OnNewMessage` | frontend/src/store/useChatStore.js:81-93 | one `newMessage` handler: if the sender is the captured peer, the message is appended, one `MarkRead(sender)` is issued and the counters are unchanged; otherwise the messages and the issued requests are unchanged, the sender's counter is old-or-0 plus 1 and every other counter is unchanged |
| `Subscription.OneHandlerNewMessage` | frontend/src/store/useChatStore.js:80-95 | the event delivered to a single bound handler, with its read request placed at the next ticket: the two branches of the handler in terms of the store's messages, counters and in-flight requests |
| `Subscription.DeliverNewMessageEffect` | frontend/src/store/useChatStore.js:80-94 | what `DeliverNewMessage` does with an event and every bound handler in registration order, for any handler list: one copy appended and one read request per handler that captured the sender; the sender's counter rises by the number of other handlers; all other counters unchanged; non-negativity kept |
| `Subscription.DeliverMessageDeletedEffect` | frontend/src/store/useChatStore.js:97-101 | what `DeliverMessageDeleted` does with an event and every bound handler, for any handler list: no handler leaves the list unchanged, one or more handlers remove exactly that id once |
| `Scenarios.StaleFetchOverwrites` | frontend/src/store/useChatStore.js:29-30 | select a, then b; b's history arrives, then a's: a's stale history is shown while b is selected |
| `Scenarios.LoadingClearedEarly` | frontend/src/store/useChatStore.js:33-35 | a failed second fetch turns the spinner off while the first fetch is still outstanding |
| `Scenarios.SendDropsConcurrentPush` | frontend/src/store/useChatStore.js:38-44 | a push appended during a send disappears when the send succeeds: the result is the pre-send snapshot plus the reply |
| `Scenarios.PushAfterFetchDuplicates` | frontend/src/store/useChatStore.js:81-84 | a pushed message already in the fetched history is shown twice |
| `Scenarios.DoubleSubscribeAppendsTwice` | frontend/src/store/useChatStore.js:76-85 | two subscriptions without unsubscribe append one push twice; the requests in flight are then exactly three `MarkRead(peer)`, one from the selection and one from each handler |
| `Scenarios.CounterZeroedOnlyOnAck` | frontend/src/store/useChatStore.js:110-113 | selecting a peer with one unread keeps the counter at 1; it becomes 0 only when the read request succeeds and stays 1 when it fails |
| `Scenarios.ClosedConversationIgnoresPushes` | frontend/src/store/useChatStore.js:104-107 | after the conversation is closed, pushes change neither messages nor counters |
| `Scenarios.DeletePushedAndAcknowledged` | frontend/src/store/useChatStore.js:50-55 | an own deletion plus the matching push leave the list as one deletion does, with no entry of that id |

## Left out

- HTTP (axios), the socket.io transport, `toast` and `console.error` are foreign calls. A request's result is the `reply` argument of its completion method; a notification has no effect on the store.
- The exceptions thrown inside the `catch` blocks (`error.response.data.message` when there is no response) only reject the action's promise. As the `finally` of `getMessages`/`getUsers` still runs, those paths have the same effect on the store as a plain failure.
- Message text, image and timestamps, the sender's `messageData`, and the user records beyond their `_id` are opaque payload. Only `_id` and `senderId` influence the store.
- Handlers run in registration order, as socket.io calls listeners. Concurrency beyond that is not modelled: JavaScript runs one handler or continuation at a time, so interleaving happens only between the split steps.
- The conversation view's rendering is not modelled: scrolling, the image modal, the delete confirmation and the skeletons. Who mounts the view is not part of this model either. `SelectPeer` and `Deselect` assume the view is mounted exactly while a peer is selected, as its effect reads `selectedUser._id`.
- `frontend/src/pages/ProfilePage.jsx` is presentation and delegates to an authentication store that is not part of this model.
