# Flexisip transaction wrappers: a lifecycle model in Dafny

This project models the lifecycle of the two SIP transaction wrappers of the
Flexisip proxy (`src/transaction.cc`). They sit between the proxy's Agent and the
sofia-sip transaction engine, an implementation of the RFC 3261, section 17
transaction layer:

- `OutgoingTransaction` is the client transaction. It fixes a random branch id at
  construction and creates its engine context on the first `send`. A CANCEL sent
  through a started transaction cancels it. The engine callback hands every
  response to the Agent and destroys the transaction on a final status (200 or
  more) or when no response comes with the callback.
- `IncomingTransaction` is the server transaction. `handle` creates its engine
  context from the received request. `send` and `reply` answer through that
  context and destroy the transaction on a final status. `reply` first increments
  the Agent's reply statistics. The engine callback hands every correlated request
  to the Agent and destroys the transaction on a CANCEL.
- `destroy` is guarded by the self-hold (`mSofiaRef`). It runs only while the
  object holds a reference on itself. It drops that reference, unbinds the
  callback, destroys the engine context, drops the link to the paired transaction
  and sets the context back to NULL.

Files:

- `lifecycle.dfy` (module `Lifecycle`) holds what both kinds share:
  - the state `TxState`: the self-hold, the context, the cross-link and a log of
    every engine call and Agent interaction, in order;
  - the teardown `Terminate`;
  - an engine discipline (`Live`, `Allowed`, `Disciplined`) and the invariant
    `Inv` built on it;
  - the lemmas that follow from them.
- `outgoing.dfy` (module `Outgoing`) holds the client transaction's buffer
  arithmetic, its transitions as functions, lemmas about them, and the class
  `OutgoingTransaction`. Each method of the class is proved equal to its
  transition function.
- `incoming.dfy` (module `Incoming`) holds the same for `IncomingTransaction`.

The engine and the Agent are not modelled as code:

- What the engine returns is passed to the methods as parameters: the context a
  creation yields or NULL (`created`), the answers to queries (`uriOf`,
  `statusOf`), and the response the builder returns (`built`).
- What the Agent does to the transaction while it handles a dispatched event is
  also a parameter (`Reentry`). It can do nothing, destroy, cancel (outgoing) or
  reply (incoming). The callback methods perform that action at the point where
  the event is dispatched.

## Model

| member | source | states |
|---|---|---|
| Lifecycle.Terminate | src/transaction.cc:125-134 | Destroy (the same body serves the server transaction at lines 216-225) never leaves the self-hold held, is a no-op without it, and only appends to the log. |
| Lifecycle.TerminateEffect | src/transaction.cc:125-134 | Without the self-hold, destroy changes nothing. With it, destroy clears the self-hold, the cross-link and the context. The engine sees exactly an unbind of the callback followed by a destroy of that context. The Agent sees nothing. |
| Lifecycle.TerminateIdempotent | src/transaction.cc:216-225 | Destroying twice equals destroying once, and the result never holds the self-hold. |
| Lifecycle.TerminateKeepsInv | src/transaction.cc:216-225 | Destroy keeps the invariant: the log stays disciplined, the context field equals the live context, and the self-hold is held exactly while a context is. |
| Lifecycle.TerminateDestroysOnce | src/transaction.cc:125-134 | On a transaction keeping the invariant, destroy called once or twice destroys one context if the self-hold was held and none otherwise. It creates nothing and leaves no context live. |
| Lifecycle.TerminateExtends | src/transaction.cc:125-134 | Destroy only appends to the log. |
| Lifecycle.ContextsBalanced | src/transaction.cc:84-94 | In a disciplined log, the successful creations equal the destructions plus one if a context is still live. So every context is destroyed at most once. |
| Lifecycle.TerminatedIsBalanced | src/transaction.cc:125-134 | A transaction that keeps the invariant and holds no self-hold has destroyed every context it created. |
| Lifecycle.NoDoubleDestroy | src/transaction.cc:125-134 | Between any two destructions in a disciplined log, a context was successfully created. No context is destroyed twice, even when the engine reuses a handle. |
| Outgoing.BranchBufferSize | src/transaction.cc:30-32 | The buffer holds the fewest 5-bit token characters that cover the digest's bits, plus one byte for the terminator. |
| Outgoing.BranchSizes | src/transaction.cc:32-36 | For the 16-byte MD5 digest, the buffer is 27 bytes and the encoder is asked for 26 characters. |
| Outgoing.CancelStep | src/transaction.cc:58-61 | Cancel leaves no self-hold. Its log starts with the old log followed by the engine cancel of the current context. |
| Outgoing.SendStep | src/transaction.cc:79-103 | With no context, the context becomes what the creation returned, the self-hold is taken exactly when it succeeded, and the log continues with that creation. With a context, a non-CANCEL request changes nothing and a CANCEL leaves no self-hold. |
| Outgoing.CallbackStep | src/transaction.cc:105-123 | A NULL callback or a final response leaves no self-hold. A delivered response is logged as an Agent event right after the old log, before anything else the callback does. |
| Outgoing.SendCreates | src/transaction.cc:84-94 | With no context, a successful creation binds the context, takes the self-hold and logs only the creation. |
| Outgoing.SendCreateFails | src/transaction.cc:84-94 | With no context, a failed creation leaves the context NULL, takes no self-hold and releases the duplicated message. |
| Outgoing.SendWhileStarted | src/transaction.cc:95-102 | With a context bound, a non-CANCEL request changes nothing, the log included. A CANCEL is the same as `cancel`. |
| Outgoing.CancelActive | src/transaction.cc:58-61 | Cancelling an active transaction logs an engine cancel, an unbind and a destroy of its context, in that order, and terminates it. |
| Outgoing.CancelInert | src/transaction.cc:58-61 | Cancelling a transaction without self-hold only hands its NULL context to the engine's cancel. The destroy that follows is a no-op. |
| Outgoing.SendAfterTerminationRestarts | src/transaction.cc:84-94 | Destroy resets the context to NULL, so a send after termination starts a new context and takes the self-hold again. The invariant still holds. |
| Outgoing.CallbackDispatchesOnce | src/transaction.cc:105-123 | A delivered response reaches the Agent exactly once, whatever the Agent does during the dispatch. A NULL callback dispatches nothing. |
| Outgoing.CallbackEndsIffFinal | src/transaction.cc:116-118 | On an active transaction left alone by the Agent, a response terminates it if and only if it has a status of 200 or more. A provisional response keeps its context. |
| Outgoing.CallbackFinalTerminates | src/transaction.cc:105-123 | A final response, a NULL callback, or an Agent that destroys or cancels during dispatch always leaves the transaction terminated. |
| Outgoing.ReentrantDestroyHarmless | src/transaction.cc:115-118 | If the Agent destroys the transaction while handling a final response, the result equals the case where it did nothing. Exactly one context is destroyed. |
| Outgoing.ProvisionalThenFinal | src/transaction.cc:105-123 | Send, then 180, then 200: the 180 leaves the transaction active and the 200 terminates it, with the exact log shown. A later cancel only passes NULL to the engine. |
| Outgoing.CancelKeepsInv | src/transaction.cc:58-61 | Cancel keeps the invariant. |
| Outgoing.SendKeepsInv | src/transaction.cc:79-103 | Send keeps the invariant. In particular a context is created only when none is live, and a released duplicate always comes right after a failed creation. |
| Outgoing.CallbackKeepsInv | src/transaction.cc:105-123 | The callback keeps the invariant for every response and every reentrant Agent action. |
| Outgoing.StepKeepsInv | src/transaction.cc:58-134 | Every client-transaction operation keeps the invariant. |
| Outgoing.RunKeepsInv | src/transaction.cc:58-134 | Every sequence of operations keeps the invariant (proof by induction). |
| Outgoing.RunBalancesContexts | src/transaction.cc:84-134 | From construction, after any sequence of operations, every context created has been destroyed, except the one still held. |
| Outgoing.OutgoingTransaction.constructor | src/transaction.cc:41-44 | A new transaction has its branch id set to the encoder's token, no context, no self-hold, no link and an empty log. |
| Outgoing.OutgoingTransaction.GetBranchId | src/transaction.cc:54-56 | Returns the branch id. It is a constant field, so no operation can change it after construction. |
| Outgoing.OutgoingTransaction.Cancel | src/transaction.cc:58-61 | The new state is the engine cancel followed by destroy of the old state. The invariant is kept. |
| Outgoing.OutgoingTransaction.GetRequestUri | src/transaction.cc:63-69 | Returns NULL when no context exists. Otherwise returns the engine's request URI of the bound context. Changes no state. |
| Outgoing.OutgoingTransaction.GetResponseCode | src/transaction.cc:71-77 | Returns 0 when no context exists. Otherwise returns the engine's status of the bound context. Changes no state. |
| Outgoing.OutgoingTransaction.Send | src/transaction.cc:79-103 | The new state is `SendStep` of the old state. The invariant is kept. |
| Outgoing.OutgoingTransaction.Callback | src/transaction.cc:105-123 | The new state is `CallbackStep` of the old state, with the Agent's reentrant action performed during dispatch. The invariant is kept. |
| Outgoing.OutgoingTransaction.Destroy | src/transaction.cc:125-134 | The new state is `Terminate` of the old state. The invariant is kept. |
| Incoming.HandleStep | src/transaction.cc:145-155 | The context becomes what the creation returned, whatever it was before. The self-hold is taken on success and kept otherwise. The log continues with the creation. |
| Incoming.CreateResponseStep | src/transaction.cc:161-166 | Create-response leaves the self-hold, the context and the cross-link as they were, and appends exactly one entry to the log. |
| Incoming.SendStep | src/transaction.cc:168-179 | With no context, send changes nothing. With one, the log continues with the engine reply of that context, and a final status leaves no self-hold. |
| Incoming.ReplyStep | src/transaction.cc:181-194 | With no context, reply changes nothing. With one, the log continues with the statistic increment and then the engine reply, and a final status leaves no self-hold. |
| Incoming.CallbackStep | src/transaction.cc:196-214 | A NULL callback or a CANCEL leaves no self-hold. A delivered request is logged as an Agent event right after the old log, before anything else the callback does. |
| Incoming.HandleCreates | src/transaction.cc:148-151 | A successful creation is followed by binding the callback to the new context, and the self-hold is taken. |
| Incoming.HandleFails | src/transaction.cc:148-154 | A failed creation leaves the context NULL and takes no self-hold. |
| Incoming.HandleKeepsInv | src/transaction.cc:145-155 | Handle on a transaction without self-hold keeps the invariant. |
| Incoming.RehandleOrphansContext | src/transaction.cc:148 | Handle assigns the context unconditionally. A second handle whose creation fails leaves the self-hold with a NULL context and breaks the invariant. The later destroy then passes NULL to the engine, and the first context is never destroyed. |
| Incoming.NoContextInert | src/transaction.cc:168-194 | With no context, send and reply change nothing: no engine call, no statistic, no state change. |
| Incoming.ReplyCountsStat | src/transaction.cc:181-194 | Reply adds its status to the Agent's statistics only when a context exists. Then the increment comes right before the engine reply. |
| Incoming.ReplyAgentView | src/transaction.cc:181-194 | Of a reply, the Agent sees only its statistic increment, and only when a context exists. |
| Incoming.ReplyExtends | src/transaction.cc:181-194 | Reply only appends to the log. |
| Incoming.SendReplyEndIffFinal | src/transaction.cc:173-175 | On an active transaction, send and reply each terminate it if and only if their status is 200 or more. |
| Incoming.AfterFinalInert | src/transaction.cc:188-192 | After a final reply, any later reply or send changes nothing. |
| Incoming.RingingOkBusy | src/transaction.cc:181-194 | Handle, then replies 180, 200 and 486: the statistics hold 180 and 200 only. The 180 leaves the transaction active, the 200 terminates it and the 486 is dropped. |
| Incoming.CreateResponseUnguarded | src/transaction.cc:161-166 | Create-response changes only the log, where it asks the engine to build a response on the current context. Before handle, that context is NULL. |
| Incoming.CallbackDispatchesFirst | src/transaction.cc:199-209 | A delivered request is dispatched to the Agent before any reentrant action and before the callback's own destroy. |
| Incoming.CallbackDispatchesOnce | src/transaction.cc:196-214 | A delivered request reaches the Agent exactly once. If the Agent does not reply during dispatch, that is all it sees. If it replies, it also sees that reply's statistic increment, but only when a context exists. A NULL callback dispatches nothing. |
| Incoming.CallbackEndsIffCancel | src/transaction.cc:207-209 | On an active transaction left alone by the Agent, a request terminates it if and only if its method is CANCEL. |
| Incoming.CallbackCancelTerminates | src/transaction.cc:196-214 | A CANCEL or a NULL callback always leaves the transaction terminated, whatever the Agent does. |
| Incoming.CancelAfterFinalReply | src/transaction.cc:207-209 | A CANCEL after a final reply has terminated the transaction is still dispatched. The destroy that follows is a no-op. |
| Incoming.SendKeepsInv | src/transaction.cc:168-179 | Send keeps the invariant. |
| Incoming.ReplyKeepsInv | src/transaction.cc:181-194 | Reply keeps the invariant. |
| Incoming.CallbackKeepsInv | src/transaction.cc:196-214 | The callback keeps the invariant for every request and every reentrant Agent action. |
| Incoming.StepKeepsInv | src/transaction.cc:161-225 | Every server-transaction operation after handle keeps the invariant. |
| Incoming.RunKeepsInv | src/transaction.cc:161-225 | Every sequence of those operations keeps the invariant (proof by induction). |
| Incoming.RunBalancesContexts | src/transaction.cc:145-225 | After one handle and any later operations, the invariant holds, and every context created has been destroyed except the one still held. |
| Incoming.IncomingTransaction.constructor | src/transaction.cc:136-139 | A new transaction has no context, no self-hold, no link and an empty log. |
| Incoming.IncomingTransaction.Handle | src/transaction.cc:145-155 | The new state is `HandleStep` of the old state. The invariant is kept when no self-hold was held. |
| Incoming.IncomingTransaction.CreateResponse | src/transaction.cc:161-166 | Returns what the engine built. The new state is `CreateResponseStep` of the old state. The invariant is kept. |
| Incoming.IncomingTransaction.Send | src/transaction.cc:168-179 | The new state is `SendStep` of the old state. The invariant is kept. |
| Incoming.IncomingTransaction.Reply | src/transaction.cc:181-194 | The new state is `ReplyStep` of the old state. The invariant is kept. |
| Incoming.IncomingTransaction.Callback | src/transaction.cc:196-214 | The new state is `CallbackStep` of the old state, with the Agent's reentrant action performed during dispatch. The invariant is kept. |
| Incoming.IncomingTransaction.Destroy | src/transaction.cc:216-225 | The new state is `Terminate` of the old state. The invariant is kept. |

### Behaviour of the code a caller may not expect

- A send after an outgoing transaction has ended is not a no-op. Destroy sets
  the context back to NULL, so the send creates a new context
  (`Outgoing.SendAfterTerminationRestarts`).
- `createResponse` does not check for a missing context. The engine is asked to
  build a response on NULL (`Incoming.CreateResponseUnguarded`). A caller might
  expect it to fail cleanly.
- `cancel` calls the engine's cancel even when there is no context. In that
  case the engine is handed NULL (`Outgoing.CancelInert`).
- `handle` assigns the context unconditionally. A `handle` made while the
  self-hold is held can break the invariant: `Incoming.RehandleOrphansContext`
  shows the failing case. A `handle` made without the self-hold always keeps it
  (`Incoming.HandleKeepsInv`).

## Left out

- Random generation of the branch token (`su_randmem`) and its encoding
  (`msg_random_token`) are randomness and a foreign encoder. The constructor
  takes the encoded token as a parameter and demands only that it be no longer
  than the encoder was asked for. Only the buffer-size arithmetic is modelled;
  the character set of the token and its exact length are not.
- The sofia-sip engine itself (retransmission, timers, matching, building
  responses) is foreign code. Its calls are logged actions and its answers are
  parameters. Delivering a callback only while the callback is bound is the
  engine's promise and is not modelled.
- Message memory (`msg_dup`, `msg_destroy`, `msg_ref_create`, `MsgSip`) is left
  out. The only exception is the release of the duplicate after a failed
  outgoing creation, logged as `MsgDestroy`. Real `shared_ptr` reference
  counting is reduced to the boolean self-hold, so object lifetime is not
  modelled.
- The pairing of transactions is made by code outside `src/transaction.cc`.
  `Link` stands in for it, so that the release of the link by destroy can be
  observed. `looseProperties()` is defined outside this file and is left out.
- The destination URL and the tag lists of `send` and `reply`, and the reason
  phrase of `reply` and `createResponse`, are left out. They only pass through to
  the engine.
- The callbacks' pointer casts (`reinterpret_cast`, `dynamic_pointer_cast`) are
  left out: each callback is a method of the object it belongs to.
- Logging is left out. The Agent's event pipeline is reduced to "an event was
  dispatched" and "the statistic for a status was incremented".
- The factories `create`, the destructors, and the transport argument of the
  request event are left out. They do nothing this layer decides.
