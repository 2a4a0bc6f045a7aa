/** The part of the transaction layer that the client and the server transaction
    share: the engine contexts, the messages, the log of everything a transaction
    asks of the engine and of the Agent, and the guarded teardown (`destroy`).

    A transaction's observable state is a `TxState`:
    - `selfHold`  -- the strong reference the object holds on itself (mSofiaRef);
    - `context`   -- the engine transaction context (mOutgoing / mIncoming), None for NULL;
    - `crossLink` -- the shared pointer to the paired transaction of the other kind;
    - `log`       -- every engine call and every Agent interaction, in order. */
module Lifecycle {

  datatype Option<+T> = None | Some(value: T)

  /** An engine transaction context; only its identity matters to this layer. */
  type Context = nat

  datatype Method = Invite | Ack | Bye | Cancel | OtherMethod

  /** A response as this layer looks at it: the status line may be missing. */
  datatype Response = Response(status: Option<int>)

  /** A request as this layer looks at it: the request line may be missing. */
  datatype Request = Request(requestMethod: Option<Method>)

  /** A status of 200 or more is final. */
  predicate IsFinal(status: int) {
    status >= 200
  }

  /** A response ends a transaction when it has a status line with a final status. */
  predicate EndsTransaction(r: Response) {
    r.status.Some? && IsFinal(r.status.value)
  }

  /** What a transaction asks of the engine (the `Nta` calls, and the release of a
      duplicated message) and of the Agent (the last three). */
  datatype Action =
    | NtaCreate(outcome: Option<Context>)          // nta_outgoing_mcreate / nta_incoming_create and what it returned
    | NtaBind(target: Option<Context>)             // bind the transaction's callback
    | NtaUnbind(target: Option<Context>)           // bind NULL: no further callbacks
    | NtaDestroy(target: Option<Context>)
    | NtaCancel(target: Option<Context>)
    | NtaMReply(target: Option<Context>, response: Response)
    | NtaTReply(target: Option<Context>, status: int)
    | NtaCreateResponse(target: Option<Context>, status: int)
    | MsgDestroy                                   // the duplicate made for a failed creation is released
    | SendResponseEvent(response: Response)
    | SendRequestEvent(request: Request)
    | IncrReplyStat(status: int)

  predicate IsAgentAction(a: Action) {
    a.SendResponseEvent? || a.SendRequestEvent? || a.IncrReplyStat?
  }

  datatype TxState = TxState(selfHold: bool, context: Option<Context>, crossLink: bool, log: seq<Action>)

  /** A transaction just constructed: no self-hold, no context, no link, nothing done. */
  const FRESH: TxState := TxState(false, None, false, [])

  /** `destroy`: only while the self-hold is held, release it, unbind the callback,
      destroy the context, drop the cross-link and forget the context. */
  function Terminate(s: TxState): (r: TxState)
    ensures !r.selfHold
    ensures s.selfHold || r == s
    ensures Extends(r.log, s.log)
  {
    if s.selfHold then
      TxState(false, None, false, s.log + [NtaUnbind(s.context), NtaDestroy(s.context)])
    else
      s
  }

  // ---------------------------------------------------------------------------
  // The engine discipline: which context is live after a log, and which calls
  // may be made given what came before.

  function LiveAfter(live: Option<Context>, a: Action): Option<Context> {
    match a
    case NtaCreate(outcome) => outcome
    case NtaDestroy(_) => None
    case _ => live
  }

  /** The context created and not yet destroyed after `log`, if any. */
  function Live(log: seq<Action>): Option<Context>
    decreases |log|
  {
    if log == [] then None else LiveAfter(Live(log[..|log| - 1]), log[|log| - 1])
  }

  /** A call is allowed after `before` when: a context is created only while none is
      live; every call names the live context (only cancel and create-response may
      name NULL, and only when nothing is live); a destroy names a live context and
      comes right after unbinding it; a released duplicate follows a failed creation. */
  predicate Allowed(before: seq<Action>, a: Action) {
    var live := Live(before);
    match a
    case NtaCreate(_) => live.None?
    case NtaBind(c) => c.Some? && c == live
    case NtaUnbind(c) => c.Some? && c == live
    case NtaDestroy(c) => c.Some? && c == live && |before| > 0 && before[|before| - 1] == NtaUnbind(c)
    case NtaCancel(c) => c == live
    case NtaMReply(c, _) => c.Some? && c == live
    case NtaTReply(c, _) => c.Some? && c == live
    case NtaCreateResponse(c, _) => c == live
    case MsgDestroy => |before| > 0 && before[|before| - 1] == NtaCreate(None)
    case _ => true
  }

  /** Every call of the log is allowed after the calls before it. */
  predicate Disciplined(log: seq<Action>)
    decreases |log|
  {
    log == [] || (Disciplined(log[..|log| - 1]) && Allowed(log[..|log| - 1], log[|log| - 1]))
  }

  /** The invariant of both transaction kinds: the log keeps the discipline, the
      context field is the live context, and the self-hold is held exactly while a
      context is. */
  predicate Inv(s: TxState) {
    Disciplined(s.log) && Live(s.log) == s.context && (s.selfHold <==> s.context.Some?)
  }

  // ---------------------------------------------------------------------------
  // Views of the log.

  function Creates(log: seq<Action>): nat
    decreases |log|
  {
    if log == [] then 0
    else Creates(log[..|log| - 1]) + (if log[|log| - 1].NtaCreate? && log[|log| - 1].outcome.Some? then 1 else 0)
  }

  function Destroys(log: seq<Action>): nat
    decreases |log|
  {
    if log == [] then 0
    else Destroys(log[..|log| - 1]) + (if log[|log| - 1].NtaDestroy? then 1 else 0)
  }

  /** What the Agent saw: dispatched events and reply-stat increments, in order. */
  function AgentView(log: seq<Action>): seq<Action>
    decreases |log|
  {
    if log == [] then []
    else AgentView(log[..|log| - 1]) + (if IsAgentAction(log[|log| - 1]) then [log[|log| - 1]] else [])
  }

  /** The statuses for which the Agent's reply statistics were incremented. */
  function Stats(log: seq<Action>): seq<int>
    decreases |log|
  {
    if log == [] then []
    else Stats(log[..|log| - 1]) + (if log[|log| - 1].IncrReplyStat? then [log[|log| - 1].status] else [])
  }

  /** Appending one action: how the live context, the discipline and the views of
      the log change. */
  lemma Extend(log: seq<Action>, a: Action)
    ensures Live(log + [a]) == LiveAfter(Live(log), a)
    ensures Disciplined(log + [a]) <==> Disciplined(log) && Allowed(log, a)
    ensures Creates(log + [a]) == Creates(log) + Creates([a])
    ensures Destroys(log + [a]) == Destroys(log) + Destroys([a])
    ensures AgentView(log + [a]) == AgentView(log) + AgentView([a])
    ensures Stats(log + [a]) == Stats(log) + Stats([a])
  {
    assert (log + [a])[..|log|] == log;
    ExtendViews(log, a);
  }

  lemma ExtendViews(log: seq<Action>, a: Action)
    requires (log + [a])[..|log|] == log
    ensures Creates(log + [a]) == Creates(log) + Creates([a])
    ensures Destroys(log + [a]) == Destroys(log) + Destroys([a])
    ensures AgentView(log + [a]) == AgentView(log) + AgentView([a])
    ensures Stats(log + [a]) == Stats(log) + Stats([a])
  {
    Single(a);
  }

  /** The views of a one-action log. */
  lemma Single(a: Action)
    ensures Creates([a]) == (if a.NtaCreate? && a.outcome.Some? then 1 else 0)
    ensures Destroys([a]) == (if a.NtaDestroy? then 1 else 0)
    ensures AgentView([a]) == (if IsAgentAction(a) then [a] else [])
    ensures Stats([a]) == (if a.IncrReplyStat? then [a.status] else [])
  {
    assert [a][..0] == [];
  }

  /** `log` begins with `prefix`. */
  predicate Extends(log: seq<Action>, prefix: seq<Action>) {
    |prefix| <= |log| && log[..|prefix|] == prefix
  }

  lemma ExtendsTransitive(a: seq<Action>, b: seq<Action>, c: seq<Action>)
    requires Extends(a, b) && Extends(b, c)
    ensures Extends(a, c)
  {
    assert a[..|b|][..|c|] == a[..|c|];
  }

  /** The views of the log distribute over concatenation. */
  lemma {:induction false} Additive(log: seq<Action>, more: seq<Action>)
    ensures Creates(log + more) == Creates(log) + Creates(more)
    ensures Destroys(log + more) == Destroys(log) + Destroys(more)
    ensures AgentView(log + more) == AgentView(log) + AgentView(more)
    ensures Stats(log + more) == Stats(log) + Stats(more)
    decreases |more|
  {
    if more == [] {
      assert log + more == log;
    } else {
      var init, a := more[..|more| - 1], more[|more| - 1];
      assert more == init + [a];
      assert log + more == (log + init) + [a];
      Additive(log, init);
      Extend(log + init, a);
      Extend(init, a);
    }
  }

  // ---------------------------------------------------------------------------
  // destroy

  /** Without the self-hold nothing changes; with it, the self-hold, the link and the
      context are cleared, and the engine sees the callback unbound and then the
      context destroyed, nothing else, and the Agent sees nothing. */
  lemma TerminateEffect(s: TxState)
    ensures !s.selfHold ==> Terminate(s) == s
    ensures s.selfHold ==>
      var r := Terminate(s);
      !r.selfHold && r.context.None? && !r.crossLink &&
      r.log == s.log + [NtaUnbind(s.context), NtaDestroy(s.context)]
    ensures AgentView(Terminate(s).log) == AgentView(s.log)
  {
    Additive(s.log, [NtaUnbind(s.context), NtaDestroy(s.context)]);
    Extend([NtaUnbind(s.context)], NtaDestroy(s.context));
  }

  /** destroy only ever adds to the log. */
  lemma TerminateExtends(s: TxState)
    ensures Extends(Terminate(s).log, s.log)
  {
    assert (s.log + [NtaUnbind(s.context), NtaDestroy(s.context)])[..|s.log|] == s.log;
  }

  /** Calling destroy twice is calling it once. */
  lemma TerminateIdempotent(s: TxState)
    ensures Terminate(Terminate(s)) == Terminate(s)
    ensures !Terminate(s).selfHold
  {
  }

  lemma TerminateKeepsInv(s: TxState)
    requires Inv(s)
    ensures Inv(Terminate(s))
  {
    if s.selfHold {
      Extend(s.log, NtaUnbind(s.context));
      Extend(s.log + [NtaUnbind(s.context)], NtaDestroy(s.context));
      assert s.log + [NtaUnbind(s.context)] + [NtaDestroy(s.context)] == Terminate(s).log;
    }
  }

  /** On a transaction that keeps the invariant, destroy -- called once or twice --
      destroys exactly the live context and exactly once, and leaves nothing live. */
  lemma TerminateDestroysOnce(s: TxState)
    requires Inv(s)
    ensures Destroys(Terminate(Terminate(s)).log) == Destroys(s.log) + (if s.selfHold then 1 else 0)
    ensures Creates(Terminate(s).log) == Creates(s.log)
    ensures Live(Terminate(s).log).None?
  {
    TerminateKeepsInv(s);
    if s.selfHold {
      Additive(s.log, [NtaUnbind(s.context), NtaDestroy(s.context)]);
      Extend([NtaUnbind(s.context)], NtaDestroy(s.context));
    }
  }

  // ---------------------------------------------------------------------------
  // Consequences of the discipline.

  lemma {:induction false} PrefixDisciplined(log: seq<Action>, n: nat)
    requires Disciplined(log) && n <= |log|
    ensures Disciplined(log[..n])
    decreases |log| - n
  {
    if n < |log| {
      PrefixDisciplined(log[..|log| - 1], n);
      assert log[..|log| - 1][..n] == log[..n];
    } else {
      assert log[..n] == log;
    }
  }

  /** Every context created is destroyed once: the successful creations are the
      destructions plus the one context that may still be live. */
  lemma {:induction false} ContextsBalanced(log: seq<Action>)
    requires Disciplined(log)
    ensures Creates(log) == Destroys(log) + (if Live(log).Some? then 1 else 0)
    decreases |log|
  {
    if log != [] {
      var init, a := log[..|log| - 1], log[|log| - 1];
      assert log == init + [a];
      ContextsBalanced(init);
      Extend(init, a);
    }
  }

  /** A terminated transaction leaves no context behind. */
  lemma TerminatedIsBalanced(s: TxState)
    requires Inv(s) && !s.selfHold
    ensures Creates(s.log) == Destroys(s.log)
  {
    ContextsBalanced(s.log);
  }

  /** A context that is live at `b` but not at `a` was created in between. */
  lemma {:induction false} LiveNeedsCreate(log: seq<Action>, a: nat, b: nat)
    requires a <= b <= |log|
    requires Live(log[..a]).None? && Live(log[..b]).Some?
    ensures exists k :: a <= k < b && log[k] == NtaCreate(Live(log[..b]))
    decreases b - a
  {
    assert a < b;
    assert log[..b] == log[..b - 1] + [log[b - 1]];
    Extend(log[..b - 1], log[b - 1]);
    if log[b - 1] != NtaCreate(Live(log[..b])) {
      LiveNeedsCreate(log, a, b - 1);
    }
  }

  /** A destruction in a disciplined log names the context live before it. */
  lemma DestroyNeedsLive(log: seq<Action>, j: nat)
    requires Disciplined(log) && j < |log| && log[j].NtaDestroy?
    ensures Live(log[..j]).Some?
  {
    PrefixDisciplined(log, j + 1);
    var p := log[..j + 1];
    assert p[..|p| - 1] == log[..j];
    assert Allowed(log[..j], p[|p| - 1]);
  }

  /** Nothing is live right after a destruction. */
  lemma NothingLiveAfterDestroy(log: seq<Action>, i: nat)
    requires i < |log| && log[i].NtaDestroy?
    ensures Live(log[..i + 1]).None?
  {
    assert log[..i + 1] == log[..i] + [log[i]];
    Extend(log[..i], log[i]);
  }

  /** No context is destroyed twice: between any two destructions in a disciplined
      log, a context was successfully created (a handle the engine reuses is a new
      context). */
  lemma NoDoubleDestroy(log: seq<Action>, i: nat, j: nat)
    requires Disciplined(log)
    requires i < j < |log| && log[i].NtaDestroy? && log[j].NtaDestroy?
    ensures exists k :: i < k < j && log[k].NtaCreate? && log[k].outcome.Some?
  {
    DestroyNeedsLive(log, j);
    NothingLiveAfterDestroy(log, i);
    LiveNeedsCreate(log, i + 1, j);
  }
}
