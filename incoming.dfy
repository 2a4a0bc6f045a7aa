/** The server transaction (IncomingTransaction): an engine context created from
    the received request by `handle`, responses sent through it by `send` and
    `reply`, and a callback that hands each correlated request (ACK, CANCEL) to
    the Agent and ends the transaction on a CANCEL. */
module Incoming {
  import opened Lifecycle

  // ---------------------------------------------------------------------------
  // The transitions, as functions of the state.

  /** What the Agent does to the transaction while it handles a dispatched request. */
  datatype Reentry = Quiet | AgentDestroys | AgentReplies(status: int)

  predicate IsCancel(q: Request) {
    q.requestMethod == Some(Cancel)
  }

  /** `handle`, with `created` what the engine's creation returns: the context field
      takes that value whatever it held; on success the callback is bound and the
      self-hold taken. */
  function HandleStep(s: TxState, created: Option<Context>): (r: TxState)
    ensures r.context == created && r.selfHold == (created.Some? || s.selfHold)
    ensures Extends(r.log, s.log + [NtaCreate(created)])
  {
    match created
    case None => s.(context := None, log := s.log + [NtaCreate(None)])
    case Some(_) => s.(selfHold := true, context := created, log := s.log + [NtaCreate(created), NtaBind(created)])
  }

  /** `createResponse`: the engine is asked to build a response on the context,
      whatever it is (there is no check for NULL); nothing else changes. */
  function CreateResponseStep(s: TxState, status: int): (r: TxState)
    ensures r.selfHold == s.selfHold && r.context == s.context && r.crossLink == s.crossLink
    ensures |r.log| == |s.log| + 1 && Extends(r.log, s.log)
  {
    s.(log := s.log + [NtaCreateResponse(s.context, status)])
  }

  /** `send` of response `r`: only with a context; destroy after a final status. */
  function SendStep(s: TxState, r: Response): (t: TxState)
    ensures s.context.None? ==> t == s
    ensures s.context.Some? ==> Extends(t.log, s.log + [NtaMReply(s.context, r)])
    ensures s.context.Some? && EndsTransaction(r) ==> !t.selfHold
  {
    if s.context.Some? then
      var sent := s.(log := s.log + [NtaMReply(s.context, r)]);
      if EndsTransaction(r) then Terminate(sent) else sent
    else
      s
  }

  /** `reply` with `status`: only with a context; the Agent's statistics first, then
      the engine's reply, then destroy after a final status. */
  function ReplyStep(s: TxState, status: int): (t: TxState)
    ensures s.context.None? ==> t == s
    ensures s.context.Some? ==> Extends(t.log, s.log + [IncrReplyStat(status), NtaTReply(s.context, status)])
    ensures s.context.Some? && IsFinal(status) ==> !t.selfHold
  {
    if s.context.Some? then
      var sent := s.(log := s.log + [IncrReplyStat(status), NtaTReply(s.context, status)]);
      if IsFinal(status) then Terminate(sent) else sent
    else
      s
  }

  function Reenter(s: TxState, reenter: Reentry): TxState {
    match reenter
    case Quiet => s
    case AgentDestroys => Terminate(s)
    case AgentReplies(status) => ReplyStep(s, status)
  }

  /** `_callback` with `sip` the request delivered (None for NULL). */
  function CallbackStep(s: TxState, sip: Option<Request>, reenter: Reentry): (t: TxState)
    ensures sip.None? || IsCancel(sip.value) ==> !t.selfHold
    ensures sip.Some? ==> Extends(t.log, s.log + [SendRequestEvent(sip.value)])
  {
    match sip
    case None => Terminate(s)
    case Some(q) =>
      var dispatched := s.(log := s.log + [SendRequestEvent(q)]);
      var handled := Reenter(dispatched, reenter);
      assert Extends(handled.log, dispatched.log) by {
        if reenter.AgentReplies? && dispatched.context.Some? {
          var st := reenter.status;
          ExtendsTransitive(handled.log, dispatched.log + [IncrReplyStat(st), NtaTReply(dispatched.context, st)], dispatched.log);
        }
      }
      ExtendsTransitive(Terminate(handled).log, handled.log, dispatched.log);
      if IsCancel(q) then Terminate(handled) else handled
  }

  /** Any sequence of operations on a server transaction after `handle`. */
  datatype Op =
    | CreateResponseOp(status: int)
    | SendOp(response: Response)
    | ReplyOp(status: int)
    | CallbackOp(sip: Option<Request>, reenter: Reentry)
    | DestroyOp

  function Step(s: TxState, op: Op): TxState {
    match op
    case CreateResponseOp(status) => CreateResponseStep(s, status)
    case SendOp(r) => SendStep(s, r)
    case ReplyOp(status) => ReplyStep(s, status)
    case CallbackOp(sip, reenter) => CallbackStep(s, sip, reenter)
    case DestroyOp => Terminate(s)
  }

  function Run(s: TxState, ops: seq<Op>): TxState
    decreases |ops|
  {
    if ops == [] then s else Run(Step(s, ops[0]), ops[1..])
  }

  // ---------------------------------------------------------------------------
  // handle

  /** A successful creation binds the callback to the new context and takes the
      self-hold. */
  lemma HandleCreates(s: TxState, c: Context)
    ensures var r := HandleStep(s, Some(c));
      r.selfHold && r.context == Some(c) && r.crossLink == s.crossLink &&
      r.log == s.log + [NtaCreate(Some(c)), NtaBind(Some(c))]
  {
  }

  /** A failed creation leaves the context NULL and takes no self-hold. */
  lemma HandleFails(s: TxState)
    ensures var r := HandleStep(s, None);
      r.context.None? && r.selfHold == s.selfHold && r.crossLink == s.crossLink &&
      r.log == s.log + [NtaCreate(None)]
  {
  }

  lemma HandleKeepsInv(s: TxState, created: Option<Context>)
    requires Inv(s) && !s.selfHold
    ensures Inv(HandleStep(s, created))
  {
    Extend(s.log, NtaCreate(created));
    if created.Some? {
      Extend(s.log + [NtaCreate(created)], NtaBind(created));
      assert s.log + [NtaCreate(created)] + [NtaBind(created)] == s.log + [NtaCreate(created), NtaBind(created)];
    }
  }

  /** As written, `handle` on a transaction that already holds a context overwrites
      the context field: when the second creation fails, the self-hold stays while
      the context is NULL, and destroy then hands NULL to the engine, so the first
      context is never destroyed. */
  lemma RehandleOrphansContext(c: Context)
    ensures var twice := HandleStep(HandleStep(FRESH, Some(c)), None);
      twice.selfHold && twice.context.None? && !Inv(twice) &&
      Terminate(twice).log ==
        [NtaCreate(Some(c)), NtaBind(Some(c)), NtaCreate(None), NtaUnbind(None), NtaDestroy(None)]
  {
    var log := [NtaCreate(Some(c)), NtaBind(Some(c)), NtaCreate(None)];
    assert log[..2][..1][..0] == [];
    assert log[..2][..1] == [NtaCreate(Some(c))];
    assert log[..2] == [NtaCreate(Some(c)), NtaBind(Some(c))];
    assert Live(log[..2]) == Some(c);
  }

  // ---------------------------------------------------------------------------
  // send, reply, createResponse

  /** With no context, send and reply make no engine call, count no statistic and
      change nothing. */
  lemma NoContextInert(s: TxState, r: Response, status: int)
    requires s.context.None?
    ensures SendStep(s, r) == s
    ensures ReplyStep(s, status) == s
  {
  }

  /** With a context, reply counts its status in the Agent's statistics before the
      engine reply is issued; without one, it counts nothing. */
  lemma ReplyCountsStat(s: TxState, status: int)
    ensures Stats(ReplyStep(s, status).log) == Stats(s.log) + (if s.context.Some? then [status] else [])
    ensures s.context.Some? ==>
      |ReplyStep(s, status).log| >= |s.log| + 2 &&
      ReplyStep(s, status).log[..|s.log| + 2] == s.log + [IncrReplyStat(status), NtaTReply(s.context, status)]
  {
    if s.context.Some? {
      var sent := s.(log := s.log + [IncrReplyStat(status), NtaTReply(s.context, status)]);
      Additive(s.log, [IncrReplyStat(status), NtaTReply(s.context, status)]);
      Extend([IncrReplyStat(status)], NtaTReply(s.context, status));
      assert [IncrReplyStat(status)][..0] == [];
      assert Stats([IncrReplyStat(status)]) == [status];
      Additive(sent.log, [NtaUnbind(sent.context), NtaDestroy(sent.context)]);
      Extend([NtaUnbind(sent.context)], NtaDestroy(sent.context));
      assert Terminate(sent).log[..|s.log| + 2] == sent.log;
    }
  }

  /** On an active transaction, send and reply terminate it if and only if the
      status is final. */
  lemma SendReplyEndIffFinal(s: TxState, r: Response, status: int)
    requires Inv(s) && s.selfHold
    ensures SendStep(s, r).selfHold <==> !EndsTransaction(r)
    ensures ReplyStep(s, status).selfHold <==> !IsFinal(status)
  {
  }

  /** After a final reply, later sends and replies are dropped. */
  lemma AfterFinalInert(s: TxState, status: int, later: int, r: Response)
    requires Inv(s) && IsFinal(status)
    ensures var done := ReplyStep(s, status);
      ReplyStep(done, later) == done && SendStep(done, r) == done
  {
  }

  /** 180, 200 and 486 replies: the statistics hold 180 and 200 only, the 180 leaves
      the transaction active and the 200 terminates it. */
  lemma RingingOkBusy(c: Context)
    ensures var handled := HandleStep(FRESH, Some(c));
      var ringing := ReplyStep(handled, 180);
      var ok := ReplyStep(ringing, 200);
      var busy := ReplyStep(ok, 486);
      ringing.selfHold && !ok.selfHold && busy == ok &&
      Stats(busy.log) == [180, 200]
  {
    var handled := HandleStep(FRESH, Some(c));
    ReplyCountsStat(handled, 180);
    var ringing := ReplyStep(handled, 180);
    ReplyCountsStat(ringing, 200);
    assert Stats(handled.log) == [] by {
      assert handled.log == [NtaCreate(Some(c))] + [NtaBind(Some(c))];
      Extend([NtaCreate(Some(c))], NtaBind(Some(c)));
      Single(NtaCreate(Some(c)));
      Single(NtaBind(Some(c)));
    }
  }

  /** createResponse is not guarded: before handle, the engine is still asked to
      build a response, on a NULL context. */
  lemma CreateResponseUnguarded(s: TxState, status: int)
    ensures var r := CreateResponseStep(s, status);
      r.selfHold == s.selfHold && r.context == s.context && r.crossLink == s.crossLink &&
      r.log == s.log + [NtaCreateResponse(s.context, status)]
    ensures CreateResponseStep(FRESH, status).log == [NtaCreateResponse(None, status)]
  {
  }

  // ---------------------------------------------------------------------------
  // _callback

  /** reply only ever adds to the log. */
  lemma ReplyExtends(s: TxState, status: int)
    ensures Extends(ReplyStep(s, status).log, s.log)
  {
    if s.context.Some? {
      var sent := s.(log := s.log + [IncrReplyStat(status), NtaTReply(s.context, status)]);
      assert sent.log[..|s.log|] == s.log;
      TerminateExtends(sent);
      ExtendsTransitive(ReplyStep(s, status).log, sent.log, s.log);
    }
  }

  /** A request is dispatched to the Agent before anything the Agent does in
      response, and before the callback's own destroy. */
  lemma CallbackDispatchesFirst(s: TxState, q: Request, reenter: Reentry)
    ensures Extends(CallbackStep(s, Some(q), reenter).log, s.log + [SendRequestEvent(q)])
  {
    var s1 := s.(log := s.log + [SendRequestEvent(q)]);
    var handled := Reenter(s1, reenter);
    TerminateExtends(s1);
    ReplyExtends(s1, if reenter.AgentReplies? then reenter.status else 0);
    assert Extends(handled.log, s1.log);
    TerminateExtends(handled);
    if IsCancel(q) {
      ExtendsTransitive(Terminate(handled).log, handled.log, s1.log);
    }
  }

  /** What the Agent sees of a reply: one statistic increment, only with a context. */
  lemma ReplyAgentView(s: TxState, status: int)
    ensures AgentView(ReplyStep(s, status).log) ==
      AgentView(s.log) + (if s.context.Some? then [IncrReplyStat(status)] else [])
  {
    if s.context.Some? {
      var counted := s.log + [IncrReplyStat(status)];
      var sent := s.(log := counted + [NtaTReply(s.context, status)]);
      assert sent.log == s.log + [IncrReplyStat(status), NtaTReply(s.context, status)];
      assert AgentView(counted) == AgentView(s.log) + [IncrReplyStat(status)] by {
        Extend(s.log, IncrReplyStat(status));
        Single(IncrReplyStat(status));
      }
      assert AgentView(sent.log) == AgentView(counted) by {
        Extend(counted, NtaTReply(s.context, status));
        Single(NtaTReply(s.context, status));
      }
      TerminateEffect(sent);
    }
  }

  /** The request is the first thing the Agent sees; if the Agent replies during the
      dispatch, the only other thing is that reply's statistic, and only when a
      context exists. No request, no dispatch. */
  lemma CallbackDispatchesOnce(s: TxState, sip: Option<Request>, reenter: Reentry)
    ensures sip.Some? && !reenter.AgentReplies? ==>
      AgentView(CallbackStep(s, sip, reenter).log) == AgentView(s.log) + [SendRequestEvent(sip.value)]
    ensures sip.Some? && reenter.AgentReplies? ==>
      AgentView(CallbackStep(s, sip, reenter).log) ==
        AgentView(s.log) + [SendRequestEvent(sip.value)] +
        (if s.context.Some? then [IncrReplyStat(reenter.status)] else [])
    ensures sip.None? ==>
      AgentView(CallbackStep(s, sip, reenter).log) == AgentView(s.log)
  {
    TerminateEffect(s);
    if sip.Some? {
      var s1 := s.(log := s.log + [SendRequestEvent(sip.value)]);
      Extend(s.log, SendRequestEvent(sip.value));
      Single(SendRequestEvent(sip.value));
      TerminateEffect(s1);
      if reenter.AgentReplies? {
        ReplyAgentView(s1, reenter.status);
      }
      TerminateEffect(Reenter(s1, reenter));
    }
  }

  /** On an active transaction whose Agent does not intervene, a request terminates
      it if and only if it is a CANCEL. */
  lemma CallbackEndsIffCancel(s: TxState, q: Request)
    requires Inv(s) && s.selfHold
    ensures CallbackStep(s, Some(q), Quiet).selfHold <==> !IsCancel(q)
  {
  }

  /** A CANCEL always leaves the transaction terminated, whatever the Agent does;
      so does the end of the transaction without a request. */
  lemma CallbackCancelTerminates(s: TxState, sip: Option<Request>, reenter: Reentry)
    requires sip.None? || IsCancel(sip.value)
    ensures !CallbackStep(s, sip, reenter).selfHold
  {
  }

  /** A CANCEL that arrives after a final reply has already terminated the
      transaction is dispatched, and the destroy that follows is a no-op. */
  lemma CancelAfterFinalReply(s: TxState, status: int, q: Request)
    requires Inv(s) && IsFinal(status) && IsCancel(q)
    ensures var done := ReplyStep(s, status);
      CallbackStep(done, Some(q), Quiet) == done.(log := done.log + [SendRequestEvent(q)])
  {
  }

  // ---------------------------------------------------------------------------
  // The invariant over any run.

  lemma SendKeepsInv(s: TxState, r: Response)
    requires Inv(s)
    ensures Inv(SendStep(s, r))
  {
    if s.context.Some? {
      var sent := s.(log := s.log + [NtaMReply(s.context, r)]);
      Extend(s.log, NtaMReply(s.context, r));
      TerminateKeepsInv(sent);
    }
  }

  lemma ReplyKeepsInv(s: TxState, status: int)
    requires Inv(s)
    ensures Inv(ReplyStep(s, status))
  {
    if s.context.Some? {
      var sent := s.(log := s.log + [IncrReplyStat(status), NtaTReply(s.context, status)]);
      Extend(s.log, IncrReplyStat(status));
      Extend(s.log + [IncrReplyStat(status)], NtaTReply(s.context, status));
      assert s.log + [IncrReplyStat(status)] + [NtaTReply(s.context, status)] == sent.log;
      TerminateKeepsInv(sent);
    }
  }

  lemma CallbackKeepsInv(s: TxState, sip: Option<Request>, reenter: Reentry)
    requires Inv(s)
    ensures Inv(CallbackStep(s, sip, reenter))
  {
    TerminateKeepsInv(s);
    if sip.Some? {
      var s1 := s.(log := s.log + [SendRequestEvent(sip.value)]);
      Extend(s.log, SendRequestEvent(sip.value));
      TerminateKeepsInv(s1);
      if reenter.AgentReplies? {
        ReplyKeepsInv(s1, reenter.status);
      }
      TerminateKeepsInv(Reenter(s1, reenter));
    }
  }

  lemma StepKeepsInv(s: TxState, op: Op)
    requires Inv(s)
    ensures Inv(Step(s, op))
  {
    match op
    case CreateResponseOp(status) => Extend(s.log, NtaCreateResponse(s.context, status));
    case SendOp(r) => SendKeepsInv(s, r);
    case ReplyOp(status) => ReplyKeepsInv(s, status);
    case CallbackOp(sip, reenter) => CallbackKeepsInv(s, sip, reenter);
    case DestroyOp => TerminateKeepsInv(s);
  }

  lemma {:induction false} RunKeepsInv(s: TxState, ops: seq<Op>)
    requires Inv(s)
    ensures Inv(Run(s, ops))
    decreases |ops|
  {
    if ops != [] {
      StepKeepsInv(s, ops[0]);
      RunKeepsInv(Step(s, ops[0]), ops[1..]);
    }
  }

  /** A server transaction handled once and then used in any way keeps the
      invariant, and every context it created has been destroyed exactly once,
      except the one still held. */
  lemma RunBalancesContexts(created: Option<Context>, ops: seq<Op>)
    ensures Inv(Run(HandleStep(FRESH, created), ops))
    ensures var r := Run(HandleStep(FRESH, created), ops);
      Creates(r.log) == Destroys(r.log) + (if r.selfHold then 1 else 0)
  {
    HandleKeepsInv(FRESH, created);
    RunKeepsInv(HandleStep(FRESH, created), ops);
    ContextsBalanced(Run(HandleStep(FRESH, created), ops).log);
  }

  // ---------------------------------------------------------------------------
  // The object.

  class IncomingTransaction {
    var selfHold: bool
    var context: Option<Context>
    var crossLink: bool
    ghost var log: seq<Action>

    ghost function State(): TxState
      reads this
    {
      TxState(selfHold, context, crossLink, log)
    }

    ghost predicate Valid()
      reads this
    {
      Inv(State())
    }

    constructor ()
      ensures State() == FRESH && Valid()
    {
      selfHold := false;
      context := None;
      crossLink := false;
      log := [];
    }

    /** `created` is what the engine's creation from the received request returns. */
    method Handle(created: Option<Context>)
      modifies this
      ensures State() == HandleStep(old(State()), created)
      ensures old(Valid()) && !old(selfHold) ==> Valid()
    {
      ghost var s0 := State();
      context := created;
      log := log + [NtaCreate(created)];
      if context.Some? {
        log := log + [NtaBind(context)];
        selfHold := true;
      }
      if Inv(s0) && !s0.selfHold {
        HandleKeepsInv(s0, created);
      }
    }

    /** `built` is what the engine's response builder returns. */
    method CreateResponse(status: int, built: Option<Response>) returns (ms: Option<Response>)
      modifies this
      ensures ms == built
      ensures State() == CreateResponseStep(old(State()), status)
      ensures old(Valid()) ==> Valid()
    {
      ghost var s0 := State();
      log := log + [NtaCreateResponse(context, status)];
      ms := built;
      Extend(s0.log, NtaCreateResponse(s0.context, status));
    }

    method Send(r: Response)
      modifies this
      ensures State() == SendStep(old(State()), r)
      ensures old(Valid()) ==> Valid()
    {
      ghost var s0 := State();
      if context.Some? {
        log := log + [NtaMReply(context, r)];
        if r.status.Some? && r.status.value >= 200 {
          Destroy();
        }
      }
      if Inv(s0) {
        SendKeepsInv(s0, r);
      }
    }

    method Reply(status: int)
      modifies this
      ensures State() == ReplyStep(old(State()), status)
      ensures old(Valid()) ==> Valid()
    {
      ghost var s0 := State();
      if context.Some? {
        log := log + [IncrReplyStat(status)];
        log := log + [NtaTReply(context, status)];
        if status >= 200 {
          Destroy();
        }
      }
      if Inv(s0) {
        ReplyKeepsInv(s0, status);
      }
    }

    /** The engine's callback; `reenter` is what the Agent does to this transaction
        while it handles the dispatched request. */
    method Callback(sip: Option<Request>, reenter: Reentry)
      modifies this
      ensures State() == CallbackStep(old(State()), sip, reenter)
      ensures old(Valid()) ==> Valid()
    {
      ghost var s0 := State();
      if sip.Some? {
        log := log + [SendRequestEvent(sip.value)];
        match reenter {
          case Quiet =>
          case AgentDestroys => Destroy();
          case AgentReplies(status) => Reply(status);
        }
        if sip.value.requestMethod.Some? && sip.value.requestMethod.value.Cancel? {
          Destroy();
        }
      } else {
        Destroy();
      }
      if Inv(s0) {
        CallbackKeepsInv(s0, sip, reenter);
      }
    }

    method Destroy()
      modifies this
      ensures State() == Terminate(old(State()))
      ensures old(Valid()) ==> Valid()
    {
      ghost var s0 := State();
      if selfHold {
        selfHold := false;
        log := log + [NtaUnbind(context), NtaDestroy(context)];
        crossLink := false;
        context := None;
      }
      if Inv(s0) {
        TerminateKeepsInv(s0);
      }
    }

    /** Pairs the transaction with a client transaction (done by code outside this
        class; destroy is what releases the link). */
    method Link()
      modifies this
      ensures State() == old(State()).(crossLink := true)
      ensures old(Valid()) ==> Valid()
    {
      crossLink := true;
    }
  }
}
