/** The client transaction (OutgoingTransaction): a branch id fixed at construction,
    an engine context created lazily by the first send, cancellation, and a
    callback that hands each response to the Agent and ends the transaction on a
    final status. */
module Outgoing {
  import opened Lifecycle

  // ---------------------------------------------------------------------------
  // The branch id buffer of getRandomBranch.

  /** SU_MD5_DIGEST_SIZE: the number of random bytes behind a branch id. */
  const MD5_DIGEST_SIZE: nat := 16

  /** The size of the buffer a digest of `digestBytes` bytes is encoded into: one
      5-bit token character per started group of five bits, plus the terminator. */
  function BranchBufferSize(digestBytes: nat): (n: nat)
    ensures n >= 1
    ensures 8 * digestBytes <= 5 * (n - 1) < 8 * digestBytes + 5
  {
    (digestBytes * 8 + 4) / 5 + 1
  }

  /** The encoder is asked for one character less than the buffer holds. */
  function BranchTokenLength(): nat {
    BranchBufferSize(MD5_DIGEST_SIZE) - 1
  }

  /** For a 16-byte digest: a 27-byte buffer holding a 26-character token. */
  lemma BranchSizes()
    ensures BranchBufferSize(MD5_DIGEST_SIZE) == 27
    ensures BranchTokenLength() == 26
  {
  }

  // ---------------------------------------------------------------------------
  // The transitions, as functions of the state.

  /** What the Agent does to the transaction while it handles a dispatched response. */
  datatype Reentry = Quiet | AgentDestroys | AgentCancels

  /** `cancel`: the engine is asked to cancel (whatever the context is, NULL
      included), then the transaction is destroyed. */
  function CancelStep(s: TxState): (r: TxState)
    ensures !r.selfHold
    ensures Extends(r.log, s.log + [NtaCancel(s.context)])
  {
    Terminate(s.(log := s.log + [NtaCancel(s.context)]))
  }

  /** `send` of a request with method `m`, where `created` is what the engine's
      creation returns if it is asked. */
  function SendStep(s: TxState, m: Method, created: Option<Context>): (r: TxState)
    ensures s.context.None? ==> r.context == created && r.selfHold == (created.Some? || s.selfHold)
    ensures s.context.None? ==> Extends(r.log, s.log + [NtaCreate(created)])
    ensures s.context.Some? && !m.Cancel? ==> r == s
    ensures s.context.Some? && m.Cancel? ==> !r.selfHold
  {
    if s.context.None? then
      match created
      case None => s.(log := s.log + [NtaCreate(None), MsgDestroy])
      case Some(_) => s.(selfHold := true, context := created, log := s.log + [NtaCreate(created)])
    else if m.Cancel? then
      CancelStep(s)
    else
      s
  }

  function Reenter(s: TxState, reenter: Reentry): TxState {
    match reenter
    case Quiet => s
    case AgentDestroys => Terminate(s)
    case AgentCancels => CancelStep(s)
  }

  /** `_callback` with `sip` the response delivered (None for NULL). */
  function CallbackStep(s: TxState, sip: Option<Response>, reenter: Reentry): (t: TxState)
    ensures sip.None? || EndsTransaction(sip.value) ==> !t.selfHold
    ensures sip.Some? ==> Extends(t.log, s.log + [SendResponseEvent(sip.value)])
  {
    match sip
    case None => Terminate(s)
    case Some(r) =>
      var dispatched := s.(log := s.log + [SendResponseEvent(r)]);
      var handled := Reenter(dispatched, reenter);
      assert Extends(handled.log, dispatched.log) by {
        if reenter.AgentCancels? {
          ExtendsTransitive(handled.log, dispatched.log + [NtaCancel(s.context)], dispatched.log);
        }
      }
      ExtendsTransitive(Terminate(handled).log, handled.log, dispatched.log);
      if EndsTransaction(r) then Terminate(handled) else handled
  }

  /** Any sequence of operations on a client transaction. */
  datatype Op =
    | SendOp(m: Method, created: Option<Context>)
    | CancelOp
    | CallbackOp(sip: Option<Response>, reenter: Reentry)
    | DestroyOp

  function Step(s: TxState, op: Op): TxState {
    match op
    case SendOp(m, created) => SendStep(s, m, created)
    case CancelOp => CancelStep(s)
    case CallbackOp(sip, reenter) => CallbackStep(s, sip, reenter)
    case DestroyOp => Terminate(s)
  }

  function Run(s: TxState, ops: seq<Op>): TxState
    decreases |ops|
  {
    if ops == [] then s else Run(Step(s, ops[0]), ops[1..])
  }

  // ---------------------------------------------------------------------------
  // send

  /** With no context, a successful creation binds the context and takes the
      self-hold; nothing else happens. */
  lemma SendCreates(s: TxState, m: Method, c: Context)
    requires s.context.None?
    ensures var r := SendStep(s, m, Some(c));
      r.selfHold && r.context == Some(c) && r.crossLink == s.crossLink &&
      r.log == s.log + [NtaCreate(Some(c))]
  {
  }

  /** With no context, a failed creation leaves the context NULL, takes no
      self-hold and releases the duplicated message. */
  lemma SendCreateFails(s: TxState, m: Method)
    requires s.context.None?
    ensures var r := SendStep(s, m, None);
      r.selfHold == s.selfHold && r.context.None? && r.crossLink == s.crossLink &&
      r.log == s.log + [NtaCreate(None), MsgDestroy]
  {
  }

  /** With a context bound, a request other than CANCEL changes nothing and makes
      no engine call; a CANCEL cancels. */
  lemma SendWhileStarted(s: TxState, m: Method, created: Option<Context>)
    requires s.context.Some?
    ensures !m.Cancel? ==> SendStep(s, m, created) == s
    ensures m.Cancel? ==> SendStep(s, m, created) == CancelStep(s)
  {
  }

  /** Cancelling an active transaction: engine cancel, unbind, destroy -- in that
      order and nothing else -- and the transaction is terminated. */
  lemma CancelActive(s: TxState)
    requires Inv(s) && s.selfHold
    ensures var r := CancelStep(s);
      !r.selfHold && r.context.None? && !r.crossLink &&
      r.log == s.log + [NtaCancel(s.context), NtaUnbind(s.context), NtaDestroy(s.context)]
  {
  }

  /** Cancelling a transaction without self-hold only passes its (NULL) context to
      the engine's cancel; the destroy that follows does nothing. */
  lemma CancelInert(s: TxState)
    requires Inv(s) && !s.selfHold
    ensures CancelStep(s) == s.(log := s.log + [NtaCancel(None)])
  {
  }

  /** As written, destroy sets the context back to NULL, so a send after the
      transaction ended starts a new context and takes the self-hold again. */
  lemma SendAfterTerminationRestarts(s: TxState, m: Method, c: Context)
    requires Inv(s) && !s.selfHold
    ensures var r := SendStep(s, m, Some(c));
      r.selfHold && r.context == Some(c) && Inv(r)
  {
    Extend(s.log, NtaCreate(Some(c)));
  }

  // ---------------------------------------------------------------------------
  // _callback

  /** A response is dispatched to the Agent exactly once, whatever the Agent does
      during the dispatch; no response, no dispatch. */
  lemma CallbackDispatchesOnce(s: TxState, sip: Option<Response>, reenter: Reentry)
    ensures sip.Some? ==>
      AgentView(CallbackStep(s, sip, reenter).log) == AgentView(s.log) + [SendResponseEvent(sip.value)]
    ensures sip.None? ==>
      AgentView(CallbackStep(s, sip, reenter).log) == AgentView(s.log)
  {
    TerminateEffect(s);
    if sip.Some? {
      var s1 := s.(log := s.log + [SendResponseEvent(sip.value)]);
      Extend(s.log, SendResponseEvent(sip.value));
      var s2 := s1.(log := s1.log + [NtaCancel(s1.context)]);
      Extend(s1.log, NtaCancel(s1.context));
      TerminateEffect(s1);
      TerminateEffect(s2);
      var handled := Reenter(s1, reenter);
      assert AgentView(handled.log) == AgentView(s1.log);
      TerminateEffect(handled);
    }
  }

  /** On an active transaction whose Agent does not intervene, a response
      terminates it if and only if it carries a final status. */
  lemma CallbackEndsIffFinal(s: TxState, r: Response)
    requires Inv(s) && s.selfHold
    ensures CallbackStep(s, Some(r), Quiet).selfHold <==> !EndsTransaction(r)
    ensures !EndsTransaction(r) ==> CallbackStep(s, Some(r), Quiet).context == s.context
  {
  }

  /** Whatever the Agent does, a final response, or no response, leaves the
      transaction terminated. */
  lemma CallbackFinalTerminates(s: TxState, sip: Option<Response>, reenter: Reentry)
    requires sip.None? || EndsTransaction(sip.value) || !reenter.Quiet?
    ensures !CallbackStep(s, sip, reenter).selfHold
  {
  }

  /** If the Agent destroys the transaction while handling a final response, the
      callback's own destroy does nothing more: the result is the same as if the
      Agent had left it alone, and one context is destroyed, once. */
  lemma ReentrantDestroyHarmless(s: TxState, r: Response)
    requires EndsTransaction(r)
    ensures CallbackStep(s, Some(r), AgentDestroys) == CallbackStep(s, Some(r), Quiet)
    ensures Inv(s) ==>
      Destroys(CallbackStep(s, Some(r), AgentDestroys).log) == Destroys(s.log) + (if s.selfHold then 1 else 0)
  {
    var s1 := s.(log := s.log + [SendResponseEvent(r)]);
    Extend(s.log, SendResponseEvent(r));
    if Inv(s) {
      assert Inv(s1);
      TerminateDestroysOnce(s1);
      Additive(s.log, [SendResponseEvent(r)]);
    }
  }

  /** A provisional 180 leaves a started transaction active; the 200 that follows
      terminates it; a cancel afterwards only hands NULL to the engine. */
  lemma ProvisionalThenFinal(c: Context)
    ensures var started := SendStep(FRESH, Invite, Some(c));
      var ringing := CallbackStep(started, Some(Response(Some(180))), Quiet);
      var ok := CallbackStep(ringing, Some(Response(Some(200))), Quiet);
      ringing.selfHold && ringing.context == Some(c) &&
      !ok.selfHold && ok.context.None? &&
      ok.log == [NtaCreate(Some(c)), SendResponseEvent(Response(Some(180))),
                 SendResponseEvent(Response(Some(200))), NtaUnbind(Some(c)), NtaDestroy(Some(c))] &&
      CancelStep(ok) == ok.(log := ok.log + [NtaCancel(None)])
  {
  }

  // ---------------------------------------------------------------------------
  // The invariant over any run.

  lemma CancelKeepsInv(s: TxState)
    requires Inv(s)
    ensures Inv(CancelStep(s))
  {
    Extend(s.log, NtaCancel(s.context));
    TerminateKeepsInv(s.(log := s.log + [NtaCancel(s.context)]));
  }

  lemma SendKeepsInv(s: TxState, m: Method, created: Option<Context>)
    requires Inv(s)
    ensures Inv(SendStep(s, m, created))
  {
    if s.context.None? {
      Extend(s.log, NtaCreate(created));
      Extend(s.log + [NtaCreate(created)], MsgDestroy);
      assert s.log + [NtaCreate(created)] + [MsgDestroy] == s.log + [NtaCreate(created), MsgDestroy];
    } else if m.Cancel? {
      CancelKeepsInv(s);
    }
  }

  lemma CallbackKeepsInv(s: TxState, sip: Option<Response>, reenter: Reentry)
    requires Inv(s)
    ensures Inv(CallbackStep(s, sip, reenter))
  {
    TerminateKeepsInv(s);
    if sip.Some? {
      var s1 := s.(log := s.log + [SendResponseEvent(sip.value)]);
      Extend(s.log, SendResponseEvent(sip.value));
      TerminateKeepsInv(s1);
      CancelKeepsInv(s1);
      TerminateKeepsInv(Reenter(s1, reenter));
    }
  }

  lemma StepKeepsInv(s: TxState, op: Op)
    requires Inv(s)
    ensures Inv(Step(s, op))
  {
    match op
    case SendOp(m, created) => SendKeepsInv(s, m, created);
    case CancelOp => CancelKeepsInv(s);
    case CallbackOp(sip, reenter) => CallbackKeepsInv(s, sip, reenter);
    case DestroyOp => TerminateKeepsInv(s);
  }

  /** Every run keeps the invariant: at most one context at a time, every call on
      the live context, unbind right before destroy, and the self-hold held
      exactly while a context is. */
  lemma {:induction false} RunKeepsInv(s: TxState, ops: seq<Op>)
    requires Inv(s)
    ensures Inv(Run(s, ops))
    decreases |ops|
  {
    if ops != [] {
      StepKeepsInv(s, ops[0]);
      RunKeepsInv(Step(s, ops[0]), ops[1..]);
    }
  }

  /** From construction, whatever happens, every context the transaction created
      has been destroyed exactly once, except the one still held. */
  lemma RunBalancesContexts(ops: seq<Op>)
    ensures var r := Run(FRESH, ops);
      Creates(r.log) == Destroys(r.log) + (if r.selfHold then 1 else 0)
  {
    RunKeepsInv(FRESH, ops);
    ContextsBalanced(Run(FRESH, ops).log);
  }

  // ---------------------------------------------------------------------------
  // The object.

  class OutgoingTransaction {
    const branchId: string
    var selfHold: bool
    var context: Option<Context>
    var crossLink: bool
    ghost var log: seq<Action>

    ghost function State(): TxState
      reads this
    {
      TxState(selfHold, context, crossLink, log)
    }

    ghost predicate Valid()
      reads this
    {
      Inv(State()) && |branchId| <= BranchTokenLength()
    }

    /** `token` is the encoder's output for a fresh random digest: at most as many
        characters as it was asked for. */
    constructor (token: string)
      requires |token| <= BranchTokenLength()
      ensures branchId == token && State() == FRESH && Valid()
    {
      branchId := token;
      selfHold := false;
      context := None;
      crossLink := false;
      log := [];
    }

    method GetBranchId() returns (b: string)
      ensures b == branchId
    {
      b := branchId;
    }

    method Cancel()
      modifies this
      ensures State() == CancelStep(old(State()))
      ensures old(Valid()) ==> Valid()
    {
      ghost var s0 := State();
      log := log + [NtaCancel(context)];
      Destroy();
      if Inv(s0) {
        CancelKeepsInv(s0);
      }
    }

    /** `uriOf` is the engine's request-URI query on a context. */
    method GetRequestUri(uriOf: Context -> string) returns (uri: Option<string>)
      ensures context.None? ==> uri.None?
      ensures context.Some? ==> uri == Some(uriOf(context.value))
    {
      if context.None? {
        uri := None;
      } else {
        uri := Some(uriOf(context.value));
      }
    }

    /** `statusOf` is the engine's status query on a context. */
    method GetResponseCode(statusOf: Context -> int) returns (code: int)
      ensures context.None? ==> code == 0
      ensures context.Some? ==> code == statusOf(context.value)
    {
      if context.None? {
        code := 0;
      } else {
        code := statusOf(context.value);
      }
    }

    /** `created` is what the engine's creation returns if it is asked. */
    method Send(m: Method, created: Option<Context>)
      modifies this
      ensures State() == SendStep(old(State()), m, created)
      ensures old(Valid()) ==> Valid()
    {
      ghost var s0 := State();
      if context.None? {
        context := created;
        log := log + [NtaCreate(created)];
        if context.None? {
          log := log + [MsgDestroy];
        } else {
          selfHold := true;
        }
      } else if m.Cancel? {
        Cancel();
      }
      if Inv(s0) {
        SendKeepsInv(s0, m, created);
      }
    }

    /** The engine's callback; `reenter` is what the Agent does to this transaction
        while it handles the dispatched response. */
    method Callback(sip: Option<Response>, reenter: Reentry)
      modifies this
      ensures State() == CallbackStep(old(State()), sip, reenter)
      ensures old(Valid()) ==> Valid()
    {
      ghost var s0 := State();
      if sip.Some? {
        log := log + [SendResponseEvent(sip.value)];
        match reenter {
          case Quiet =>
          case AgentDestroys => Destroy();
          case AgentCancels => Cancel();
        }
        if sip.value.status.Some? && sip.value.status.value >= 200 {
          Destroy();
        }
      } else {
        Destroy();
      }
      if Inv(s0) {
        CallbackKeepsInv(s0, sip, reenter);
      }
    }

    method Destroy()
      modifies this
      ensures State() == Terminate(old(State()))
      ensures old(Valid()) ==> Valid()
    {
      ghost var s0 := State();
      if selfHold {
        selfHold := false;
        log := log + [NtaUnbind(context), NtaDestroy(context)];
        crossLink := false;
        context := None;
      }
      if Inv(s0) {
        TerminateKeepsInv(s0);
      }
    }

    /** Pairs the transaction with a server transaction (done by code outside this
        class; destroy is what releases the link). */
    method Link()
      modifies this
      ensures State() == old(State()).(crossLink := true)
      ensures old(Valid()) ==> Valid()
    {
      crossLink := true;
    }
  }
}
