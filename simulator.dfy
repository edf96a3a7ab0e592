/**
 * The simulated request (`request`) and the modal dialog built on it (`modal`).
 *
 * The delay before a request settles is not modelled; what is modelled is the
 * one value the request's promise settles with.  The source calls `reject`
 * and `resolve` one after the other without returning in between; a promise
 * keeps the first of these calls and ignores the rest, and that is what
 * `SettleAll` describes.
 */
module Simulator {
  import opened Options
  import opened ApiErrors
  import opened Throttle

  /** The preset response times, in milliseconds. */
  const NormalResponseMs := 1000
  const ModalResponseMs := 500

  /**
   * The options of one request: the delay, the data sent, the validity check
   * applied to it, the success and failure values, and whether the call is a
   * client-only one that bypasses the gate.
   */
  datatype RequestOptions<!P, S> = RequestOptions(
    waitTime: int,
    post: P,
    checkValid: P -> bool,
    succeeded: S,
    failed: AtsumaruApiError,
    client: bool)

  /**
   * A request with the source's defaults for the delay, the failure value and
   * the gate.  The defaults for the data, the check and the success value
   * (an empty object and JavaScript truthiness) are not modelled: the caller
   * passes them.
   */
  function DefaultRequest<P, S>(post: P, checkValid: P -> bool, succeeded: S): RequestOptions<P, S>
  {
    RequestOptions(NormalResponseMs, post, checkValid, succeeded, BadRequestError, false)
  }

  /** A call of `resolve` or `reject`, and also the value a settled promise holds. */
  datatype Settlement<S> = Resolved(value: S) | Rejected(reason: AtsumaruApiError)

  /** The promise after one more `resolve`/`reject` call: a settled promise ignores it. */
  function Settle<S>(state: Option<Settlement<S>>, call: Settlement<S>): Option<Settlement<S>>
  {
    if state.Some? then state else Some(call)
  }

  /** The promise after a sequence of `resolve`/`reject` calls, starting from `state` (`None` is pending). */
  function SettleAll<S>(state: Option<Settlement<S>>, calls: seq<Settlement<S>>): (r: Option<Settlement<S>>)
    ensures state.Some? || calls != [] <==> r.Some?
    ensures r.Some? ==> r == state || r.value in calls
    decreases |calls|
  {
    if calls == [] then state else SettleAll(Settle(state, calls[0]), calls[1..])
  }

  /** Further calls leave a settled promise as it is. */
  lemma {:induction false} SettledStaysSettled<S>(state: Option<Settlement<S>>, calls: seq<Settlement<S>>)
    requires state.Some?
    ensures SettleAll(state, calls) == state
    decreases |calls|
  {
    if calls != [] {
      SettledStaysSettled(Settle(state, calls[0]), calls[1..]);
    }
  }

  /** A pending promise ends up holding the value of the first call made on it, and nothing is lost. */
  lemma FirstCallWins<S>(calls: seq<Settlement<S>>)
    ensures calls == [] ==> SettleAll(None, calls) == None
    ensures calls != [] ==> SettleAll(None, calls) == Some(calls[0])
  {
    if calls != [] {
      SettledStaysSettled(Some(calls[0]), calls[1..]);
    }
  }

  /**
   * The `resolve`/`reject` calls that the body of `request` makes, in order:
   * reject with the gate's error if the gate was consulted and refused, reject
   * with `failed` if the validity check fails, and resolve with `succeeded`
   * in every case.  `reply` is the gate's reply, `None` when the gate is not
   * consulted (a client-only call).
   */
  function SettleCalls<P, S>(opts: RequestOptions<P, S>, reply: Option<Reply>): (calls: seq<Settlement<S>>)
    requires opts.client <==> reply.None?
    requires reply.Some? ==> reply.value.WellFormed()
    ensures 1 <= |calls| <= 3 && calls[|calls| - 1] == Resolved(opts.succeeded)
    ensures forall i :: 0 <= i < |calls| - 1 ==> calls[i].Rejected?
    ensures reply.Some? && !reply.value.result ==> calls[0] == Rejected(reply.value.error.value)
    ensures !opts.checkValid(opts.post) ==> |calls| >= 2 && calls[|calls| - 2] == Rejected(opts.failed)
    ensures |calls| == 1 <==> (reply.None? || reply.value.result) && opts.checkValid(opts.post)
  {
    var gate := if !opts.client && !reply.value.result then [Rejected(reply.value.error.value)] else [];
    var check := if !opts.checkValid(opts.post) then [Rejected(opts.failed)] else [];
    gate + check + [Resolved(opts.succeeded)]
  }

  /**
   * The value a request settles with, given the gate's reply (`None` when the
   * gate is not consulted).  The gate's rejection comes first, then a failed
   * validity check, and only a request that passes both succeeds.
   */
  function RequestOutcome<P, S>(opts: RequestOptions<P, S>, reply: Option<Reply>): (s: Settlement<S>)
    requires opts.client <==> reply.None?
    requires reply.Some? ==> reply.value.WellFormed()
    ensures reply.Some? && !reply.value.result ==> s == Rejected(reply.value.error.value)
    ensures (reply.None? || reply.value.result) && !opts.checkValid(opts.post) ==> s == Rejected(opts.failed)
    ensures (reply.None? || reply.value.result) && opts.checkValid(opts.post) ==> s == Resolved(opts.succeeded)
    ensures s.Resolved? <==> (reply.None? || reply.value.result) && opts.checkValid(opts.post)
  {
    var calls := SettleCalls(opts, reply);
    FirstCallWins(calls);
    SettleAll(None, calls).value
  }

  /** A request whose gate refuses always settles with the one limit error. */
  lemma GateRejectionIsLimitExceeded<P, S>(opts: RequestOptions<P, S>, c: GateConfig, g: GateState, now: int)
    requires !opts.client && !Step(c, g, now).reply.result
    ensures RequestOutcome(opts, Some(Step(c, g, now).reply)) == Rejected(LimitExceeded)
  {
  }

  /**
   * One request against the gate at time `now`.  A client-only request leaves
   * the gate alone; any other calls the gate exactly once.
   */
  method Request<P, S>(gate: Gate, opts: RequestOptions<P, S>, now: int) returns (s: Settlement<S>)
    modifies gate
    ensures opts.client ==> gate.State() == old(gate.State()) && s == RequestOutcome(opts, None)
    ensures !opts.client ==>
      var t := Step(gate.Config(), old(gate.State()), now);
      gate.State() == t.next && s == RequestOutcome(opts, Some(t.reply))
    ensures old(gate.Valid()) ==> gate.Valid()
  {
    var reply: Option<Reply> := None;
    if !opts.client {
      var r, logged := gate.Evaluate(now);
      reply := Some(r);
    }
    s := RequestOutcome(opts, reply);
  }

  /** The options of a modal dialog: the message (`None` when undefined), its decoration, its check. */
  datatype ModalOptions = ModalOptions(message: Option<string>, decorate: string -> string, checkValid: string -> bool)

  /** JavaScript truthiness of a message: defined and non-empty. */
  predicate Truthy(message: Option<string>)
  {
    message.Some? && message.value != ""
  }

  /** A modal with the source's default decoration (none) and default check (truthiness). */
  function DefaultModal(message: Option<string>): ModalOptions
  {
    ModalOptions(message, s => s, s => Truthy(Some(s)))
  }

  /** The success value of a modal's request: the message and its decorated form. */
  datatype Decorated = Decorated(src: string, deco: string)

  /** The request a modal makes for a (truthy) message: modal delay, gate on, default failure. */
  function ModalRequest(message: string, opts: ModalOptions): RequestOptions<string, Decorated>
  {
    DefaultRequest(message, opts.checkValid, Decorated(message, opts.decorate(message))).(waitTime := ModalResponseMs)
  }

  const MessageUndefined := "message is undefined"

  /**
   * How a modal ends: thrown before any request for a missing message, failed
   * with the request's error, or shown (the decorated text goes to the alert).
   */
  datatype ModalResult = Thrown(error: string) | Failed(reason: AtsumaruApiError) | Shown(src: string, deco: string)

  /**
   * The outcome of a modal given the gate's reply, which exists exactly when
   * the message is truthy (otherwise no request is made).
   */
  function ModalOutcome(opts: ModalOptions, reply: Option<Reply>): (m: ModalResult)
    requires Truthy(opts.message) <==> reply.Some?
    requires reply.Some? ==> reply.value.WellFormed()
    ensures !Truthy(opts.message) ==> m == Thrown(MessageUndefined)
    ensures reply.Some? && !reply.value.result ==> m == Failed(reply.value.error.value)
    ensures reply.Some? && reply.value.result && !opts.checkValid(opts.message.value) ==> m == Failed(BadRequestError)
    ensures reply.Some? && reply.value.result && opts.checkValid(opts.message.value) ==>
      m == Shown(opts.message.value, opts.decorate(opts.message.value))
  {
    if !Truthy(opts.message) then Thrown(MessageUndefined)
    else
      match RequestOutcome(ModalRequest(opts.message.value, opts), reply)
      case Rejected(e) => Failed(e)
      case Resolved(d) => Shown(d.src, d.deco)
  }

  /** With the default options, a truthy message that the gate lets through is shown as it is. */
  lemma DefaultModalShowsMessage(message: string)
    requires message != ""
    ensures ModalOutcome(DefaultModal(Some(message)), Some(Allowed)) == Shown(message, message)
  {
  }

  /**
   * One modal dialog against the gate at time `now`.  A missing message fails
   * before the gate is touched; otherwise the gate is called exactly once.
   */
  method Modal(gate: Gate, opts: ModalOptions, now: int) returns (m: ModalResult)
    modifies gate
    ensures !Truthy(opts.message) ==> m == Thrown(MessageUndefined) && gate.State() == old(gate.State())
    ensures Truthy(opts.message) ==>
      var t := Step(gate.Config(), old(gate.State()), now);
      gate.State() == t.next && m == ModalOutcome(opts, Some(t.reply))
    ensures old(gate.Valid()) ==> gate.Valid()
  {
    if !Truthy(opts.message) {
      return Thrown(MessageUndefined);
    }
    var message := opts.message.value;
    var s := Request(gate, ModalRequest(message, opts), now);
    m := match s
      case Rejected(e) => Failed(e)
      case Resolved(d) => Shown(d.src, d.deco);
  }
}
