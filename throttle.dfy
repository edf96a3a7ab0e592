/**
 * The request-throttling gate behind every mocked API call (`send`).
 *
 * The gate keeps four fields (`lastRequest`, `freezingStart`, `isFrozen`,
 * `falseCount`) and reads four configuration values that it never writes
 * (`interval`, `cooldown`, `falseMax`, `severeFalse`).  Timestamps are integer
 * milliseconds; the clock becomes the parameter `now`.
 *
 * `Step` is the specification of one call as a function of the state before
 * the call; `Gate.Evaluate` is the call itself, written the way the source
 * writes it, and is proved to agree with `Step`.
 */
module Throttle {
  import opened Options
  import opened ApiErrors

  /** The configuration the gate reads and never writes. */
  datatype GateConfig = GateConfig(interval: int, cooldown: int, falseMax: int, severeFalse: bool)

  /** The values the plugin ships with. */
  const Defaults := GateConfig(5000, 60000, 3, false)

  /** The mutable part of the gate, as one value. */
  datatype GateState = GateState(lastRequest: int, freezingStart: int, isFrozen: bool, falseCount: int)

  /** The starting state: both timestamps are the epoch, written `new Date(0)` in the source. */
  const Initial := GateState(0, 0, false, 0)

  /** What `send` returns: `{result, error}`, with `None` for `null`. */
  datatype Reply = Reply(result: bool, error: Option<AtsumaruApiError>)
  {
    /** `result` is true exactly when `error` is null. */
    predicate WellFormed() { result <==> error.None? }
  }

  const Allowed := Reply(true, None)
  const Refused := Reply(false, Some(LimitExceeded))

  /**
   * The state after a call, the reply to it, and the remaining freeze time in
   * milliseconds that a rejection logs (`None` when the call is allowed and
   * nothing of the kind is logged).
   */
  datatype Transition = Transition(next: GateState, reply: Reply, logged: Option<int>)

  /** The largest value `falseCount` can reach from 0. */
  function CountBound(c: GateConfig): nat
  {
    if c.falseMax < 0 then 0 else c.falseMax
  }

  /** The invariant every reachable state keeps. */
  predicate Inv(c: GateConfig, g: GateState)
  {
    0 <= g.falseCount <= CountBound(c)
  }

  /** A call that comes sooner than `interval` after the last accepted one, outside a freeze. */
  predicate TooEarly(c: GateConfig, g: GateState, now: int)
  {
    !g.isFrozen && now - g.lastRequest < c.interval
  }

  /** A call during a freeze whose cooldown has not run out. */
  predicate StillFrozen(c: GateConfig, g: GateState, now: int)
  {
    g.isFrozen && now - g.freezingStart < c.cooldown
  }

  /** The condition under which an accepted call forgives earlier too-early calls. */
  predicate ResetDue(c: GateConfig, g: GateState, now: int)
  {
    g.falseCount != 0 && !c.severeFalse && now - g.lastRequest > c.interval
  }

  /**
   * The remaining freeze time that a rejection logs, in milliseconds, computed
   * from the state before the call (so from the old `freezingStart`, even on
   * the call that starts a new freeze).  A remainder that is not positive is
   * replaced by the full cooldown.
   */
  function LeftMs(c: GateConfig, g: GateState, now: int): (left: int)
    ensures c.cooldown > 0 ==> left > 0
    ensures now >= g.freezingStart ==> left <= c.cooldown
  {
    var diff := c.cooldown - (now - g.freezingStart);
    if diff <= 0 then c.cooldown else diff
  }

  /**
   * One call of the gate at time `now`, decided entirely from the state `g`
   * before the call.
   */
  function Step(c: GateConfig, g: GateState, now: int): (t: Transition)
    ensures t.reply.WellFormed()
    ensures !t.reply.result <==> (TooEarly(c, g, now) && g.falseCount >= c.falseMax) || StillFrozen(c, g, now)
    ensures !t.reply.result ==> t.reply.error == Some(LimitExceeded)
    ensures t.reply.result ==> t.next.lastRequest == now && !t.next.isFrozen
    ensures !t.reply.result ==>
      t.next.isFrozen && t.next.lastRequest == g.lastRequest && t.next.falseCount == g.falseCount
    ensures g.isFrozen && !t.next.isFrozen ==> now - g.freezingStart >= c.cooldown
    ensures t.next.freezingStart != g.freezingStart ==> t.next.freezingStart == now && !g.isFrozen && !t.reply.result
    ensures t.reply.result ==> t.next.freezingStart == g.freezingStart
    ensures t.logged.Some? <==> !t.reply.result
    ensures t.logged.Some? ==> t.logged.value == LeftMs(c, g, now)
    ensures Inv(c, g) ==> Inv(c, t.next)
  {
    if TooEarly(c, g, now) && g.falseCount >= c.falseMax then
      Transition(g.(isFrozen := true, freezingStart := now), Refused, Some(LeftMs(c, g, now)))
    else if StillFrozen(c, g, now) then
      Transition(g, Refused, Some(LeftMs(c, g, now)))
    else
      var count :=
        if TooEarly(c, g, now) then g.falseCount + 1
        else if g.isFrozen || ResetDue(c, g, now) then 0
        else g.falseCount;
      Transition(GateState(now, g.freezingStart, false, count), Allowed, None)
  }

  /** A too-early call below the limit is let through with a warning and counted once. */
  lemma WarnButAllow(c: GateConfig, g: GateState, now: int)
    requires TooEarly(c, g, now) && g.falseCount < c.falseMax
    ensures Step(c, g, now) == Transition(g.(lastRequest := now, falseCount := g.falseCount + 1), Allowed, None)
  {
  }

  /** A too-early call at or over the limit starts a freeze and is rejected. */
  lemma FreezeTrigger(c: GateConfig, g: GateState, now: int)
    requires TooEarly(c, g, now) && g.falseCount >= c.falseMax
    ensures Step(c, g, now) == Transition(g.(isFrozen := true, freezingStart := now), Refused, Some(LeftMs(c, g, now)))
  {
  }

  /**
   * The rejection that starts a freeze logs the time left on the OLD freeze,
   * not on the one it starts: measured from the new `freezingStart` the time
   * left would always be the full cooldown, and the logged value is the full
   * cooldown only when the old freeze is over (or started at `now` itself).
   */
  lemma FreezeTriggerLogsOldStart(c: GateConfig, g: GateState, now: int)
    requires TooEarly(c, g, now) && g.falseCount >= c.falseMax && c.cooldown > 0
    ensures Step(c, g, now).logged == Some(LeftMs(c, g, now))
    ensures LeftMs(c, Step(c, g, now).next, now) == c.cooldown
    ensures Step(c, g, now).logged == Some(c.cooldown) <==>
      now - g.freezingStart >= c.cooldown || now == g.freezingStart
  {
  }

  /**
   * From the initial state or long after an earlier freeze, the rejection that
   * starts a freeze logs the full cooldown.
   */
  lemma FreezeTriggerReportsFullCooldown(c: GateConfig, g: GateState, now: int)
    requires TooEarly(c, g, now) && g.falseCount >= c.falseMax
    requires now - g.freezingStart >= c.cooldown
    ensures !Step(c, g, now).reply.result && Step(c, g, now).logged == Some(c.cooldown)
  {
  }

  /**
   * Near the epoch the two readings differ: with the shipped settings, calls at
   * 100, 200 and 5000 ms are let through with warnings, and the call at 5400 ms
   * freezes the gate and logs 54600 ms left, counted from the initial
   * `freezingStart` of 0, although the freeze it starts has the full 60000 ms.
   */
  lemma FreezeNearEpochLogsOldStart()
    ensures var r := Run(Defaults, Initial, [100, 200, 5000]);
      r.replies == [Allowed, Allowed, Allowed] && r.next == GateState(5000, 0, false, 3) &&
      Step(Defaults, r.next, 5400) == Transition(GateState(5000, 5400, true, 3), Refused, Some(54600)) &&
      LeftMs(Defaults, Step(Defaults, r.next, 5400).next, 5400) == 60000
  {
    var s1 := Step(Defaults, Initial, 100);
    assert s1.next == GateState(100, 0, false, 1);
    var s2 := Step(Defaults, s1.next, 200);
    assert s2.next == GateState(200, 0, false, 2);
    var s3 := Step(Defaults, s2.next, 5000);
    assert s3 == Transition(GateState(5000, 0, false, 3), Allowed, None);
    var times := [100, 200, 5000];
    assert Run(Defaults, s2.next, times[2..]) == Trace(s3.next, [Allowed]);
    assert Run(Defaults, s1.next, times[1..]) == Trace(s3.next, [Allowed, Allowed]);
  }

  /** During a freeze, before the cooldown has run out, every call is rejected and nothing changes. */
  lemma FrozenWithinCooldown(c: GateConfig, g: GateState, now: int)
    requires StillFrozen(c, g, now)
    ensures Step(c, g, now) == Transition(g, Refused, Some(LeftMs(c, g, now)))
  {
  }

  /** Within a freeze the logged time left shrinks as `now` grows (strictly) and stays in (0, cooldown]. */
  lemma LeftMsDecreasing(c: GateConfig, g: GateState, now1: int, now2: int)
    requires g.freezingStart <= now1 <= now2 && now2 - g.freezingStart < c.cooldown
    ensures 0 < LeftMs(c, g, now2) <= LeftMs(c, g, now1) <= c.cooldown
    ensures now1 < now2 ==> LeftMs(c, g, now2) < LeftMs(c, g, now1)
    ensures LeftMs(c, g, now1) == c.cooldown - (now1 - g.freezingStart)
  {
  }

  /** Once the cooldown has run out, the next call thaws the gate and is accepted with a clean count. */
  lemma Thaw(c: GateConfig, g: GateState, now: int)
    requires g.isFrozen && now - g.freezingStart >= c.cooldown
    ensures Step(c, g, now) == Transition(g.(isFrozen := false, falseCount := 0, lastRequest := now), Allowed, None)
  {
  }

  /**
   * An on-time call outside a freeze is accepted; it clears the count exactly
   * when the count is non-zero, violations are not sticky and the gap to the
   * previous accepted call is strictly greater than `interval`.
   */
  lemma ResetRule(c: GateConfig, g: GateState, now: int)
    requires !g.isFrozen && now - g.lastRequest >= c.interval
    ensures Step(c, g, now).reply == Allowed && Step(c, g, now).next.lastRequest == now
    ensures Step(c, g, now).next.falseCount == 0 <==> g.falseCount == 0 || ResetDue(c, g, now)
    ensures Step(c, g, now).next ==
      g.(lastRequest := now, falseCount := if ResetDue(c, g, now) then 0 else g.falseCount)
    ensures now - g.lastRequest == c.interval ==> Step(c, g, now).next.falseCount == g.falseCount
    ensures c.severeFalse ==> Step(c, g, now).next.falseCount == g.falseCount
  {
  }

  /**
   * Two calls at the same instant are two calls: when `interval` is positive,
   * the second one is too early and counts as a violation (or freezes).
   */
  lemma RepeatCallIsEarly(c: GateConfig, g: GateState, now: int)
    requires c.interval > 0
    requires Step(c, g, now).reply.result
    ensures TooEarly(c, Step(c, g, now).next, now)
    ensures var g1 := Step(c, g, now).next;
      Step(c, g1, now).next.falseCount == g1.falseCount + 1 || !Step(c, g1, now).reply.result
  {
  }

  /** A run of calls at the given times, in order. */
  datatype Trace = Trace(next: GateState, replies: seq<Reply>)

  /** The state after a sequence of calls, and the reply to each. */
  function Run(c: GateConfig, g: GateState, times: seq<int>): (r: Trace)
    ensures |r.replies| == |times|
    ensures Inv(c, g) ==> Inv(c, r.next)
    decreases |times|
  {
    if times == [] then Trace(g, [])
    else
      var t := Step(c, g, times[0]);
      var rest := Run(c, t.next, times[1..]);
      Trace(rest.next, [t.reply] + rest.replies)
  }

  /** Every call in `times` comes less than `interval` after the one before (the first after `last`). */
  predicate EarlyChain(interval: int, last: int, times: seq<int>)
    decreases |times|
  {
    times == [] || (times[0] - last < interval && EarlyChain(interval, times[0], times[1..]))
  }

  /** Every call in `times` comes at least `interval` after the one before (the first after `last`). */
  predicate SpacedChain(interval: int, last: int, times: seq<int>)
    decreases |times|
  {
    times == [] || (times[0] - last >= interval && SpacedChain(interval, times[0], times[1..]))
  }

  /** As many too-early calls as the count still allows are all let through, each counted once. */
  lemma {:induction false} EarlyBurstWarns(c: GateConfig, g: GateState, times: seq<int>)
    requires !g.isFrozen && EarlyChain(c.interval, g.lastRequest, times)
    requires g.falseCount + |times| <= c.falseMax
    ensures var r := Run(c, g, times);
      (forall i :: 0 <= i < |times| ==> r.replies[i] == Allowed) &&
      !r.next.isFrozen && r.next.falseCount == g.falseCount + |times| &&
      r.next.freezingStart == g.freezingStart &&
      r.next.lastRequest == if times == [] then g.lastRequest else times[|times| - 1]
    decreases |times|
  {
    if times != [] {
      var t := Step(c, g, times[0]);
      WarnButAllow(c, g, times[0]);
      EarlyBurstWarns(c, t.next, times[1..]);
      var rest := Run(c, t.next, times[1..]);
      assert Run(c, g, times).replies == [Allowed] + rest.replies;
    }
  }

  /**
   * Starting from a count within the limit, a run of too-early calls is let
   * through until the count reaches `falseMax`; the next one, the
   * (falseMax - falseCount + 1)-th of the run, is rejected and starts a
   * freeze at its own time.
   */
  lemma {:induction false} EarlyBurstFreezes(c: GateConfig, g: GateState, times: seq<int>)
    requires !g.isFrozen && EarlyChain(c.interval, g.lastRequest, times)
    requires 0 <= g.falseCount <= c.falseMax
    requires |times| == c.falseMax - g.falseCount + 1
    ensures var r := Run(c, g, times);
      (forall i :: 0 <= i < |times| - 1 ==> r.replies[i] == Allowed) &&
      r.replies[|times| - 1] == Refused &&
      r.next.isFrozen && r.next.freezingStart == times[|times| - 1] &&
      r.next.falseCount == c.falseMax
    decreases |times|
  {
    var t := Step(c, g, times[0]);
    if g.falseCount == c.falseMax {
      FreezeTrigger(c, g, times[0]);
      assert times[1..] == [];
    } else {
      WarnButAllow(c, g, times[0]);
      EarlyBurstFreezes(c, t.next, times[1..]);
      var rest := Run(c, t.next, times[1..]);
      assert Run(c, g, times).replies == [Allowed] + rest.replies;
    }
  }

  /** Calls that keep to the interval are all accepted and never count as violations. */
  lemma {:induction false} SpacedCallsAllowed(c: GateConfig, g: GateState, times: seq<int>)
    requires !g.isFrozen && g.falseCount == 0
    requires SpacedChain(c.interval, g.lastRequest, times)
    ensures var r := Run(c, g, times);
      (forall i :: 0 <= i < |times| ==> r.replies[i] == Allowed) &&
      !r.next.isFrozen && r.next.falseCount == 0
    decreases |times|
  {
    if times != [] {
      var t := Step(c, g, times[0]);
      ResetRule(c, g, times[0]);
      SpacedCallsAllowed(c, t.next, times[1..]);
      var rest := Run(c, t.next, times[1..]);
      assert Run(c, g, times).replies == [Allowed] + rest.replies;
    }
  }

  /** Every call before the cooldown has run out is rejected, and the frozen state is left as it was. */
  lemma {:induction false} FrozenRunRejected(c: GateConfig, g: GateState, times: seq<int>)
    requires g.isFrozen
    requires forall i :: 0 <= i < |times| ==> times[i] - g.freezingStart < c.cooldown
    ensures var r := Run(c, g, times);
      (forall i :: 0 <= i < |times| ==> r.replies[i] == Refused) && r.next == g
    decreases |times|
  {
    if times != [] {
      FrozenWithinCooldown(c, g, times[0]);
      assert forall i :: 0 <= i < |times[1..]| ==> times[1..][i] == times[i + 1];
      FrozenRunRejected(c, g, times[1..]);
      var rest := Run(c, g, times[1..]);
      assert Run(c, g, times).replies == [Refused] + rest.replies;
    }
  }

  /**
   * With the shipped settings: one on-time call, three too-early calls let
   * through with warnings, the fourth too-early call rejected and freezing the
   * gate, and a call a full cooldown later accepted with the count cleared.
   */
  lemma DefaultsScenario(t0: int)
    requires t0 >= Defaults.interval
    ensures var r := Run(Defaults, Initial, [t0, t0 + 100, t0 + 200, t0 + 300, t0 + 400, t0 + 60400]);
      r.replies == [Allowed, Allowed, Allowed, Allowed, Refused, Allowed] &&
      r.next == GateState(t0 + 60400, t0 + 400, false, 0)
  {
    var c := Defaults;
    var s1 := Step(c, Initial, t0);
    assert s1 == Transition(GateState(t0, 0, false, 0), Allowed, None);
    var s2 := Step(c, s1.next, t0 + 100);
    assert s2 == Transition(GateState(t0 + 100, 0, false, 1), Allowed, None);
    var s3 := Step(c, s2.next, t0 + 200);
    assert s3 == Transition(GateState(t0 + 200, 0, false, 2), Allowed, None);
    var s4 := Step(c, s3.next, t0 + 300);
    assert s4 == Transition(GateState(t0 + 300, 0, false, 3), Allowed, None);
    var s5 := Step(c, s4.next, t0 + 400);
    assert s5 == Transition(GateState(t0 + 300, t0 + 400, true, 3), Refused, Some(LeftMs(c, s4.next, t0 + 400)));
    var s6 := Step(c, s5.next, t0 + 60400);
    assert s6 == Transition(GateState(t0 + 60400, t0 + 400, false, 0), Allowed, None);
    var times := [t0, t0 + 100, t0 + 200, t0 + 300, t0 + 400, t0 + 60400];
    assert Run(c, s5.next, times[5..]) == Trace(s6.next, [Allowed]);
    assert Run(c, s4.next, times[4..]) == Trace(s6.next, [Refused, Allowed]);
    assert Run(c, s3.next, times[3..]) == Trace(s6.next, [Allowed, Refused, Allowed]);
    assert Run(c, s2.next, times[2..]) == Trace(s6.next, [Allowed, Allowed, Refused, Allowed]);
    assert Run(c, s1.next, times[1..]) == Trace(s6.next, [Allowed, Allowed, Allowed, Refused, Allowed]);
  }

  /** The gate object: configuration fixed at construction, four fields updated by `Evaluate`. */
  class Gate {
    const interval: int
    const cooldown: int
    const falseMax: int
    const severeFalse: bool
    var lastRequest: int
    var freezingStart: int
    var isFrozen: bool
    var falseCount: int

    function Config(): GateConfig
    {
      GateConfig(interval, cooldown, falseMax, severeFalse)
    }

    function State(): GateState
      reads this
    {
      GateState(lastRequest, freezingStart, isFrozen, falseCount)
    }

    ghost predicate Valid()
      reads this
    {
      Inv(Config(), State())
    }

    constructor (config: GateConfig)
      ensures Config() == config && State() == Initial && Valid()
    {
      interval, cooldown, falseMax, severeFalse := config.interval, config.cooldown, config.falseMax, config.severeFalse;
      lastRequest, freezingStart, isFrozen, falseCount := 0, 0, false, 0;
    }

    /**
     * One gated call at time `now`.  Every decision reads the snapshot taken
     * on entry, not the fields as this call rewrites them.
     */
    method Evaluate(now: int) returns (reply: Reply, ghost logged: Option<int>)
      modifies this
      ensures Transition(State(), reply, logged) == Step(Config(), old(State()), now)
      ensures old(Valid()) ==> Valid()
    {
      var wasFrozen, prevRequest, prevFreezingStart, prevFalseCount := isFrozen, lastRequest, freezingStart, falseCount;

      if !wasFrozen && now - prevRequest < interval {
        if prevFalseCount >= falseMax {
          isFrozen := true;
          freezingStart := now;
          logged := Some(LeftMs(Config(), GateState(prevRequest, prevFreezingStart, wasFrozen, prevFalseCount), now));
          return Reply(false, Some(LimitExceeded)), logged;
        }
        falseCount := falseCount + 1;
      }

      if wasFrozen {
        if now - prevFreezingStart < cooldown {
          logged := Some(LeftMs(Config(), GateState(prevRequest, prevFreezingStart, wasFrozen, prevFalseCount), now));
          return Reply(false, Some(LimitExceeded)), logged;
        }
        isFrozen := false;
        falseCount := 0;
      }

      lastRequest := now;

      if prevFalseCount != 0 && !severeFalse && now - prevRequest > interval {
        falseCount := 0;
      }

      return Reply(true, None), None;
    }
  }
}
