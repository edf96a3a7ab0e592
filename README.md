# RAAmen throttle gate: a Dafny model

RAAmen mocks the RPG Atsumaru platform API when no real API is present. Each mocked
API method goes through one rate gate, `send`. A call is let through, let through with a
warning, or rejected with `API_CALL_LIMIT_EXCEEDED`. Calls that come too often freeze the
gate for a cooldown. Two wrappers sit on the gate. `request` settles a simulated request
with the gate's error, a validation failure or a success value. `modal` adds a check for a
missing message and a fixed success payload.

The model has four modules:

- `Options`: `Option`, standing for JavaScript's `null`/`undefined`.
- `ApiErrors`: the error codes, the `AtsumaruApiError` value and the shared error table.
- `Throttle`: the gate itself.
  - `Step` is the specification of one `send` call. It is a pure function of the
    configuration, the state before the call and the timestamp `now`.
  - `Run` strings `Step` together over a sequence of calls.
  - `Gate` is a class. Its four mutable fields are `lastRequest`, `freezingStart`,
    `isFrozen` and `falseCount`. Its four `const` fields are `interval`, `cooldown`,
    `falseMax` and `severeFalse`, so the gate can never write them.
  - `Gate.Evaluate` follows the source statement by statement. It snapshots the fields on
    entry and decides from that snapshot. It is proved to agree with `Step`.
  - The remaining freeze time that a rejection logs is part of the model. `Step` gives it
    as the `logged` field of its result. `Gate.Evaluate` returns it as a ghost
    out-parameter, computed from the snapshot of `freezingStart`.
- `Simulator`: the outcome of `request` and `modal`.
  - `SettleCalls` lists the `reject`/`resolve` calls that the request body makes, in
    order. There is no `return` between them.
  - `SettleAll` models the promise, which keeps the first call and ignores the others.
  - `RequestOutcome` and `ModalOutcome` are the resulting outcomes.
  - The methods `Request` and `Modal` connect these outcomes to a `Gate` object.

Timestamps are integer milliseconds. The epoch (`new Date(0)`) is 0.

Three behaviours of the code are worth stating outright:

- **Which call freezes.** `falseMax` is the number of violations tolerated (the comment
  at dist/RAAmen_core.js:49). The code lets `falseMax` consecutive too-early calls
  through, each with a warning. The next too-early call, the (falseMax+1)-th, freezes.
  See `EarlyBurstFreezes` and `DefaultsScenario`.
- **Two calls at the same instant are two calls.** The second one is too early and
  counts as a violation, or freezes the gate. See `RepeatCallIsEarly`.
- **When the gate rejects and validation fails, the gate's error wins.** The promise
  keeps its first settlement. See `RequestOutcome`.

## Model

| member | source | states |
|---|---|---|
| `ApiErrors.CodeNameInjective` | dist/RAAmen_core.js:61-65 | the five error codes have five distinct `code` strings |
| `ApiErrors.ErrorsTableComplete` | dist/RAAmen_core.js:60-66 | `collections.errors` has exactly one entry per code, under that code's name, with an empty message. The limit and bad-request entries are the shared values the gate and `request` use |
| `Throttle.LeftMs` | dist/RAAmen_core.js:134-136 | the remaining time a rejection logs is positive when the cooldown is, and at most the cooldown when `now` is not before `freezingStart` |
| `Throttle.LeftMsDecreasing` | dist/RAAmen_core.js:134-140 | within a freeze the logged remaining time is `cooldown - (now - freezingStart)`, lies in (0, cooldown] and decreases strictly as `now` grows |
| `Throttle.Step` | dist/RAAmen_core.js:121-179 | `result` is true exactly when `error` is null. A call is rejected exactly when it is too early at or over the limit, or frozen within the cooldown. Every rejection carries the shared limit error and leaves `isFrozen` set and `lastRequest` and `falseCount` unchanged. Every allowed call sets `lastRequest` to `now`, clears the freeze and keeps `freezingStart`. A freeze ends only once `now - freezingStart >= cooldown`. `freezingStart` changes only on a rejection that starts a freeze, and then to `now`. A remaining time is logged exactly on a rejection, and it is `LeftMs` of the state before the call. `0 <= falseCount <= max(0, falseMax)` is preserved |
| `Throttle.WarnButAllow` | dist/RAAmen_core.js:142-154 | a too-early call below the limit is allowed, raises `falseCount` by exactly one, sets `lastRequest` to `now`, and changes nothing else |
| `Throttle.FreezeTrigger` | dist/RAAmen_core.js:142-149 | a too-early call at or over the limit sets `isFrozen` and `freezingStart = now`, is rejected, and leaves `lastRequest` and `falseCount` alone |
| `Throttle.FreezeTriggerLogsOldStart` | dist/RAAmen_core.js:134-149 | the rejection that starts a freeze logs its remaining time from the OLD `freezingStart`. Measured from the new one it would always be the full cooldown. The logged value is the full cooldown exactly when the old freeze is over, or started at `now` |
| `Throttle.FreezeTriggerReportsFullCooldown` | dist/RAAmen_core.js:134-149 | when the old freeze is over (always so from the initial state with real clock values), the rejection that starts a freeze logs the full cooldown |
| `Throttle.FreezeNearEpochLogsOldStart` | dist/RAAmen_core.js:134-149 | with the shipped settings, calls at 100, 200 and 5000 ms are allowed, and the call at 5400 ms freezes the gate and logs 54600 ms, although the new freeze has 60000 ms |
| `Throttle.FrozenWithinCooldown` | dist/RAAmen_core.js:156-162 | while frozen and within the cooldown, the call is rejected, no field changes, and the logged remaining time is `LeftMs` of that state |
| `Throttle.Thaw` | dist/RAAmen_core.js:156-170 | once frozen for at least `cooldown`, the call is allowed. It clears `isFrozen` and `falseCount` and sets `lastRequest` to `now` |
| `Throttle.ResetRule` | dist/RAAmen_core.js:168-173 | an on-time call outside a freeze is allowed. The whole new state is the old one with `lastRequest = now` and the count possibly zeroed. It zeroes the count exactly when the old count is non-zero, `severeFalse` is off and the gap to the old `lastRequest` is strictly greater than `interval`. A gap equal to `interval`, or `severeFalse`, keeps the count |
| `Throttle.RepeatCallIsEarly` | dist/RAAmen_core.js:142-154 | a second call at the same instant as an allowed one is too early (when `interval > 0`). It is counted or it freezes |
| `Throttle.Run` | dist/RAAmen_core.js:121-179 | a sequence of calls gives one reply per call and keeps the `falseCount` bound |
| `Throttle.EarlyBurstWarns` | dist/RAAmen_core.js:142-154 | too-early calls, up to as many as the count still allows, are all allowed. The count rises by their number and `lastRequest` is the last call's time |
| `Throttle.EarlyBurstFreezes` | dist/RAAmen_core.js:142-154 | from `falseCount = k <= falseMax`, a run of consecutive too-early calls is allowed until call number falseMax-k. Call number falseMax-k+1 is rejected and starts a freeze at its own time |
| `Throttle.SpacedCallsAllowed` | dist/RAAmen_core.js:142-178 | from a clean, unfrozen state, calls spaced at least `interval` apart are all allowed, and the count stays 0 |
| `Throttle.FrozenRunRejected` | dist/RAAmen_core.js:156-162 | every call before the freeze's cooldown runs out is rejected, and the state is unchanged after the whole run |
| `Throttle.DefaultsScenario` | dist/RAAmen_core.js:38-52 | with the shipped settings (5000 ms, 60000 ms, 3, not sticky), one on-time call and three too-early ones are allowed. The fourth too-early call freezes. A call one full cooldown after the freeze is allowed with the count cleared |
| `Throttle.Gate.constructor` | dist/RAAmen_core.js:32-58 | the gate starts unfrozen, with both timestamps at the epoch and a zero count, holding the given configuration |
| `Throttle.Gate.Evaluate` | dist/RAAmen_core.js:121-179 | the new fields, the reply and the logged remaining time are exactly `Step` of the fields before the call. Every decision, and the logged time, uses the entry snapshot. The invariant is kept |
| `Simulator.SettleAll` | dist/RAAmen_core.js:195 | folds `Settle` over the calls: a pending promise takes the call, a settled one ignores it. After a sequence of calls the promise is settled exactly when it was settled before or some call was made, and its value is the earlier one or one of the calls |
| `Simulator.SettleCalls` | dist/RAAmen_core.js:197-212 | the request body makes one to three calls. The last is always `resolve(succeeded)` and the ones before it are rejections. The gate's error comes first when the gate refuses, and `failed` comes just before the resolve when the check fails. Only `resolve` is called exactly when both checks pass |
| `Simulator.SettledStaysSettled` | dist/RAAmen_core.js:195-214 | once the promise is settled, later `resolve`/`reject` calls do not change it |
| `Simulator.FirstCallWins` | dist/RAAmen_core.js:203-212 | a pending promise ends up holding the first call's value |
| `Simulator.RequestOutcome` | dist/RAAmen_core.js:181-215 | a gate rejection gives the gate's error, ahead of everything else. Otherwise a failed `checkValid(post)` gives `failed`, and otherwise the result is `succeeded`. It succeeds exactly when the gate (if consulted) allows and the check passes |
| `Simulator.GateRejectionIsLimitExceeded` | dist/RAAmen_core.js:197-205 | a gated request that the gate refuses settles with the shared `API_CALL_LIMIT_EXCEEDED` value |
| `Simulator.Request` | dist/RAAmen_core.js:195-213 | a client-only request leaves the gate untouched. Any other request moves the gate by exactly one `Step` and settles with `RequestOutcome` of that reply |
| `Simulator.ModalOutcome` | dist/RAAmen_core.js:217-235 | `Truthy` is JavaScript's `!message` test on a string or undefined (line 222), and `ModalRequest` builds the options object of lines 223-230. A falsy message throws "message is undefined". Otherwise there are three cases: the gate's error; `BAD_REQUEST` when the check fails; or the message is shown with `src` the message and `deco` its decoration |
| `Simulator.DefaultModalShowsMessage` | dist/RAAmen_core.js:217-230 | with the default decoration and check, a non-empty message that the gate allows is shown unchanged |
| `Simulator.Modal` | dist/RAAmen_core.js:217-235 | with `Truthy` as the `!message` test (line 222) and `ModalRequest` as the options of lines 223-230, a falsy message fails before the gate is touched. Otherwise the gate moves by exactly one `Step`, and the result is `ModalOutcome` of that reply |

## Left out

- Timers and promises: the `setTimeout` delays and the asynchronous scheduling are not modelled. `waitTime` is kept as a field but has no effect. Only the single value each promise settles with is modelled.
- Logging and the alert: `console.error/warn/info` and `alert` are host side effects. The remaining time a rejection logs is modelled as the `logged` part of `Step`. The warning's count of calls left is not modelled. The alerted text is the `deco` of `Shown`.
- Seconds: the logged remaining time is divided by 1000 in floating point. The model keeps it in integer milliseconds.
- The clock: `new Date()` becomes the parameter `now`, and `new Date(0)` becomes 0.
- The mocked API catalog (`window.RPGAtsumaru`): each entry only calls `send`, which is `Gate.Evaluate`.
- Fixture data (`collections.state`), the `isEnable` environment detection and the unused `isServerError` flag carry no logic.
- The `window.RAA` object: it becomes an explicit `Gate` object passed to `Request` and `Modal`.
- Throttle.Gate.constructor: in the source, outside code can rewrite the configuration on `window.RAA`. The model fixes it when the gate is built, because `send` itself never writes it.
- Simulator.DefaultRequest: the defaults `post = {}`, `checkValid = p => !!p` and `succeeded = {}` of `request` are not modelled, because JavaScript truthiness of an arbitrary `post` is not. Callers pass the data, the check and the success value. The modal's default check is modelled, as truthiness of a string.
- Simulator.RequestOutcome: `client` and the result of `checkValid` are booleans here. The source compares them with `=== false`, so a non-boolean `client` also bypasses the gate, and a non-boolean check result also passes. That case is not modelled.
- Simulator.ModalOutcome: the message is a string or undefined. Other falsy JavaScript values (`null`, `0`, `false`) are not distinguished from undefined, and `decorate` returns a string.
