# golike-defer, modelled in Dafny

`golike-defer` wraps a unit of work so that the work can register deferred
cleanup actions while it runs. The wrapper `makeDefer(onSuccess, onFailure)`
runs the work once. Its first argument is a registration callback and the
caller's own arguments follow. The wrapper then classifies the outcome:

- a returned value is a success;
- a throw is a failure, caught by `tryCatch` into the shared `errorWrapper` sentinel;
- a returned thenable is a pending outcome, a success if it fulfils and a failure if it rejects.

When the flag for that kind is set, the wrapper drains the per-call stack of
deferreds from last to first. On the asynchronous path it awaits each
deferred's result before running the next. It then forwards the work's own
outcome. `defer` sets both flags, `onFailure` only the failure flag and
`onSuccess` only the success flag. Each goes through `toDecorator`, so it can
wrap a bare function or the `value` of a method's property descriptor.

The project has one module per component of `src/index.js`:

- `values.dfy`, module `JsValues`: JavaScript values, loose nullishness, `typeof … === 'function'`, property reads and `isPromise`.
- `decorator.dfy`, module `Decorators`: `toDecorator`.
- `sentinel.dfy`, module `ErrorSentinel`: the shared `errorWrapper` object, a class with a mutable `error` field, plus `tryCatch` and `forwardResult`.
- `deferreds.dfy`, module `Deferreds`: deferred actions and the reference drain `Drain`, with lemmas that pin down its order and where it stops.
  - It also holds the `Registrar` class: the per-call `deferreds` stack (a `seq` field), the registration callback, and the two drain loops.
  - The loops are the synchronous `while (i > 0) deferreds[--i]()` and the awaited `loop` inside `executeAndForward`. Each is proved equal to `Drain`.
- `defer.dfy`, module `GolikeDefer`: the closure returned by `makeDefer` and the exported variants, with lemmas on classification, ordering and forwarding.
  - `Semantics` is the reference semantics of one call as written. `Call` is the closure body, and `Invoke` runs it with the one shared sentinel. `Invoke` is proved equal to `Semantics`, and so is `Call` when its two sentinels are the same object; with two distinct sentinels, `Call` is proved equal to `IntendedSemantics`.
  - `IntendedSemantics` and `InvokeIntended` are the corrected wrapper, with a sentinel per call (see "## Findings").
- `scenarios.dfy`, module `DeferScenarios`: the situations exercised by `src/index.spec.js`, as instances of the semantics.

Model choices:

- Deferred actions are abstract ids. Running one makes its id appear in the `ran` trace.
  - A deferred's call completes, throws, or returns a pending outcome that rejects.
  - The work is a function from the receiver and the argument list to a `Script`.
  - A script lists the deferreds the work registers while it runs and how its call ends.
  - For a thenable result, it also lists the deferreds registered before the thenable settles, and how it settles.
- A deferred may itself call a wrapped function. The model records only what that nested call leaves in the shared `errorWrapper.error`: nothing, `null` or some error.
- Time, the microtask queue and the work's own side effects are not modelled. The receiver is an opaque parameter.

The tests at src/index.spec.js:81-115 expect error isolation that
`src/index.js` does not provide; the model follows `src/index.js`:

- `src/index.js` has no error sink and no error isolation: no deferred call is wrapped in `try`.
  - On the synchronous path, a deferred that throws escapes the wrapper. The deferreds registered before it never run, and `forwardResult` is never reached.
  - On the asynchronous path, a deferred that throws or whose result rejects rejects the returned chain. The remaining deferreds are skipped.
  - `EscapingDeferredReplacesOutcome`, `ThrowingDeferredsEscape` and `RejectingDeferredRejectsChain` state this.
- The tests at src/index.spec.js:81-115 call `defer.onError`, which `src/index.js` never defines.
- Registration takes a single function. There are no per-record success/failure tags, and there is no `(receiver, 'method', ...args)` form. Only the wrapper-level flags select what runs.

## Model

| member | source | states |
|---|---|---|
| `JsValues.IsPromise` | src/index.js:3 | a value is pending exactly when it is an object or function whose own `then` is callable; null, undefined and primitives never are |
| `Decorators.Decorate` | src/index.js:5-14 | with `key === undefined` the result is `wrap(target)`; otherwise a new descriptor with the same keys plus `value`, where `value` is `wrap(descriptor.value)` and every other property is unchanged; a nullish descriptor raises a TypeError |
| `ErrorSentinel.ErrorWrapper.constructor` | src/index.js:18 | the sentinel starts as `{ error: null }` |
| `ErrorSentinel.ErrorWrapper.AsValue` | src/index.js:18 | the sentinel object is never taken for a pending outcome, which is why a throw is never awaited |
| `ErrorSentinel.TryCatch` | src/index.js:27-34 | never throws; returns the work's result untouched and leaves the sentinel alone, or returns the sentinel with `error` set to the caught value |
| `ErrorSentinel.ForwardResult` | src/index.js:19-26 | a result is returned unchanged; the sentinel rethrows the parked error and is reset to `null` first |
| `ErrorSentinel.CatchAndForward` | src/index.js:19-34 | catching then forwarding gives back the call's own ending (same value returned, same error thrown), with the sentinel clean after a throw |
| `Deferreds.Registrar.constructor` | src/index.js:39 | each call starts with an empty stack |
| `Deferreds.Registrar.Register` | src/index.js:41-43 | registration only appends the deferred to the stack; nothing runs |
| `Deferreds.Registrar.RegisterEach` | src/index.js:41-43 | registrations keep their order and duplicates are separate entries |
| `Deferreds.Drain` | src/index.js:49-52 | no more deferreds run than were registered; on a non-empty stack at least one runs; unless the drain ends early, all of them run |
| `Deferreds.Registrar.RunNow` | src/index.js:62-67 | the synchronous loop's trace and escaping error are exactly `Drain(deferreds, false)`: last to first, stopping at the first throw; the shared sentinel ends as the deferreds that ran leave it (`SlotAfterDrain`) |
| `Deferreds.Registrar.ExecuteAndForward` | src/index.js:48-55 | the awaited loop's trace equals `Drain(deferreds, true)`; it settles as the work's own settlement, or rejects with the error of the deferred that threw or rejected; the shared sentinel ends as `SlotAfterDrain` says |
| `Deferreds.DrainStep` | src/index.js:63-65 | one step of the loop: `deferreds[--i]` runs and leaves its mark on the sentinel, then either escapes or the drain continues below `i` |
| `Deferreds.QuietKeepsSlot` | src/index.js:18-31 | deferreds that make no nested wrapped call touching `errorWrapper` leave its error as it was |
| `Deferreds.CleanSplit` | src/index.js:63-66 | a stack runs through without escape exactly when its top does and the rest below it does |
| `Deferreds.DrainPositions` | src/index.js:49-52 | the k-th deferred to run is the k-th from the top; no more run than were registered; all that ran except the lowest returned normally |
| `Deferreds.DrainEscape` | src/index.js:63-66 | the drain ends early exactly when some deferred escapes, with the error of the last one run; otherwise every registered deferred ran |
| `Deferreds.DrainClean` | src/index.js:63-66 | with no escaping deferred, the trace is exactly the reverse of the registration order: each deferred runs once |
| `Deferreds.DrainStopsAt` | src/index.js:49-52 | when deferred j is the most recently registered one that escapes, exactly those from the top down to j run and j's error ends the drain |
| `GolikeDefer.WithCallback` | src/index.js:41-44 | the work receives the registration callback first, then the caller's arguments in order |
| `GolikeDefer.Semantics` | src/index.js:45-69 | with the flag for the outcome's kind unset, the call passes the work's outcome through and runs nothing; a pending outcome stays pending and a synchronous one stays synchronous |
| `GolikeDefer.IntendedSemantics` | src/index.js:45-69 | the corrected wrapper runs exactly the deferreds the code as written runs; it gives a different observation only when the work threw, the failure flag is set and no deferred escaped, and then both throw, the corrected wrapper the work's own error |
| `GolikeDefer.Call` | src/index.js:38-70 | the closure body: when the forwarding sentinel is also the one nested calls use, it behaves as `Semantics` and leaves the sentinel as `SentinelAfter`; with a separate one, as `IntendedSemantics`, with the call's sentinel as `OwnSentinelAfter` and the other as the drain left it |
| `GolikeDefer.Invoke` | src/index.js:38-70 | a call of the wrapped function as written, with the module-level sentinel shared by nested calls, behaves exactly as `Semantics` says and leaves the sentinel as `SentinelAfter` says |
| `GolikeDefer.InvokeIntended` | src/index.js:18-34 | with a sentinel created per call, a call behaves exactly as `IntendedSemantics` says |
| `GolikeDefer.AsWrittenAgreesWhenQuiet` | src/index.js:18-34 | when no deferred makes a nested wrapped call that touches `errorWrapper`, the code as written behaves as intended |
| `GolikeDefer.NestedCallOverwritesError` | src/index.js:22-31 | as written, a nested wrapped call inside a deferred makes the outer call throw `null` or the nested error in place of its own; the corrected wrapper throws its own |
| `GolikeDefer.DeferRunsAllInReverse` | src/index.js:62-72 | for `defer` with no escaping deferred, on a return, a throw, a fulfilment or a rejection, every deferred runs once, last-registered first; the work's own outcome is forwarded by the corrected wrapper, and by the code as written when no deferred touches the sentinel |
| `GolikeDefer.OnSuccessOnlyOnSuccess` | src/index.js:56-62 | the `onSuccess` variant runs nothing and passes a failure through unchanged, and acts as `defer` on a success |
| `GolikeDefer.OnFailureOnlyOnFailure` | src/index.js:56-62 | the `onFailure` variant runs nothing and passes a success through unchanged, and acts as `defer` on a failure |
| `GolikeDefer.RunsOnlyWhenEnabled` | src/index.js:56-62 | if any deferred ran, the flag for the outcome's kind was set and the stack was not empty |
| `GolikeDefer.ForwardsOriginalOutcome` | src/index.js:47-69 | unless a deferred escapes, every variant of the corrected wrapper forwards the work's own returned value, thrown error or settlement, the same as any variant does with nothing registered; as written, the same holds when no deferred touches the sentinel |
| `GolikeDefer.EscapingDeferredReplacesOutcome` | src/index.js:50-66 | an escaping deferred's error replaces the outcome (thrown, or rejecting the chain), and the deferreds registered before it are skipped |
| `GolikeDefer.ThrowIsSettledSynchronously` | src/index.js:45-62 | a throw never takes the asynchronous path; the stack is drained synchronously exactly when `onFailure` is set |
| `GolikeDefer.SentinelCleanAfterForwarding` | src/index.js:62-69 | whatever the sentinel held before, it holds `null` again once a thrown error has been forwarded, both as written and with a per-call sentinel |
| `GolikeDefer.MakeDefer` | src/index.js:38 | `makeDefer(onSuccess, onFailure)(fn)` is a function, never a thenable, that remembers `fn` and both flags |
| `GolikeDefer.Defer` | src/index.js:72 | `defer` wraps with both flags set, directly or through the descriptor's `value` |
| `GolikeDefer.OnFailure` | src/index.js:75 | `onFailure` wraps with only the failure flag set |
| `GolikeDefer.OnSuccess` | src/index.js:76 | `onSuccess` wraps with only the success flag set |
| `DeferScenarios.NormalTermination` | src/index.spec.js:8-22 | returning 4 forwards 4 after running `i /= 2` then `i -= 2`, which returns the counter to 0 |
| `DeferScenarios.ExceptionTermination` | src/index.spec.js:24-43 | throwing 4 rethrows 4 after both deferreds ran, last first, which returns the counter to 0 |
| `DeferScenarios.PromiseResolution` | src/index.spec.js:45-61 | a thenable fulfilling with 4 yields a chain fulfilling with 4 after both deferreds ran, which returns the counter to 0 |
| `DeferScenarios.PromiseRejection` | src/index.spec.js:63-79 | deferreds registered after the thenable was returned still run, last first, returning the counter to 0, and the chain rejects with 4 |
| `DeferScenarios.ThrowingDeferredsEscape` | src/index.spec.js:81-96 | as the code stands, two throwing deferreds make the wrapper throw the later one's error, and the earlier one never runs |
| `DeferScenarios.RejectingDeferredRejectsChain` | src/index.spec.js:98-115 | as the code stands, a rejecting deferred rejects the chain with its error, and the earlier one never runs |
| `DeferScenarios.CallNormalTermination` | src/index.spec.js:8-22 | the first scenario run through `Invoke` itself forwards 4 and runs both deferreds, last first |

## Findings

| source | as written | input that shows it | evidently intended | confidence | as-written member | corrected member |
|---|---|---|---|---|---|---|
| src/index.js:18-34, 62-69 | one module-level `errorWrapper` carries a call's caught error from `tryCatch` to `forwardResult`, and the synchronous drain runs in between; a wrapped call made inside a deferred parks its own error in the same object and resets it to `null` when forwarding | `defer` around a work that registers one deferred and throws `'outer'`; the deferred calls a `defer`-wrapped function whose work throws `'inner'`, and catches that. The outer call throws `null`. When the inner call's own deferred throws before forwarding, the outer call throws `'inner'` | a call rethrows its own work's error, whatever its deferreds do | high; not executed | `GolikeDefer.Invoke`, `GolikeDefer.NestedCallOverwritesError` | `GolikeDefer.InvokeIntended`, `GolikeDefer.ForwardsOriginalOutcome` |

## Left out

- Nested wrapped calls: a deferred that calls a wrapped function is described only by what it leaves in the shared sentinel. The nested call's own deferreds and outcome are part of that deferred's behaviour, and the model does not unfold them.
- `GolikeDefer.SentinelAfter`: a wrapped call nested in the work itself, not in a deferred, can also leave an error in the shared sentinel, when its own deferred escapes before it forwards. The model does not record this, so after a normal return `SentinelAfter` and `Invoke` report the sentinel as the deferreds leave it, starting from its value before the call. No outcome depends on it, since `tryCatch` overwrites the sentinel before `forwardResult` reads it.

- Scheduling: promises, the microtask queue, `setTimeout` and interleaving are not modelled. A pending outcome settles once, as its script says, and the awaited drain is the same last-to-first loop.
- Deferred results: a deferred whose result is a pending outcome that fulfils is modelled as one that completes. A pending outcome that never settles would stall the chain; that case is not modelled.
- Unhandled rejections: on the synchronous path, a deferred's rejecting result is ignored by the loop. The unhandled rejection it causes is not modelled.
- Late registrations: a deferred registered by another deferred during the drain, or after the call has finished, is appended but never run, because `i` starts from the length at drain time. The model has no registrations at those points.
- Non-conforming thenables: one whose `then` calls a handler twice or never is outside the model. `result.then(...)` is taken to behave as a promise's does.
- Receiver and arguments: `this`, `apply` and `arguments` are not modelled as such. The receiver is an opaque value handed to the work, and the arguments are a sequence.
- Error sink: error isolation and the pluggable sink (`defer.onError`) are absent from `src/index.js`, so they are not modelled.
- Registration forms: per-record success/failure tags and bound `(receiver, 'methodName', ...args)` registration are absent from `src/index.js`, so they are not modelled.
- Export properties: `defer.onFailure` and `defer.onSuccess` are also set as properties of the default export. `Value` gives a wrapped function no properties, so the model has only the three named functions.
- Property reads: they see own properties only, with no prototype chain. Spreading treats every property as own and enumerable. A spread primitive contributes nothing, although a string would spread its characters; a decorator runtime never passes a string descriptor.
- The `deferreds &&` guard in the callback is always true, since `deferreds` is an array. The model leaves it out.
- Division: the scenario counter uses integer division. It agrees with JavaScript's `/` on the even values the scenarios divide.
