# synchronize-bdd, modelled in Dafny

synchronize-bdd lets a test suite write its hooks and tests (`it`, `before`, `afterEach`, ...)
in a blocking style: each body runs inside a fiber of the `synchronize` library, while the host
test framework (mocha or jasmine) still sees an ordinary asynchronous body with a `done`
callback. This project models `index.js`, the whole core of the library:

- `values.dfy` (module `JsValues`): JavaScript values as `typeof`, truthiness and `===` see
  them. Objects and closures carry a reference number `id`, so "a new closure" is "a value with
  a reference not handed out before". A function records whether it has a callable `.only` and
  `.skip`, and what its code is: foreign to index.js, a wrapper built by `wrapFn`, or a body
  built by `wrapBody`. The `__syncit === fakeContext` marker is modelled as "built by
  `wrapBody`", since the marker object is private to index.js.
- `wrapping.dfy` (module `Wrapping`): `wrapBody`, `wrapFn` and what calling the wrapper, its
  `.only` and its `.skip` hands to the wrapped function; `wrapDone`, and what running a marked
  body reports to the host's completion callback for each way the fiber can end.
- `sync_it.dfy` (module `SyncIt`): the context selection, `checkContext`, `wrap`, the seven
  per-name exports, and `replace` / `restore`. The module-level state (the ambient context's
  slots, the `savedBlocks` snapshot, and an allocator of new references) is the class
  `SyncIt.ModuleState`. Its methods loop over the block function names as the source does and are
  proved against the specification functions `Sweep` (a replace loop) and `Visible` (the
  visible block functions); the lemmas about `Sweep` carry the round trip and the
  second-replace behaviour.

`replace` is modelled as written. When the snapshot is present, it compares each slot with the
recorded value. After a first `replace`, that slot holds the wrapper, not the original. So a
second `replace` with no change in between records the wrapper and wraps it again. A `restore`
after that puts back the first wrapper, not the original (`SecondReplaceRewraps`), although
the doc comment of `restore` at index.js:92-95 says it restores the original block functions.
That holds after one `replace` (`RestoreUndoesReplace`) but not after two; the model follows
the code.

## Model

| member | source | states |
|---|---|---|
| `SyncIt.FirstDefined` | index.js:4-7 | the context is the first of `root`, `global`, `window` that exists; the fallback object is used only when none exists |
| `SyncIt.ModuleState.constructor` | index.js:3-7 | a context counts as found exactly when one of the three candidates exists; the snapshot starts absent |
| `SyncIt.ModuleState.CollectVisible` | index.js:34-40 | the collected map holds exactly the recognised names whose ambient value is a function, each with that value |
| `SyncIt.WrapEach` | index.js:43-51 | the output holds a wrapper `wrapFn(value)` for every function-valued key of the input and nothing else; non-functions are dropped; every wrapper has its own new reference |
| `SyncIt.ModuleState.Wrap` | index.js:28-59 | no argument: fails with "unable to identify root scope" without a context, else returns a new object wrapping the visible block functions; an object: a new object wrapping its function-valued keys; a function: `wrapFn(f)`; anything else, `null` included: `TypeError("expected an object or function to wrap")`; every new object and wrapper has a reference that occurs nowhere in the input; the context is not changed |
| `SyncIt.ModuleState.WrapNamed` | index.js:185-196 | the explicit value, or without one the ambient slot (after the context check), is wrapped with `wrapFn` when it is a function; otherwise `TypeError("expected a function to wrap")`; the wrapper's reference occurs nowhere in the input or the context |
| `SyncIt.ModuleState.CheckContext` | index.js:175-179 | fails, with "unable to identify root scope", exactly when no context was found |
| `SyncIt.ModuleState.Replace` | index.js:66-90 | fails without a context and changes nothing; otherwise the new slots, snapshot and allocator are those of the replace loop (`Sweep`) for an absent or a present snapshot |
| `SyncIt.SweepEffect` | index.js:70-88 | a replace loop records the value of every slot it touches and puts a new wrapper around that value in the slot, each with its own new reference; it touches a slot exactly when the slot holds a function and, with a snapshot present, one different from the recorded value; all other slots and entries are unchanged |
| `SyncIt.InstallRecordsVisible` | index.js:79-88 | a replace from an absent snapshot records exactly the visible block functions and wraps each of them; no other slot changes |
| `SyncIt.ModuleState.Restore` | index.js:96-105 | fails without a context; otherwise writes every recorded value back into its slot and drops the snapshot, and changes nothing when there is no snapshot |
| `SyncIt.RestoreUndoesReplace` | index.js:99-103 | a restore after a replace from an absent snapshot leaves every slot identical to its value before the replace |
| `SyncIt.SecondReplaceRewraps` | index.js:70-78 | a second replace with no change in between records the first wrappers and wraps them again; a restore then leaves each visible slot holding the first wrapper, not its original |
| `Wrapping.WrapBody` | index.js:153-170 | a non-function passes through unchanged; a marked body is returned as the same reference; any other function becomes a new marked body that runs it |
| `Wrapping.WrapBodyIdempotent` | index.js:157-158 | wrapping a body twice gives the same reference as wrapping it once |
| `Wrapping.WrapFn` | index.js:126-148 | the wrapper is a new function, distinct from its input, with `.only` exactly when the input has it and `.skip` exactly when the input has it |
| `Wrapping.Invoke` | index.js:127-145 | a wrapper always delegates to the function it wraps; a function first argument is treated as the body; the body argument is handed over through `wrapBody`; `.skip` forwards only the name and never a body |
| `Wrapping.WrapDone` | index.js:111-121 | a callback without a callable `.fail` is returned unchanged; one with it gets an adapter that reports to the same callback |
| `Wrapping.Notify` | index.js:113-120 | calling a completion reaches the host callback exactly once: the adapter calls `done.fail(err)` exactly when its first argument is truthy and `done()` with no arguments otherwise; a host callback receives the arguments unchanged |
| `Wrapping.RunBody` | index.js:160-165 | running a marked body enters the user's code once, with the host's receiver, and then calls the host's callback exactly once: `done()` on return, `done.fail(err)` for a truthy error when `.fail` exists, `done()` for a falsy one, and `done(err)` when there is no `.fail` |
| `Wrapping.RegisteredBodyRunsUserCode` | index.js:127-144 | a body registered through a wrapper reaches the wrapped function as a marked body that runs the user's own code; through `.skip` no body reaches it at all |

## Left out

- The fiber runtime (`sync.fiber`, `sync.await`, `sync.defer`) is not part of this model. A body's run is summarised by an `Outcome`. The model assumes the runtime calls its completion callback with no arguments when the body returns, and with the error when it raises.
- The host framework (mocha, jasmine) is not part of this model. That covers invocation order, timeouts, `this.timeout`, and what the host does with a registration. The receiver is an opaque value passed through.
- Exceptions thrown synchronously by a host registration function, or by the host callbacks, are not modelled.
- Detecting `root`, `global` and `window` becomes three booleans given at load time. The slots of the found object are a map given at the same time.
- The `.only` and `.skip` closures that `wrapFn` attaches have no reference of their own in the model. Only the wrapper itself is tracked by reference.
- The throwaway `{}` that `wrap()` fills at index.js:34 gets no reference, because it is never visible outside `wrap`.
- A marker copied onto a foreign function (by reading `body.__syncit` from a wrapped body) is not modelled: only bodies built by `wrapBody` count as marked.
- Objects are maps from their enumerable keys. The order in which `for ... in` visits keys is left open: `WrapEach` picks keys in any order, so its contract pins down wrapper references only by range and distinctness.
- `!==` on functions (index.js:74) is modelled as inequality of values. This takes a reference to determine its value: a function's `.only` and `.skip` never change after it is created. `ModuleState.Valid` keeps every reference below the allocator but does not itself require two values with the same reference to be equal.
- `ModuleState.Wrap` and `ModuleState.WrapNamed` require the argument's references to be below the allocator: every value a caller can hold was allocated before the call.
- Numbers are integers, so `NaN` and other non-integer numbers are not modelled.
- Wrapping.Invoke: requires that the entry point called (`.only` or `.skip`) exists on the wrapper; calling a missing one is a JavaScript runtime `TypeError` outside index.js.
- Wrapping.RunBody: requires `done` to be a callback supplied by the host, not the adapter that `wrapDone` itself builds.
