# The `scan` operator, modelled in Dafny

`scan(accumulator, seed?)` turns a stream of values into the stream of its running
accumulations. `ScanOperator` is a reusable factory. It holds the accumulator and the optional
seed. Each time a subscription is made, `ScanOperator.call` builds a fresh `ScanSubscriber`.

The `ScanSubscriber` has two fields: the flag `accumulatorSet` and the accumulated value
`_seed`. When a value arrives and the flag is down, the value becomes the state and is forwarded
unchanged. When the flag is up, the accumulator is called under the safe-call wrapper. Its
result becomes the state and is forwarded as `next`. If it throws, the exception is forwarded as
`error` and the state is kept.

The project has four files:

- `fold.dfy` (module `Fold`): the pure specification.
  - `FoldState` is the tagged form of the two fields: `Uninitialized` or `Initialized(acc)`.
  - `Step` is the effect of one value.
  - `Trace` and `After` repeat `Step` over a sequence of values.
  - `RunningFold` and `Scan` are reference definitions of the seeded and unseeded fold.
  - The lemmas connect `Trace` to the reference fold when the accumulator succeeds, and
    describe the run up to the first failure.
- `scan.dfy` (module `Scan`): the classes. `ScanSubscriber` keeps the source's two mutable
  fields, its `seed` getter and setter, its constructor and `Next` (the source's `_next`).
  `Next` is proved to take exactly the transition `Fold.Step` describes. `Consumer` stands for
  the downstream subscriber: it records the notifications it is handed, in order.
- `upstream.dfy` (module `Upstream`): the runtime feeding values to subscribers one at a time.
  - `DeliverAll` proves that a subscriber fed a sequence hands its consumer `Fold.Trace`.
  - `SubscribeTwice` proves that two subscriptions from one operator, fed in alternation, each
    see only the fold of their own input.
- `fold_examples.dfy` (module `FoldExamples`): the operator's behaviours on concrete inputs.

The accumulator is a function value `(V, V) -> Try<V, E>`. `Try` is either `Ok(value)` or
`Thrown(exception)`, and stands in for the result of `tryCatch(accumulator).call(...)` compared
with `errorObject`. The source's `T | R` is one value type `V`. A seed that is `undefined` is
`None`.

The stream protocol delivers nothing after an `error`. The code in `src/operator/scan.ts` does
not enforce this itself: `_next` would fold a later value onto the unchanged state. Stopping
after an error is the job of the `Subscriber` base class, which is not part of this model. The model follows the code. `Fold.Trace` keeps going after an error, and
`Fold.UntilError` gives what a consumer that honours the stream protocol observes. The example
`FoldExamples.FailureOnSecondCall` shows both.

## Model

| member | source | states |
|---|---|---|
| `Fold.Initial` | src/operator/scan.ts:42-47 | a subscription starts initialized exactly when a seed is supplied, holding that seed |
| `Fold.Step` | src/operator/scan.ts:49-62 | one value: afterwards the state is initialized. Uninitialized, the value is forwarded raw. Every `next` carries the new state. An error happens exactly when the accumulator throws; it carries that exception and keeps the state. On success the accumulator's value is forwarded |
| `Fold.Trace` | src/operator/scan.ts:49-62 | every value yields exactly one notification, `next` or `error` |
| `Fold.After` | src/operator/scan.ts:35-38 | once initialized, and after any value, the state is initialized; it never returns to uninitialized |
| `Fold.RunningFold` | src/operator/scan.ts:8-9 | the seeded fold: the first output is `g(seed, x0)`, each later output is `g(previous output, x_i)`, one output per input |
| `Fold.Scan` | src/operator/scan.ts:8-10 | with a seed, the first output is `g(seed, x0)`; without one, it is `x0` itself; each later output is `g(previous output, x_i)` |
| `Fold.ScanIsUnique` | src/operator/scan.ts:8-10 | those properties determine `Scan` completely |
| `Fold.SeededTraceIsRunningFold` | src/operator/scan.ts:53-60 | from an initialized state, an accumulator that never fails makes the operator emit the running fold as `next`s, and the state ends at the last value emitted |
| `Fold.TraceIsScan` | src/operator/scan.ts:49-62 | seeded or not, when the accumulator never fails, the emitted sequence is `Scan` and the final state is its last element |
| `Fold.TraceAt` | src/operator/scan.ts:49-62 | notification i is the one a single `_next` forwards for value i, from the state the earlier values left |
| `Fold.StepAppend` | src/operator/scan.ts:49-62 | one more value appends exactly its one notification and moves the state by one step |
| `Fold.TotalNeverFails` | src/operator/scan.ts:54-55 | an accumulator that never throws yields no error on any run |
| `Fold.ErrorStep` | src/operator/scan.ts:54-56 | a value on which the accumulator throws yields one error, and the next value is folded from the same state |
| `Fold.FailureSplit` | src/operator/scan.ts:54-59 | around the first failure at element k: the fold of the first k elements, one error with the exception, then the rest folded from the unchanged state |
| `Fold.FailureKeepsState` | src/operator/scan.ts:54-56 | the failing element leaves the accumulated state as it was |
| `Fold.FirstFailure` | src/operator/scan.ts:54-56 | the first k+1 notifications are the fold of the first k elements followed by the error. A protocol-honouring consumer sees exactly that. The state is unchanged by the failing element |
| `Scan.ScanOperator.constructor` | src/operator/scan.ts:20-21 | the operator keeps the accumulator and the seed as given |
| `Scan.ScanOperator.Call` | src/operator/scan.ts:23-25 | each call returns a freshly allocated subscriber bound to the given consumer and the operator's accumulator, in the operator's initial state |
| `Scan.ScanSubscriber.Seed` | src/operator/scan.ts:31-33 | the getter holds a value exactly when the fold has started, and that value is the accumulated state |
| `Scan.ScanSubscriber.SetSeed` | src/operator/scan.ts:35-38 | the setter stores the value and always raises the flag |
| `Scan.ScanSubscriber.constructor` | src/operator/scan.ts:42-47 | the flag is raised exactly when a seed was supplied; the setter's raising of it is overridden; the stored state is the seed |
| `Scan.ScanSubscriber.Next` | src/operator/scan.ts:49-62 | appends exactly one notification to the consumer. Uninitialized: stores the value, raises the flag and forwards the value; no accumulator call. Initialized and accumulator returns: stores and forwards its result. Accumulator throws: forwards the exception as an error and keeps the state. The flag stays up. This is `Fold.Step` on the abstract state |
| `Upstream.DeliverAll` | src/operator/scan.ts:49-62 | values delivered one after another make the consumer receive `Fold.Trace` of them and leave the subscriber in `Fold.After` |
| `Upstream.SubscribeTwice` | src/operator/scan.ts:19-25 | two subscriptions from one operator, fed interleaved inputs, each deliver the fold of their own input alone; equal inputs give equal outputs |
| `FoldExamples.SeededSums` | src/operator/scan.ts:8-9 | addition seeded with 0 over [1, 2, 3] emits 1, 3, 6 |
| `FoldExamples.UnseededSums` | src/operator/scan.ts:10 | addition without a seed over [1, 2, 3] emits 1, 3, 6 |
| `FoldExamples.SingleUnseeded` | src/operator/scan.ts:50-52 | a single value without a seed is emitted unchanged, whatever the accumulator |
| `FoldExamples.EmptyInput` | src/operator/scan.ts:49-62 | no values, no notifications |
| `FoldExamples.FailureOnSecondCall` | src/operator/scan.ts:54-56 | seed 0, accumulator throwing on its second call, input [1, 2, 3]: `next(1)`, then the error. The operator alone would fold 3 onto the state 1, but a protocol-honouring consumer sees only `next(1)` and the error |

## Left out

- `scan` itself and `this.lift` (src/operator/scan.ts:15-17): they attach the operator to the
  runtime, whose code is not part of this model. `Upstream` stands in for the runtime's
  sequential delivery.
- The `Subscriber` base class is not part of this model. That covers passing `complete` and
  `error` through, refusing values after an error or completion, and unsubscription. The
  consumer is a list of received notifications. `Fold.UntilError` states the protocol's
  terminality as a view of that list. The model does not claim the operator enforces it.
- The internals of `tryCatch` and `errorObject` are not part of this model. The `Try` result
  replaces them. So does the `this` binding given to the accumulator.
- The accumulator is a pure function value. Side effects inside it, and failures that depend on
  how often it was called rather than on its arguments, are not modelled. The "throws on its
  second call" example uses an accumulator that throws on the second input value instead.
- `T | R` is a single type `V`. An explicitly passed `undefined` seed is the same as an absent
  one (`None`). Other JavaScript `undefined` behaviour is not modelled.
