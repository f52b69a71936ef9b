/** The running fold behind the `scan` operator, as pure functions.

    A subscription's fold state is either not yet initialized or initialized with an
    accumulated value. Each upstream value makes one `Step`, which yields the new state and
    exactly one downstream notification. `Trace` and `After` repeat `Step` over a sequence of
    upstream values. `RunningFold` and `Scan` are the reference definitions of a seeded and an
    unseeded fold with an accumulator that cannot fail; the lemmas at the end connect the two. */
module Fold {

  datatype Option<T> = None | Some(value: T)

  /** The outcome of invoking the accumulator under the safe-call wrapper: the value it
      returned, or the exception it threw. */
  datatype Try<V, E> = Ok(value: V) | Thrown(exception: E)

  /** What the operator forwards to its downstream consumer. */
  datatype Notification<V, E> = OnNext(value: V) | OnError(error: E)

  /** The pair (accumulatorSet, _seed) of one subscription, as a tagged state. */
  datatype FoldState<V> = Uninitialized | Initialized(acc: V)

  /** The state a subscription starts in: initialized exactly when a seed was supplied. */
  function Initial<V>(seed: Option<V>): (st: FoldState<V>)
    ensures st.Initialized? <==> seed.Some?
    ensures st.Initialized? ==> st.acc == seed.value
  {
    match seed
    case Some(s) => Initialized(s)
    case None => Uninitialized
  }

  /** One upstream value `x` arriving in state `st`: the new state and the one notification
      forwarded downstream. */
  function Step<V, E>(acc: (V, V) -> Try<V, E>, st: FoldState<V>, x: V): (r: (FoldState<V>, Notification<V, E>))
    // after any value the subscription is initialized
    ensures r.0.Initialized?
    // the first value of an unseeded subscription is forwarded raw and becomes the state
    ensures st.Uninitialized? ==> r.1 == OnNext(x)
    // whatever is emitted as `next` is exactly the new accumulated value
    ensures r.1.OnNext? ==> r.0 == Initialized(r.1.value)
    // an error carries the accumulator's exception and leaves the state as it was
    ensures r.1.OnError? <==> st.Initialized? && acc(st.acc, x).Thrown?
    ensures r.1.OnError? ==> r.0 == st && r.1.error == acc(st.acc, x).exception
    // on success the emitted value is what the accumulator returned
    ensures st.Initialized? && acc(st.acc, x).Ok? ==> r.1 == OnNext(acc(st.acc, x).value)
  {
    match st
    case Uninitialized => (Initialized(x), OnNext(x))
    case Initialized(a) =>
      match acc(a, x)
      case Thrown(e) => (st, OnError(e))
      case Ok(b) => (Initialized(b), OnNext(b))
  }

  /** The notifications forwarded when the values `xs` arrive one after another in state `st`.
      The operator alone keeps processing values after an error; stopping is the consumer's
      protocol, modelled separately by `UntilError`. */
  function Trace<V, E>(acc: (V, V) -> Try<V, E>, st: FoldState<V>, xs: seq<V>): (r: seq<Notification<V, E>>)
    ensures |r| == |xs|
    decreases |xs|
  {
    if xs == [] then []
    else
      var p := Step(acc, st, xs[0]);
      [p.1] + Trace(acc, p.0, xs[1..])
  }

  /** The state reached after the values `xs` arrive one after another in state `st`. */
  function After<V, E>(acc: (V, V) -> Try<V, E>, st: FoldState<V>, xs: seq<V>): (r: FoldState<V>)
    ensures st.Initialized? || xs != [] ==> r.Initialized?
    decreases |xs|
  {
    if xs == [] then st else After(acc, Step(acc, st, xs[0]).0, xs[1..])
  }

  /** The accumulator never fails while the values `xs` are folded from `st`. */
  predicate NeverFails<V, E>(acc: (V, V) -> Try<V, E>, st: FoldState<V>, xs: seq<V>)
  {
    var t := Trace(acc, st, xs);
    forall i :: 0 <= i < |t| ==> t[i].OnNext?
  }

  /** `acc` is the safe-call view of the total function `g`: whenever it returns, it returns `g`'s value. */
  ghost predicate Agrees<V(!new), E>(acc: (V, V) -> Try<V, E>, g: (V, V) -> V)
  {
    forall a, x :: acc(a, x).Ok? ==> acc(a, x).value == g(a, x)
  }

  /** The seeded running fold `[g(s, x0), g(g(s, x0), x1), ...]`. */
  function RunningFold<V>(g: (V, V) -> V, s: V, xs: seq<V>): (r: seq<V>)
    ensures |r| == |xs|
    ensures xs != [] ==> r[0] == g(s, xs[0])
    ensures forall i {:trigger r[i], xs[i]} :: 0 < i < |xs| ==> r[i] == g(r[i - 1], xs[i])
    decreases |xs|
  {
    if xs == [] then []
    else
      var a := g(s, xs[0]);
      [a] + RunningFold(g, a, xs[1..])
  }

  /** The fold with an optional seed: seeded, every element goes through `g`; unseeded, the
      first element is emitted as it is and seeds the fold of the rest. */
  function Scan<V>(g: (V, V) -> V, seed: Option<V>, xs: seq<V>): (r: seq<V>)
    ensures |r| == |xs|
    ensures xs != [] ==> r[0] == (if seed.Some? then g(seed.value, xs[0]) else xs[0])
    ensures forall i {:trigger r[i], xs[i]} :: 0 < i < |xs| ==> r[i] == g(r[i - 1], xs[i])
  {
    match seed
    case Some(s) => RunningFold(g, s, xs)
    case None => if xs == [] then [] else [xs[0]] + RunningFold(g, xs[0], xs[1..])
  }

  /** The values `vs` forwarded as `next` notifications, in order. */
  function AsNexts<V, E>(vs: seq<V>): (r: seq<Notification<V, E>>)
    ensures |r| == |vs|
    ensures forall i :: 0 <= i < |vs| ==> r[i] == OnNext(vs[i])
  {
    if vs == [] then [] else [OnNext(vs[0])] + AsNexts(vs[1..])
  }

  /** What a consumer that honours the stream protocol observes of the notifications `ns`:
      everything up to and including the first error, and nothing after it. */
  function UntilError<V, E>(ns: seq<Notification<V, E>>): (r: seq<Notification<V, E>>)
    ensures r <= ns
    ensures forall i :: 0 <= i < |r| - 1 ==> r[i].OnNext?
    ensures r == ns || (r != [] && r[|r| - 1].OnError?)
  {
    if ns == [] then []
    else if ns[0].OnError? then [ns[0]]
    else [ns[0]] + UntilError(ns[1..])
  }

  /** Folding `a + b` is folding `a` and then folding `b` from where `a` left off. */
  lemma {:induction false} TraceAppend<V, E>(acc: (V, V) -> Try<V, E>, st: FoldState<V>, a: seq<V>, b: seq<V>)
    ensures Trace(acc, st, a + b) == Trace(acc, st, a) + Trace(acc, After(acc, st, a), b)
    ensures After(acc, st, a + b) == After(acc, After(acc, st, a), b)
    decreases |a|
  {
    if a != [] {
      var p := Step(acc, st, a[0]);
      assert (a + b)[0] == a[0];
      assert (a + b)[1..] == a[1..] + b;
      TraceAppend(acc, p.0, a[1..], b);
    } else {
      assert a + b == b;
    }
  }

  /** With a seed and an accumulator that never fails on the way, the operator emits exactly
      the seeded running fold, and its state is the last value emitted. */
  lemma {:induction false} SeededTraceIsRunningFold<V(!new), E>(acc: (V, V) -> Try<V, E>, g: (V, V) -> V, s: V, xs: seq<V>)
    requires Agrees(acc, g)
    requires NeverFails(acc, Initialized(s), xs)
    ensures Trace(acc, Initialized(s), xs) == AsNexts(RunningFold(g, s, xs))
    ensures After(acc, Initialized(s), xs) == Initialized(if xs == [] then s else RunningFold(g, s, xs)[|xs| - 1])
    decreases |xs|
  {
    if xs != [] {
      var t := Trace(acc, Initialized(s), xs);
      assert t[0].OnNext?;
      var a := g(s, xs[0]);
      assert Step(acc, Initialized(s), xs[0]) == (Initialized(a), OnNext(a));
      var rest := Trace(acc, Initialized(a), xs[1..]);
      assert t == [OnNext(a)] + rest;
      assert forall i :: 0 <= i < |rest| ==> rest[i] == t[i + 1];
      SeededTraceIsRunningFold(acc, g, a, xs[1..]);
    }
  }

  /** With or without a seed, a run on which the accumulator never fails emits `Scan`. */
  lemma {:induction false} TraceIsScan<V(!new), E>(acc: (V, V) -> Try<V, E>, g: (V, V) -> V, seed: Option<V>, xs: seq<V>)
    requires Agrees(acc, g)
    requires NeverFails(acc, Initial(seed), xs)
    ensures Trace(acc, Initial(seed), xs) == AsNexts(Scan(g, seed, xs))
    ensures xs != [] ==> After(acc, Initial(seed), xs) == Initialized(Scan(g, seed, xs)[|xs| - 1])
  {
    match seed
    case Some(s) =>
      SeededTraceIsRunningFold(acc, g, s, xs);
    case None =>
      if xs != [] {
        var t := Trace(acc, Uninitialized, xs);
        var rest := Trace(acc, Initialized(xs[0]), xs[1..]);
        assert t == [OnNext(xs[0])] + rest;
        assert forall i :: 0 <= i < |rest| ==> rest[i] == t[i + 1];
        SeededTraceIsRunningFold(acc, g, xs[0], xs[1..]);
      }
  }

  /** `Scan` is the only sequence with its defining properties: a first element taken from the
      seed or the input, and every later element the accumulator applied to its predecessor. */
  lemma {:induction false} ScanIsUnique<V>(g: (V, V) -> V, seed: Option<V>, xs: seq<V>, r: seq<V>)
    requires |r| == |xs|
    requires xs != [] ==> r[0] == (if seed.Some? then g(seed.value, xs[0]) else xs[0])
    requires forall i {:trigger r[i], xs[i]} :: 0 < i < |xs| ==> r[i] == g(r[i - 1], xs[i])
    ensures r == Scan(g, seed, xs)
  {
    var f := Scan(g, seed, xs);
    var k := 0;
    while k < |xs|
      invariant 0 <= k <= |xs|
      invariant forall i :: 0 <= i < k ==> r[i] == f[i]
    {
      if k > 0 {
        assert r[k] == g(r[k - 1], xs[k]) == g(f[k - 1], xs[k]) == f[k];
      }
      k := k + 1;
    }
  }

  lemma {:induction false} UntilErrorAfterNexts<V, E>(vs: seq<V>, e: E, tail: seq<Notification<V, E>>)
    ensures UntilError(AsNexts<V, E>(vs) + [OnError(e)] + tail) == AsNexts(vs) + [OnError(e)]
    decreases |vs|
  {
    var ns := AsNexts<V, E>(vs) + [OnError(e)] + tail;
    if vs == [] {
      assert ns[0] == OnError(e);
    } else {
      assert ns[0] == OnNext(vs[0]);
      assert ns[1..] == AsNexts<V, E>(vs[1..]) + [OnError(e)] + tail;
      UntilErrorAfterNexts(vs[1..], e, tail);
    }
  }

  /** A value on which the accumulator fails emits one error and leaves the state for the next value. */
  lemma ErrorStep<V, E>(acc: (V, V) -> Try<V, E>, st: FoldState<V>, ys: seq<V>, e: E)
    requires ys != [] && Step(acc, st, ys[0]).1 == OnError(e)
    ensures Trace(acc, st, ys) == [OnError(e)] + Trace(acc, st, ys[1..])
  {
  }

  /** Splitting a run at position `k`. */
  lemma TraceSplitAt<V, E>(acc: (V, V) -> Try<V, E>, st: FoldState<V>, xs: seq<V>, k: nat)
    requires k <= |xs|
    ensures Trace(acc, st, xs) == Trace(acc, st, xs[..k]) + Trace(acc, After(acc, st, xs[..k]), xs[k..])
  {
    assert xs == xs[..k] + xs[k..];
    TraceAppend(acc, st, xs[..k], xs[k..]);
  }

  /** The run of one more value, given the run of the values before it. */
  lemma StepAppend<V, E>(acc: (V, V) -> Try<V, E>, st: FoldState<V>, xs: seq<V>, i: nat)
    requires i < |xs|
    ensures Trace(acc, st, xs[..i + 1]) == Trace(acc, st, xs[..i]) + [Step(acc, After(acc, st, xs[..i]), xs[i]).1]
    ensures After(acc, st, xs[..i + 1]) == Step(acc, After(acc, st, xs[..i]), xs[i]).0
  {
    assert xs[..i + 1] == xs[..i] + [xs[i]];
    TraceAppend(acc, st, xs[..i], [xs[i]]);
  }

  /** Notification `i` is the one `Step` forwards for value `i`, from the state the values
      before it reached. */
  lemma TraceAt<V, E>(acc: (V, V) -> Try<V, E>, st: FoldState<V>, xs: seq<V>, i: nat)
    requires i < |xs|
    ensures Trace(acc, st, xs)[i] == Step(acc, After(acc, st, xs[..i]), xs[i]).1
  {
    TraceSplitAt(acc, st, xs, i);
    assert xs[i..][0] == xs[i];
  }

  /** An accumulator that always returns never fails along any run. */
  lemma TotalNeverFails<V, E>(acc: (V, V) -> Try<V, E>, st: FoldState<V>, xs: seq<V>)
    requires forall a, x :: acc(a, x).Ok?
    ensures NeverFails(acc, st, xs)
  {
    forall i | 0 <= i < |xs|
      ensures Trace(acc, st, xs)[i].OnNext?
    {
      TraceAt(acc, st, xs, i);
    }
  }

  /** The whole run around the first failure at element `k`: the fold of the elements before
      it, one error, and then the rest folded from the unchanged state. */
  lemma FailureSplit<V(!new), E>(acc: (V, V) -> Try<V, E>, g: (V, V) -> V, seed: Option<V>, xs: seq<V>, k: nat, e: E)
    requires Agrees(acc, g)
    requires k < |xs|
    requires NeverFails(acc, Initial(seed), xs[..k])
    requires Step(acc, After(acc, Initial(seed), xs[..k]), xs[k]).1 == OnError(e)
    ensures Trace(acc, Initial(seed), xs)
         == AsNexts(Scan(g, seed, xs[..k])) + [OnError(e)] + Trace(acc, After(acc, Initial(seed), xs[..k]), xs[k + 1..])
  {
    var mid := After(acc, Initial(seed), xs[..k]);
    TraceIsScan(acc, g, seed, xs[..k]);
    TraceSplitAt(acc, Initial(seed), xs, k);
    assert xs[k..][0] == xs[k] && xs[k..][1..] == xs[k + 1..];
    ErrorStep(acc, mid, xs[k..], e);
  }

  /** The element on which the accumulator fails leaves the state as it was. */
  lemma FailureKeepsState<V, E>(acc: (V, V) -> Try<V, E>, st: FoldState<V>, xs: seq<V>, k: nat)
    requires k < |xs|
    requires Step(acc, After(acc, st, xs[..k]), xs[k]).1.OnError?
    ensures After(acc, st, xs[..k + 1]) == After(acc, st, xs[..k])
  {
    assert xs[..k + 1] == xs[..k] + [xs[k]];
    TraceAppend(acc, st, xs[..k], [xs[k]]);
  }

  /** When the accumulator first fails on element `k`, the operator has emitted the fold of
      the first `k` elements and then one error carrying the exception; the state stays what
      it was before element `k`, and a consumer that honours the protocol sees nothing more. */
  lemma FirstFailure<V(!new), E>(acc: (V, V) -> Try<V, E>, g: (V, V) -> V, seed: Option<V>, xs: seq<V>, k: nat, e: E)
    requires Agrees(acc, g)
    requires k < |xs|
    requires NeverFails(acc, Initial(seed), xs[..k])
    requires Step(acc, After(acc, Initial(seed), xs[..k]), xs[k]).1 == OnError(e)
    ensures Trace(acc, Initial(seed), xs)[..k + 1] == AsNexts(Scan(g, seed, xs[..k])) + [OnError(e)]
    ensures UntilError(Trace(acc, Initial(seed), xs)) == AsNexts(Scan(g, seed, xs[..k])) + [OnError(e)]
    ensures After(acc, Initial(seed), xs[..k + 1]) == After(acc, Initial(seed), xs[..k])
  {
    var vs := Scan(g, seed, xs[..k]);
    var rest := Trace(acc, After(acc, Initial(seed), xs[..k]), xs[k + 1..]);
    FailureSplit(acc, g, seed, xs, k, e);
    UntilErrorAfterNexts(vs, e, rest);
    FailureKeepsState(acc, Initial(seed), xs, k);
  }
}
