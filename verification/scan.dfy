/** The `scan` operator's two classes: the reusable operator that holds the accumulator and
    the optional seed, and the per-subscription subscriber that keeps the running state and
    forwards one notification downstream for every value it receives. */
module Scan {
  import opened Fold

  /** The downstream subscriber a `ScanSubscriber` forwards to. Only what it has been handed
      is modelled: the notifications, in the order they arrived. */
  class Consumer<V, E> {
    var received: seq<Notification<V, E>>

    constructor ()
      ensures received == []
    {
      received := [];
    }

    method Next(v: V)
      modifies this
      ensures received == old(received) + [OnNext(v)]
    {
      received := received + [OnNext(v)];
    }

    method Error(e: E)
      modifies this
      ensures received == old(received) + [OnError(e)]
    {
      received := received + [OnError(e)];
    }
  }

  /** The operator: a factory that never changes after construction. */
  class ScanOperator<V, E> {
    const accumulator: (V, V) -> Try<V, E>
    const seed: Option<V>

    constructor (accumulator: (V, V) -> Try<V, E>, seed: Option<V>)
      ensures this.accumulator == accumulator && this.seed == seed
    {
      this.accumulator := accumulator;
      this.seed := seed;
    }

    /** Attaches a fresh subscriber to `subscriber`: every call yields a new object in the
        operator's initial state, so no two subscriptions share state. */
    method Call(subscriber: Consumer<V, E>) returns (s: ScanSubscriber<V, E>)
      ensures fresh(s)
      ensures s.Valid() && s.State() == Initial(seed)
      ensures s.destination == subscriber && s.accumulator == accumulator
    {
      s := new ScanSubscriber(subscriber, accumulator, seed);
    }
  }

  /** One subscription's fold. `storedSeed` is the private `_seed`, absent until a seed is
      supplied or the first value arrives; `accumulatorSet` records whether the fold has started. */
  class ScanSubscriber<V, E> {
    const destination: Consumer<V, E>
    const accumulator: (V, V) -> Try<V, E>
    var storedSeed: Option<V>
    var accumulatorSet: bool

    /** The flag says exactly whether there is an accumulated value. */
    ghost predicate Valid()
      reads this
    {
      accumulatorSet <==> storedSeed.Some?
    }

    /** The two fields seen as one tagged fold state. */
    ghost function State(): (st: FoldState<V>)
      reads this
      requires Valid()
      ensures st.Initialized? <==> accumulatorSet
    {
      if accumulatorSet then Initialized(storedSeed.value) else Uninitialized
    }

    /** The `seed` getter: holds a value exactly when the fold has started. */
    function Seed(): (r: Option<V>)
      reads this
      requires Valid()
      ensures r.Some? <==> accumulatorSet
      ensures accumulatorSet ==> State() == Initialized(r.value)
    {
      storedSeed
    }

    /** The `seed` setter: every assignment also marks the fold as started. */
    method SetSeed(value: Option<V>)
      modifies this
      ensures accumulatorSet
      ensures storedSeed == value
    {
      accumulatorSet := true;
      storedSeed := value;
    }

    /** Starts initialized, holding the seed, exactly when a seed was supplied. The setter
        raises the flag even for an absent seed; the constructor then overrides it. */
    constructor (destination: Consumer<V, E>, accumulator: (V, V) -> Try<V, E>, seed: Option<V>)
      ensures Valid()
      ensures accumulatorSet <==> seed.Some?
      ensures State() == Initial(seed)
      ensures this.destination == destination && this.accumulator == accumulator
    {
      this.destination := destination;
      this.accumulator := accumulator;
      accumulatorSet := false;
      storedSeed := None;
      new;
      SetSeed(seed);
      accumulatorSet := seed.Some?;
    }

    /** Receives one upstream value and forwards exactly one notification downstream. */
    method Next(value: V)
      requires Valid()
      modifies this, destination
      ensures Valid()
      // once started, the fold never goes back to uninitialized
      ensures accumulatorSet
      // the first value of an unseeded subscription becomes the state and is forwarded raw;
      // the accumulator is not consulted
      ensures !old(accumulatorSet) ==>
        storedSeed == Some(value) && destination.received == old(destination.received) + [OnNext(value)]
      // a successful accumulator call becomes the state and is forwarded
      ensures old(accumulatorSet) && accumulator(old(storedSeed).value, value).Ok? ==>
        var b := accumulator(old(storedSeed).value, value).value;
        storedSeed == Some(b) && destination.received == old(destination.received) + [OnNext(b)]
      // a failed call forwards its exception as an error and leaves the state alone
      ensures old(accumulatorSet) && accumulator(old(storedSeed).value, value).Thrown? ==>
        storedSeed == old(storedSeed) &&
        destination.received == old(destination.received) + [OnError(accumulator(old(storedSeed).value, value).exception)]
      // the same transition as the fold specification's single step
      ensures (State(), destination.received[|old(destination.received)|]) == Step(accumulator, old(State()), value)
    {
      if !accumulatorSet {
        SetSeed(Some(value));
        destination.Next(value);
      } else {
        var result := accumulator(Seed().value, value);
        match result
        case Thrown(e) =>
          destination.Error(e);
        case Ok(b) =>
          SetSeed(Some(b));
          destination.Next(Seed().value);
      }
    }
  }
}
