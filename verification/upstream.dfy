/** The host runtime's side of a subscription: upstream values handed to a subscriber one at a
    time, in order, each delivery finishing before the next begins. These methods connect the
    subscriber's `Next` to the fold specification over whole input sequences. */
module Upstream {
  import opened Fold
  import opened Scan

  /** Delivers `xs` to the subscriber `s`: its consumer receives the fold's trace, and the
      subscriber ends in the state the fold specification reaches. */
  method DeliverAll<V, E>(s: ScanSubscriber<V, E>, xs: seq<V>)
    requires s.Valid()
    modifies s, s.destination
    ensures s.Valid()
    ensures s.destination.received == old(s.destination.received) + Trace(s.accumulator, old(s.State()), xs)
    ensures s.State() == After(s.accumulator, old(s.State()), xs)
  {
    ghost var st0 := s.State();
    var i := 0;
    while i < |xs|
      invariant 0 <= i <= |xs|
      invariant s.Valid()
      invariant s.destination.received == old(s.destination.received) + Trace(s.accumulator, st0, xs[..i])
      invariant s.State() == After(s.accumulator, st0, xs[..i])
    {
      StepAppend(s.accumulator, st0, xs, i);
      s.Next(xs[i]);
      i := i + 1;
    }
    assert xs[..i] == xs;
  }

  /** Two subscriptions made from the same operator and fed values in alternation: each
      consumer receives the fold of its own input alone, as if the other did not exist. */
  method SubscribeTwice<V, E>(op: ScanOperator<V, E>, d1: Consumer<V, E>, d2: Consumer<V, E>, xs: seq<V>, ys: seq<V>)
    requires d1 != d2
    modifies d1, d2
    ensures d1.received == old(d1.received) + Trace(op.accumulator, Initial(op.seed), xs)
    ensures d2.received == old(d2.received) + Trace(op.accumulator, Initial(op.seed), ys)
  {
    var s1 := op.Call(d1);
    var s2 := op.Call(d2);
    ghost var st0 := Initial(op.seed);
    var i := 0;
    while i < |xs| || i < |ys|
      invariant 0 <= i
      invariant s1.Valid() && s2.Valid()
      invariant s1.destination == d1 && s2.destination == d2
      invariant s1.accumulator == op.accumulator && s2.accumulator == op.accumulator
      invariant d1.received == old(d1.received) + Trace(op.accumulator, st0, xs[..Min(i, |xs|)])
      invariant s1.State() == After(op.accumulator, st0, xs[..Min(i, |xs|)])
      invariant d2.received == old(d2.received) + Trace(op.accumulator, st0, ys[..Min(i, |ys|)])
      invariant s2.State() == After(op.accumulator, st0, ys[..Min(i, |ys|)])
      decreases |xs| + |ys| - i
    {
      if i < |xs| {
        StepAppend(op.accumulator, st0, xs, i);
        s1.Next(xs[i]);
      }
      if i < |ys| {
        StepAppend(op.accumulator, st0, ys, i);
        s2.Next(ys[i]);
      }
      i := i + 1;
    }
    assert xs[..Min(i, |xs|)] == xs && ys[..Min(i, |ys|)] == ys;
  }

  function Min(a: int, b: int): int
  {
    if a < b then a else b
  }
}
