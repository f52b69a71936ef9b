/** The operator's behaviours on concrete inputs, with addition as the accumulator. */
module FoldExamples {
  import opened Fold

  function Add(a: int, x: int): Try<int, string>
  {
    Ok(a + x)
  }

  /** Addition that throws when it is handed the value 2. */
  function AddRejectingTwo(a: int, x: int): Try<int, string>
  {
    if x == 2 then Thrown("two") else Ok(a + x)
  }

  /** Seeded with 0, the sums of [1, 2, 3] are emitted as 1, 3, 6. */
  lemma SeededSums()
    ensures Trace(Add, Initial(Some(0)), [1, 2, 3]) == [OnNext(1), OnNext(3), OnNext(6)]
  {
  }

  /** Without a seed, 1 is emitted as it is and the later sums follow: 1, 3, 6. */
  lemma UnseededSums()
    ensures Trace(Add, Initial(None), [1, 2, 3]) == [OnNext(1), OnNext(3), OnNext(6)]
  {
  }

  /** A single value without a seed is emitted unchanged, whatever the accumulator does. */
  lemma SingleUnseeded(acc: (int, int) -> Try<int, string>)
    ensures Trace(acc, Initial(None), [5]) == [OnNext(5)]
  {
  }

  /** No values, no notifications, with or without a seed. */
  lemma EmptyInput(acc: (int, int) -> Try<int, string>, seed: Option<int>)
    ensures Trace(acc, Initial(seed), []) == []
  {
  }

  /** Seeded with 0, an accumulator that throws on its second call over [1, 2, 3] emits 1 and
      then the error. The operator itself would still fold 3 onto the unchanged state 1;
      a consumer honouring the protocol never sees that. */
  lemma FailureOnSecondCall()
    ensures Trace(AddRejectingTwo, Initial(Some(0)), [1, 2, 3]) == [OnNext(1), OnError("two"), OnNext(4)]
    ensures UntilError(Trace(AddRejectingTwo, Initial(Some(0)), [1, 2, 3])) == [OnNext(1), OnError("two")]
  {
  }
}
