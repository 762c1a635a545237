/** The `DataState` enum: the phases a request goes through. */
module DataStates {

  datatype DataState =
    | StateInitialize
    | StateLoading
    | StateSuccess
    | StateEmpty
    | StateFailed
    | StateError
    | StateFinish

  /** Kotlin's `DataState.values()`: every constant, in declaration order. */
  const Entries: seq<DataState> :=
    [StateInitialize, StateLoading, StateSuccess, StateEmpty, StateFailed, StateError, StateFinish]

  /** Kotlin's `ordinal`: the position of a constant in the declaration. */
  function Ordinal(s: DataState): (i: nat)
    ensures i < |Entries| && Entries[i] == s
  {
    match s
    case StateInitialize => 0
    case StateLoading => 1
    case StateSuccess => 2
    case StateEmpty => 3
    case StateFailed => 4
    case StateError => 5
    case StateFinish => 6
  }

  /** The enum has exactly seven constants, all distinct, and `Ordinal` numbers them in order. */
  lemma EntriesAreSevenDistinctStates()
    ensures |Entries| == 7
    ensures forall s: DataState :: s in Entries
    ensures forall i :: 0 <= i < |Entries| ==> Ordinal(Entries[i]) == i
    ensures forall i, j :: 0 <= i < j < |Entries| ==> Entries[i] != Entries[j]
  {
    forall s: DataState
      ensures s in Entries
    {
      assert Entries[Ordinal(s)] == s;
    }
  }

  /** The states the request executor can leave on an envelope it posts. */
  predicate IsResultState(s: DataState) {
    s == StateSuccess || s == StateEmpty || s == StateFailed || s == StateError
  }
}
