/**
 * How `executeRequest` turns what its block produced into the envelope it
 * posts, as functions of the block's outcome.
 */
module Classification {
  import opened Optional
  import opened DataStates
  import opened Responses

  /** `isEmptyData`: a null payload, or a `List` with no elements. */
  predicate IsEmptyData<T>(data: Option<Payload<T>>)
    ensures IsEmptyData(data) <==> data == None || data == Some(ListOf([]))
  {
    data.None? || (data.value.ListOf? && |data.value.items| == 0)
  }

  /** The state a returned envelope is given: FAILED on any code but 0, else EMPTY or SUCCESS. */
  function Classify<T>(code: Int32, data: Option<Payload<T>>): (s: DataState)
    ensures s == StateFailed <==> code != ERROR_CODE_SUCCESS
    ensures s == StateEmpty <==> code == ERROR_CODE_SUCCESS && IsEmptyData(data)
    ensures s == StateSuccess <==> code == ERROR_CODE_SUCCESS && !IsEmptyData(data)
  {
    if code == ERROR_CODE_SUCCESS then
      if IsEmptyData(data) then StateEmpty else StateSuccess
    else
      StateFailed
  }

  /** What the request's block did: returned a value, or threw an `Exception`. */
  datatype Outcome<R> = Returned(value: R) | Threw(e: Throwable)

  /** The envelope `executeRequest` posts, given what its block did. */
  function Settle<T>(block: Outcome<Envelope<T>>): (e: Envelope<T>)
    ensures e.dataState.Some? && IsResultState(e.dataState.value)
    ensures e.dataState == Some(StateError) <==> block.Threw?
    ensures block.Threw? ==>
      e.code == ERROR_CODE_SUCCESS && e.message == None && e.data == None && e.exception == Some(block.e)
    ensures block.Returned? ==>
      e.code == block.value.code && e.message == block.value.message &&
      e.data == block.value.data && e.exception == block.value.exception &&
      e.dataState == Some(Classify(block.value.code, block.value.data))
  {
    match block
    case Returned(r) => r.(dataState := Some(Classify(r.code, r.data)))
    case Threw(x) => DefaultEnvelope().(dataState := Some(StateError), exception := Some(x))
  }

  /** A code-0 payload that is not a `List` counts as data, whatever its value. */
  lemma NonListPayloadIsNeverEmpty<T>(v: T)
    ensures !IsEmptyData(Some(NonList(v)))
    ensures Classify(ERROR_CODE_SUCCESS, Some(NonList(v))) == StateSuccess
  {
  }

  /**
   * The `success` getter of a posted envelope: for a returned one it agrees
   * with the state (true for SUCCESS and EMPTY, false for FAILED); an ERROR
   * envelope keeps the default code 0, so its getter reads true.
   */
  lemma SuccessOfSettledEnvelope<T>(r: BaseResponse<T>, block: Outcome<Envelope<T>>)
    requires r.Value() == Settle(block)
    ensures block.Returned? ==>
      (r.Success() <==> r.dataState == Some(StateSuccess) || r.dataState == Some(StateEmpty))
    ensures block.Threw? ==> r.Success() && r.dataState == Some(StateError)
  {
  }

  /** The state depends on the outcome only through the thrown flag, the code and the payload's emptiness. */
  lemma SettleDependsOnCodeAndEmptiness<T>(a: Outcome<Envelope<T>>, b: Outcome<Envelope<T>>)
    requires a.Threw? == b.Threw?
    requires a.Returned? ==>
      (b.Returned? && a.value.code == b.value.code && IsEmptyData(a.value.data) == IsEmptyData(b.value.data))
    ensures Settle(a).dataState == Settle(b).dataState
  {
  }
}
