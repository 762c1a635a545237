/** `ResponseObserver.onChanged`: which leaf handler an envelope reaches. */
module Observers {
  import opened Optional
  import opened DataStates
  import opened Responses

  /** The leaf handler one `onChanged` call invokes, with its arguments; `NoHandler` when none. */
  datatype Handler<T> =
    | NoHandler
    | OnSuccess(data: Option<Payload<T>>)
    | OnFailure(errorMsg: Option<string>, errorCode: Int32)
    | OnException(exception: Option<Throwable>)

  /** The `when` over `dataState`: SUCCESS and EMPTY, FAILED and ERROR each reach one handler. */
  function Dispatch<T>(e: Envelope<T>): (h: Handler<T>)
    ensures h.OnSuccess? <==> e.dataState == Some(StateSuccess) || e.dataState == Some(StateEmpty)
    ensures h.OnFailure? <==> e.dataState == Some(StateFailed)
    ensures h.OnException? <==> e.dataState == Some(StateError)
    ensures h.OnSuccess? ==> h.data == e.data
    ensures h.OnFailure? ==> h.errorMsg == e.message && h.errorCode == e.code
    ensures h.OnException? ==> h.exception == e.exception
  {
    match e.dataState
    case Some(StateSuccess) => OnSuccess(e.data)
    case Some(StateEmpty) => OnSuccess(e.data)
    case Some(StateFailed) => OnFailure(e.message, e.code)
    case Some(StateError) => OnException(e.exception)
    case _ => NoHandler
  }

  /** `onChanged`: a null envelope reaches no handler; any other is dispatched on its current fields. */
  function OnChanged<T>(response: BaseResponse?<T>): (h: Handler<T>)
    reads response
    ensures response == null ==> h == NoHandler
    ensures response != null ==> h == Dispatch(response.Value())
  {
    if response == null then NoHandler else Dispatch(response.Value())
  }

  /** A handler runs exactly when the state is one the executor produces. */
  lemma HandlerRunsIffResultState<T>(e: Envelope<T>)
    ensures Dispatch(e) != NoHandler <==> e.dataState.Some? && IsResultState(e.dataState.value)
  {
  }

  /** Which handler runs depends on `dataState` alone. */
  lemma DispatchDependsOnlyOnState<T>(a: Envelope<T>, b: Envelope<T>)
    requires a.dataState == b.dataState
    ensures Dispatch(a).OnSuccess? == Dispatch(b).OnSuccess?
    ensures Dispatch(a).OnFailure? == Dispatch(b).OnFailure?
    ensures Dispatch(a).OnException? == Dispatch(b).OnException?
  {
  }
}
