/** What the executor and `ResponseObserver` guarantee together. */
module Protocol {
  import opened Optional
  import opened DataStates
  import opened Responses
  import opened Classification
  import opened RequestTraces
  import opened Observers

  /** Every envelope the executor builds reaches exactly one handler, fixed by the outcome alone. */
  lemma SettledEnvelopeReachesOneHandler<T>(block: Outcome<Envelope<T>>)
    ensures Dispatch(Settle(block)) != NoHandler
    ensures block.Threw? ==> Dispatch(Settle(block)) == OnException(Some(block.e))
    ensures block.Returned? && block.value.code != ERROR_CODE_SUCCESS ==>
      Dispatch(Settle(block)) == OnFailure(block.value.message, block.value.code)
    ensures block.Returned? && block.value.code == ERROR_CODE_SUCCESS ==>
      Dispatch(Settle(block)) == OnSuccess(block.value.data)
  {
  }

  /** Over any sequence of requests, every envelope on the response channel reaches exactly one handler. */
  lemma {:induction false} EveryPostedEnvelopeIsHandled<T>(calls: seq<Call<T>>)
    ensures forall i :: 0 <= i < |ResponseChannel(Trace(calls))| ==> Dispatch(ResponseChannel(Trace(calls))[i]) != NoHandler
  {
    OneResponsePerCall(calls);
    forall i | 0 <= i < |ResponseChannel(Trace(calls))|
      ensures Dispatch(ResponseChannel(Trace(calls))[i]) != NoHandler
    {
      SettledEnvelopeReachesOneHandler(calls[i].block);
    }
  }

  /**
   * Three concrete requests: an empty list with code 0, a refusal with code
   * 403, and a timeout.
   */
  lemma Scenarios(timeout: Throwable)
    ensures var e: Envelope<string> := Settle(Returned(Envelope(0, None, Some(ListOf([])), None, None)));
      e.dataState == Some(StateEmpty) && Dispatch(e) == OnSuccess(Some(ListOf([])))
    ensures var e: Envelope<string> := Settle(Returned(Envelope(403, Some("forbidden"), None, None, None)));
      e.dataState == Some(StateFailed) && Dispatch(e) == OnFailure(Some("forbidden"), 403)
    ensures var e: Envelope<string> := Settle(Threw(timeout));
      e.dataState == Some(StateError) && Dispatch(e) == OnException(Some(timeout))
  {
  }
}
