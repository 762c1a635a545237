/** `BaseRepository.executeRequest` over a loading channel and a response channel. */
module Repositories {
  import opened Optional
  import opened DataStates
  import opened Responses
  import opened LoadingStates
  import opened Classification
  import opened RequestTraces
  import opened Observers

  /** The objects a block's outcome can hand to the executor. */
  function Objects<T>(block: Outcome<BaseResponse<T>>): set<BaseResponse<T>> {
    if block.Returned? then {block.value} else {}
  }

  /** The outcome with the returned object replaced by its current field values. */
  function Observe<T>(block: Outcome<BaseResponse<T>>): Outcome<Envelope<T>>
    reads Objects(block)
  {
    match block
    case Returned(r) => Returned(r.Value())
    case Threw(e) => Threw(e)
  }

  /**
   * The `try`/`catch` of `executeRequest`: a fresh default envelope, replaced
   * by the block's own if it returned one, which is then given its state in
   * place; on a throw the default envelope records ERROR and the exception.
   */
  method SettleResponse<T>(block: Outcome<BaseResponse<T>>) returns (response: BaseResponse<T>)
    modifies Objects(block)
    ensures response.Value() == Settle(old(Observe(block)))
    ensures block.Returned? ==> response == block.value
    ensures block.Threw? ==> fresh(response)
  {
    response := new BaseResponse<T>();
    match block {
      case Returned(r) =>
        response := r;
        if response.code == ERROR_CODE_SUCCESS {
          if IsEmptyData(response.data) {
            response.dataState := Some(StateEmpty);
          } else {
            response.dataState := Some(StateSuccess);
          }
        } else {
          response.dataState := Some(StateFailed);
        }
      case Threw(e) =>
        response.dataState := Some(StateError);
        response.exception := Some(e);
    }
  }

  /** A response channel: the sequence of every value posted to it. */
  class ResponseMutableLiveData<T> {
    var posted: seq<BaseResponse?<T>>

    constructor ()
      ensures posted == []
    {
      posted := [];
    }

    method PostValue(value: BaseResponse?<T>)
      modifies this
      ensures posted == old(posted) + [value]
    {
      posted := posted + [value];
    }
  }

  class BaseRepository<T> {
    /** The loading channel: every `LoadingState` posted, in order. */
    var loadingStates: seq<LoadingState>
    /**
     * Every step this repository took, in order: its loading signals, each run
     * of a block and each envelope it posted, whichever channel received it.
     */
    ghost var steps: seq<Step<T>>

    constructor ()
      ensures steps == [] && loadingStates == []
    {
      loadingStates := [];
      steps := [];
    }

    /** Posts a signal on the loading channel. */
    method PostLoading(signal: LoadingState)
      modifies this
      ensures loadingStates == old(loadingStates) + [signal]
      ensures steps == old(steps) + [LoadingPosted(signal)]
    {
      loadingStates := loadingStates + [signal];
      steps := steps + [LoadingPosted(signal)];
    }

    /**
     * Runs one request: LOADING if asked, the block, the envelope classified
     * and posted once whatever happened, then FINISH if asked. `posted` names
     * the envelope the response channel received.
     */
    method ExecuteRequest(responseLiveData: ResponseMutableLiveData<T>, showLoading: bool := true,
                          loadingMsg: Option<string> := None, nameonly block: Outcome<BaseResponse<T>>)
      returns (ghost posted: BaseResponse<T>)
      modifies this, responseLiveData, Objects(block)
      ensures steps == old(steps) + CallTrace(Call(showLoading, loadingMsg, old(Observe(block))))
      ensures loadingStates == old(loadingStates) + Signals(Call(showLoading, loadingMsg, old(Observe(block))))
      ensures responseLiveData.posted == old(responseLiveData.posted) + [posted]
      ensures posted.Value() == Settle(old(Observe(block)))
      ensures block.Returned? ==> posted == block.value
      ensures block.Threw? ==> fresh(posted)
      ensures OnChanged(posted) != NoHandler
    {
      ghost var c := Call(showLoading, loadingMsg, Observe(block));
      if showLoading {
        PostLoading(LoadingState(loadingMsg, StateLoading));
      }
      steps := steps + [BlockRan];
      var response := SettleResponse(block);
      responseLiveData.PostValue(response);
      steps := steps + [ResponsePosted(response.Value())];
      if showLoading {
        PostLoading(LoadingState(loadingMsg, StateFinish));
      }
      posted := response;
    }
  }

  /** The arguments of one `executeRequest` call as a caller makes it. */
  datatype Request<T> = Request(showLoading: bool, loadingMsg: Option<string>, block: Outcome<BaseResponse<T>>)

  /** The objects the first `n` requests' blocks return. */
  function ReturnedBefore<T>(requests: seq<Request<T>>, n: nat): set<BaseResponse<T>>
    requires n <= |requests|
  {
    set i | 0 <= i < n && requests[i].block.Returned? :: requests[i].block.value
  }

  /** Every object the requests' blocks return. */
  function Blocks<T>(requests: seq<Request<T>>): set<BaseResponse<T>> {
    ReturnedBefore(requests, |requests|)
  }

  lemma ReturnedByOneMore<T>(requests: seq<Request<T>>, n: nat)
    requires n < |requests|
    ensures ReturnedBefore(requests, n + 1) == ReturnedBefore(requests, n) + Objects(requests[n].block)
    ensures ReturnedBefore(requests, n + 1) <= Blocks(requests)
  {
    if requests[n].block.Returned? {
      assert requests[n].block.value in ReturnedBefore(requests, n + 1);
    }
  }

  /** Some block among the first `n` requests returns `o`. */
  ghost predicate ReturnedAmong<T>(requests: seq<Request<T>>, n: nat, o: BaseResponse<T>)
    requires n <= |requests|
  {
    n > 0 && (ReturnedAmong(requests, n - 1, o) || Objects(requests[n - 1].block) == {o})
  }

  lemma {:induction false} ReturnedAmongIsReturnedBefore<T>(requests: seq<Request<T>>, n: nat, o: BaseResponse<T>)
    requires n <= |requests|
    ensures ReturnedAmong(requests, n, o) <==> o in ReturnedBefore(requests, n)
  {
    if n > 0 {
      ReturnedAmongIsReturnedBefore(requests, n - 1, o);
      ReturnedByOneMore(requests, n - 1);
    }
  }

  /** The i-th request's block returns an object no earlier request returned. */
  ghost predicate FirstReturn<T>(requests: seq<Request<T>>, i: nat)
    requires i < |requests|
  {
    requests[i].block.Returned? && !ReturnedAmong(requests, i, requests[i].block.value)
  }

  /** The call logged for a request keeps its arguments and how its block ended. */
  ghost predicate Agrees<T>(c: Call<T>, r: Request<T>) {
    && c.showLoading == r.showLoading
    && c.loadingMsg == r.loadingMsg
    && (r.block.Threw? ==> c.block == Threw(r.block.e))
    && (r.block.Returned? ==> c.block.Returned?)
  }

  /**
   * `calls` logs the first `|calls|` requests and `outs` holds the envelopes
   * they posted: each call keeps its request's arguments and how its block
   * ended, an object returned for the first time is logged as `observed` has
   * it, and a block that returned an object had that very object posted.
   */
  ghost predicate Logged<T>(calls: seq<Call<T>>, outs: seq<BaseResponse<T>>, requests: seq<Request<T>>,
                            observed: seq<Outcome<Envelope<T>>>) {
    && |calls| == |outs| <= |requests| == |observed|
    && forall k {:trigger calls[k]} :: 0 <= k < |calls| ==>
         && Agrees(calls[k], requests[k])
         && (FirstReturn(requests, k) ==> calls[k].block == observed[k])
         && (requests[k].block.Returned? ==> outs[k] == requests[k].block.value)
  }

  lemma LoggedNext<T>(calls: seq<Call<T>>, outs: seq<BaseResponse<T>>, requests: seq<Request<T>>,
                      observed: seq<Outcome<Envelope<T>>>, c: Call<T>, p: BaseResponse<T>)
    requires Logged(calls, outs, requests, observed) && |calls| < |requests|
    requires Agrees(c, requests[|calls|])
    requires FirstReturn(requests, |calls|) ==> c.block == observed[|calls|]
    requires requests[|calls|].block.Returned? ==> p == requests[|calls|].block.value
    ensures Logged(calls + [c], outs + [p], requests, observed)
  {
    var calls', outs' := calls + [c], outs + [p];
    forall k | 0 <= k < |calls'|
      ensures Agrees(calls'[k], requests[k])
      ensures FirstReturn(requests, k) ==> calls'[k].block == observed[k]
      ensures requests[k].block.Returned? ==> outs'[k] == requests[k].block.value
    {
      if k < |calls| {
        assert calls'[k] == calls[k] && outs'[k] == outs[k];
      }
    }
  }

  /**
   * The i-th request of a sequence, made once the first `i` are logged in
   * `calls` and their envelopes posted as `outs`.
   */
  method ExecuteNext<T>(repo: BaseRepository<T>, responseLiveData: ResponseMutableLiveData<T>,
                        requests: seq<Request<T>>, i: nat, ghost observed: seq<Outcome<Envelope<T>>>,
                        ghost calls: seq<Call<T>>, ghost outs: seq<BaseResponse<T>>, ghost base: seq<BaseResponse?<T>>)
    returns (ghost c: Call<T>, ghost posted: BaseResponse<T>)
    requires i == |calls| < |requests|
    requires Logged(calls, outs, requests, observed)
    requires FirstReturn(requests, i) ==> Observe(requests[i].block) == observed[i]
    requires repo.steps == Trace(calls) && repo.loadingStates == LoadingChannel(repo.steps)
    requires responseLiveData.posted == base + outs
    modifies repo, responseLiveData, Objects(requests[i].block)
    ensures Logged(calls + [c], outs + [posted], requests, observed)
    ensures repo.steps == Trace(calls + [c]) && repo.loadingStates == LoadingChannel(repo.steps)
    ensures responseLiveData.posted == base + (outs + [posted])
  {
    var r := requests[i];
    c := Call(r.showLoading, r.loadingMsg, Observe(r.block));
    ghost var steps, loading := repo.steps, repo.loadingStates;
    posted := repo.ExecuteRequest(responseLiveData, r.showLoading, r.loadingMsg, block := r.block);
    LogOfNextCall(calls, steps, loading, c, repo.steps, repo.loadingStates);
    LoggedNext(calls, outs, requests, observed, c, posted);
  }

  /**
   * A caller that makes the requests one after the other on `repo`, all
   * posting to `responseLiveData`; `calls` is what its log records of them.
   * `calls[i]` keeps the i-th request's arguments and how its block ended,
   * and an object returned for the first time is logged with the fields it
   * had before the run. The i-th request's envelope is posted after the
   * values posted before.
   */
  method ExecuteEach<T>(repo: BaseRepository<T>, responseLiveData: ResponseMutableLiveData<T>,
                        requests: seq<Request<T>>)
    returns (ghost calls: seq<Call<T>>)
    requires repo.steps == [] && repo.loadingStates == []
    modifies repo, responseLiveData, Blocks(requests)
    ensures |calls| == |requests|
    ensures forall i {:trigger calls[i]} :: 0 <= i < |requests| ==> Agrees(calls[i], requests[i])
    ensures forall i {:trigger calls[i]} :: 0 <= i < |requests| && FirstReturn(requests, i) ==>
      calls[i].block == Returned(old(requests[i].block.value.Value()))
    ensures repo.steps == Trace(calls)
    ensures repo.loadingStates == LoadingChannel(repo.steps)
    ensures |responseLiveData.posted| == |old(responseLiveData.posted)| + |requests|
    ensures responseLiveData.posted[..|old(responseLiveData.posted)|] == old(responseLiveData.posted)
    ensures forall i :: 0 <= i < |requests| && requests[i].block.Returned? ==>
      responseLiveData.posted[|old(responseLiveData.posted)| + i] == requests[i].block.value
  {
    calls := [];
    ghost var base := responseLiveData.posted;
    ghost var seen: set<BaseResponse<T>> := {};
    ghost var all := Blocks(requests);
    ghost var outs: seq<BaseResponse<T>> := [];
    ghost var observed := seq(|requests|, k requires 0 <= k < |requests| reads Blocks(requests) =>
      Observe(requests[k].block));
    var i := 0;
    while i < |requests|
      invariant 0 <= i <= |requests|
      invariant |calls| == i
      invariant Logged(calls, outs, requests, observed)
      invariant seen == ReturnedBefore(requests, i)
      invariant unchanged(all - seen)
      invariant repo.steps == Trace(calls)
      invariant repo.loadingStates == LoadingChannel(repo.steps)
      invariant responseLiveData.posted == base + outs
    {
      ReturnedByOneMore(requests, i);
      if requests[i].block.Returned? {
        ReturnedAmongIsReturnedBefore(requests, i, requests[i].block.value);
      }
      ghost var c, posted := ExecuteNext(repo, responseLiveData, requests, i, observed, calls, outs, base);
      calls, outs := calls + [c], outs + [posted];
      seen := seen + Objects(requests[i].block);
      i := i + 1;
    }
    forall k | 0 <= k < |requests| && requests[k].block.Returned?
      ensures responseLiveData.posted[|base| + k] == requests[k].block.value
    {
      assert Agrees(calls[k], requests[k]) && responseLiveData.posted[|base| + k] == outs[k];
    }
  }

  /**
   * The requests made in sequence on a new repository. Its log is then the
   * log `Trace` of the calls, so the guarantees proved about `Trace` hold of
   * its channels. `ResponseChannel(repo.steps)` is every envelope the
   * repository posted, whichever response channel each call was given; here
   * they all go to the one channel.
   */
  method RunInSequence<T>(responseLiveData: ResponseMutableLiveData<T>, requests: seq<Request<T>>)
    returns (repo: BaseRepository<T>, ghost calls: seq<Call<T>>)
    modifies responseLiveData, Blocks(requests)
    ensures fresh(repo)
    ensures |calls| == |requests|
    ensures forall i {:trigger calls[i]} :: 0 <= i < |requests| ==> Agrees(calls[i], requests[i])
    ensures forall i {:trigger calls[i]} :: 0 <= i < |requests| && FirstReturn(requests, i) ==>
      calls[i].block == Returned(old(requests[i].block.value.Value()))
    ensures repo.steps == Trace(calls)
    ensures repo.loadingStates == LoadingChannel(repo.steps)
    ensures Paired(repo.loadingStates) && |repo.loadingStates| == 2 * ShowingCount(calls)
    ensures Bracketed(repo.steps)
    ensures |ResponseChannel(repo.steps)| == |requests|
    ensures forall i :: 0 <= i < |requests| ==> ResponseChannel(repo.steps)[i] == Settle(calls[i].block)
    ensures |responseLiveData.posted| == |old(responseLiveData.posted)| + |requests|
    ensures responseLiveData.posted[..|old(responseLiveData.posted)|] == old(responseLiveData.posted)
    ensures forall i :: 0 <= i < |requests| && requests[i].block.Returned? ==>
      responseLiveData.posted[|old(responseLiveData.posted)| + i] == requests[i].block.value
  {
    repo := new BaseRepository<T>();
    label Created:
    calls := ExecuteEach(repo, responseLiveData, requests);
    forall i | 0 <= i < |requests| && FirstReturn(requests, i)
      ensures calls[i].block == Returned(old(requests[i].block.value.Value()))
    {
      assert old@Created(requests[i].block.value.Value()) == old(requests[i].block.value.Value());
    }
    assert old@Created(responseLiveData.posted) == old(responseLiveData.posted);
    LoadingSignalsPaired(calls);
    SignalsBracketTheRequest(calls);
    OneResponsePerCall(calls);
  }
}
