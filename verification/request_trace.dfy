/**
 * The order in which `executeRequest` acts on its two channels, as a log of
 * steps, and the guarantees that hold of any sequence of requests.
 */
module RequestTraces {
  import opened Optional
  import opened DataStates
  import opened Responses
  import opened LoadingStates
  import opened Classification

  /** One observable step: a loading signal posted, the block run, or an envelope posted. */
  datatype Step<T> = LoadingPosted(signal: LoadingState) | BlockRan | ResponsePosted(envelope: Envelope<T>)

  /** The arguments of one `executeRequest` call, with the block's outcome. */
  datatype Call<T> = Call(showLoading: bool, loadingMsg: Option<string>, block: Outcome<Envelope<T>>)

  /** The loading signals one call posts: none, or LOADING and FINISH with its message. */
  function Signals<T>(c: Call<T>): seq<LoadingState> {
    if c.showLoading then
      [LoadingState(c.loadingMsg, StateLoading), LoadingState(c.loadingMsg, StateFinish)]
    else
      []
  }

  /** The steps of one call: LOADING, run the block, post the envelope, FINISH. */
  function CallTrace<T>(c: Call<T>): seq<Step<T>> {
    (if c.showLoading then [LoadingPosted(LoadingState(c.loadingMsg, StateLoading))] else [])
    + [BlockRan, ResponsePosted(Settle(c.block))]
    + (if c.showLoading then [LoadingPosted(LoadingState(c.loadingMsg, StateFinish))] else [])
  }

  /** The steps of calls made one after the other. */
  function Trace<T>(calls: seq<Call<T>>): seq<Step<T>> {
    if calls == [] then [] else Trace(calls[..|calls| - 1]) + CallTrace(calls[|calls| - 1])
  }

  /** What the loading channel receives from a log of steps. */
  function LoadingChannel<T>(steps: seq<Step<T>>): seq<LoadingState> {
    if steps == [] then []
    else
      LoadingChannel(steps[..|steps| - 1]) +
      match steps[|steps| - 1]
      case LoadingPosted(s) => [s]
      case _ => []
  }

  /** What the response channel receives from a log of steps. */
  function ResponseChannel<T>(steps: seq<Step<T>>): seq<Envelope<T>> {
    if steps == [] then []
    else
      ResponseChannel(steps[..|steps| - 1]) +
      match steps[|steps| - 1]
      case ResponsePosted(e) => [e]
      case _ => []
  }

  /** Signals that come in LOADING/FINISH pairs carrying the same message. */
  predicate Paired(signals: seq<LoadingState>) {
    signals == [] ||
    (|signals| >= 2 &&
     signals[|signals| - 2] == LoadingState(signals[|signals| - 1].msg, StateLoading) &&
     signals[|signals| - 1].state == StateFinish &&
     Paired(signals[..|signals| - 2]))
  }

  /** How many of the calls asked for loading signals. */
  function ShowingCount<T>(calls: seq<Call<T>>): nat {
    if calls == [] then 0
    else ShowingCount(calls[..|calls| - 1]) + (if calls[|calls| - 1].showLoading then 1 else 0)
  }

  lemma TraceSnoc<T>(calls: seq<Call<T>>, c: Call<T>)
    ensures Trace(calls + [c]) == Trace(calls) + CallTrace(c)
  {
  }

  lemma {:induction false} LoadingChannelAppend<T>(a: seq<Step<T>>, b: seq<Step<T>>)
    ensures LoadingChannel(a + b) == LoadingChannel(a) + LoadingChannel(b)
    decreases |b|
  {
    if b == [] {
      assert a + b == a;
    } else {
      var b' := b[..|b| - 1];
      assert (a + b)[..|a + b| - 1] == a + b';
      LoadingChannelAppend(a, b');
    }
  }

  lemma {:induction false} ResponseChannelAppend<T>(a: seq<Step<T>>, b: seq<Step<T>>)
    ensures ResponseChannel(a + b) == ResponseChannel(a) + ResponseChannel(b)
    decreases |b|
  {
    if b == [] {
      assert a + b == a;
    } else {
      var b' := b[..|b| - 1];
      assert (a + b)[..|a + b| - 1] == a + b';
      ResponseChannelAppend(a, b');
    }
  }

  /** One call posts its loading signals on one channel and exactly one envelope on the other. */
  lemma CallChannels<T>(c: Call<T>)
    ensures LoadingChannel(CallTrace(c)) == Signals(c)
    ensures ResponseChannel(CallTrace(c)) == [Settle(c.block)]
  {
    var pre: seq<Step<T>> := if c.showLoading then [LoadingPosted(LoadingState(c.loadingMsg, StateLoading))] else [];
    var post: seq<Step<T>> := if c.showLoading then [LoadingPosted(LoadingState(c.loadingMsg, StateFinish))] else [];
    var mid: seq<Step<T>> := [BlockRan, ResponsePosted(Settle(c.block))];
    assert CallTrace(c) == pre + mid + post;
    assert mid == [BlockRan] + [ResponsePosted(Settle(c.block))];
    LoadingChannelAppend(pre + mid, post);
    LoadingChannelAppend(pre, mid);
    LoadingChannelAppend([BlockRan], [ResponsePosted(Settle(c.block))]);
    ResponseChannelAppend(pre + mid, post);
    ResponseChannelAppend(pre, mid);
    ResponseChannelAppend([BlockRan], [ResponsePosted(Settle(c.block))]);
  }

  /** Appending a call extends each channel by exactly what that call posts. */
  lemma ChannelsOfNextCall<T>(calls: seq<Call<T>>, c: Call<T>)
    ensures LoadingChannel(Trace(calls + [c])) == LoadingChannel(Trace(calls)) + Signals(c)
    ensures ResponseChannel(Trace(calls + [c])) == ResponseChannel(Trace(calls)) + [Settle(c.block)]
  {
    TraceSnoc(calls, c);
    LoadingChannelAppend(Trace(calls), CallTrace(c));
    ResponseChannelAppend(Trace(calls), CallTrace(c));
    CallChannels(c);
  }

  /** A log of earlier calls, extended by one more call's steps and signals, is the log of all of them. */
  lemma LogOfNextCall<T>(calls: seq<Call<T>>, steps: seq<Step<T>>, loading: seq<LoadingState>, c: Call<T>,
                         steps': seq<Step<T>>, loading': seq<LoadingState>)
    requires steps == Trace(calls) && loading == LoadingChannel(steps)
    requires steps' == steps + CallTrace(c) && loading' == loading + Signals(c)
    ensures steps' == Trace(calls + [c]) && loading' == LoadingChannel(steps')
  {
    TraceSnoc(calls, c);
    ChannelsOfNextCall(calls, c);
  }

  /** The response channel holds exactly one envelope per call, in call order. */
  lemma {:induction false} OneResponsePerCall<T>(calls: seq<Call<T>>)
    ensures |ResponseChannel(Trace(calls))| == |calls|
    ensures forall i {:trigger ResponseChannel(Trace(calls))[i]} :: 0 <= i < |calls| ==>
      ResponseChannel(Trace(calls))[i] == Settle(calls[i].block)
  {
    if calls != [] {
      var init := calls[..|calls| - 1];
      var c := calls[|calls| - 1];
      assert calls == init + [c];
      OneResponsePerCall(init);
      ChannelsOfNextCall(init, c);
    }
  }

  /** The loading channel holds LOADING/FINISH pairs, one pair for each call that asked for them. */
  lemma {:induction false} LoadingSignalsPaired<T>(calls: seq<Call<T>>)
    ensures Paired(LoadingChannel(Trace(calls)))
    ensures |LoadingChannel(Trace(calls))| == 2 * ShowingCount(calls)
  {
    if calls != [] {
      var init := calls[..|calls| - 1];
      var c := calls[|calls| - 1];
      assert calls == init + [c];
      LoadingSignalsPaired(init);
      ChannelsOfNextCall(init, c);
      var s := LoadingChannel(Trace(calls));
      if c.showLoading {
        assert s[..|s| - 2] == LoadingChannel(Trace(init));
      } else {
        assert s == LoadingChannel(Trace(init));
      }
    }
  }

  /**
   * Every LOADING signal in the log comes right before a run of the block,
   * and every FINISH signal right after an envelope was posted.
   */
  predicate Bracketed<T>(t: seq<Step<T>>) {
    forall j :: 0 <= j < |t| ==> BracketedAt(t, j)
  }

  /** The step at `j` is not a LOADING without a run of the block after it, nor a FINISH without a post before it. */
  predicate BracketedAt<T>(t: seq<Step<T>>, j: nat)
    requires j < |t|
  {
    (IsSignal(t[j], StateLoading) ==> j + 1 < |t| && t[j + 1] == BlockRan) &&
    (IsSignal(t[j], StateFinish) ==> 0 < j && t[j - 1].ResponsePosted?)
  }

  /** The step posts a loading signal in the given phase. */
  predicate IsSignal<T>(step: Step<T>, state: DataState) {
    step.LoadingPosted? && step.signal.state == state
  }

  /** A log that does not end in LOADING, followed by one that does not start with FINISH. */
  lemma BracketedAppend<T>(a: seq<Step<T>>, b: seq<Step<T>>)
    requires Bracketed(a) && Bracketed(b)
    requires a != [] ==> !IsSignal(a[|a| - 1], StateLoading)
    requires b != [] ==> !IsSignal(b[0], StateFinish)
    ensures Bracketed(a + b)
  {
    var t := a + b;
    forall j | 0 <= j < |t|
      ensures BracketedAt(t, j)
    {
      if j < |a| {
        assert t[j] == a[j];
        assert BracketedAt(a, j);
        if j + 1 < |a| { assert t[j + 1] == a[j + 1]; }
        if 0 < j { assert t[j - 1] == a[j - 1]; }
      } else {
        var k := j - |a|;
        assert t[j] == b[k];
        assert BracketedAt(b, k);
        if k + 1 < |b| { assert t[j + 1] == b[k + 1]; }
        if 0 < k { assert t[j - 1] == b[k - 1]; }
      }
    }
  }

  /** The steps of one call are bracketed, and they neither end in LOADING nor start with FINISH. */
  lemma CallTraceBracketed<T>(c: Call<T>)
    ensures Bracketed(CallTrace(c))
    ensures !IsSignal(CallTrace(c)[0], StateFinish)
    ensures !IsSignal(CallTrace(c)[|CallTrace(c)| - 1], StateLoading)
  {
    var t := CallTrace(c);
    var e := Settle(c.block);
    if c.showLoading {
      assert t == [LoadingPosted(LoadingState(c.loadingMsg, StateLoading)), BlockRan, ResponsePosted(e),
                   LoadingPosted(LoadingState(c.loadingMsg, StateFinish))];
    } else {
      assert t == [BlockRan, ResponsePosted(e)];
    }
    forall j | 0 <= j < |t|
      ensures BracketedAt(t, j)
    {
    }
  }

  /** In the log of any sequence of calls, the loading signals bracket each request. */
  lemma {:induction false} SignalsBracketTheRequest<T>(calls: seq<Call<T>>)
    ensures Bracketed(Trace(calls))
    ensures Trace(calls) != [] ==> !IsSignal(Trace(calls)[|Trace(calls)| - 1], StateLoading)
  {
    if calls != [] {
      var init := calls[..|calls| - 1];
      var c := calls[|calls| - 1];
      assert calls == init + [c];
      SignalsBracketTheRequest(init);
      TraceSnoc(init, c);
      CallTraceBracketed(c);
      BracketedAppend(Trace(init), CallTrace(c));
    }
  }
}
