# MvvmUtils request-state protocol in Dafny

A model of the request/loading-state protocol in the MvvmUtils Android helper
library. The protocol has three parts.

- `BaseRepository.executeRequest` runs one request's block. When asked, it
  posts a LOADING signal on the repository's loading channel first. It turns
  what the block produced into an envelope whose `dataState` is SUCCESS, EMPTY,
  FAILED or ERROR. It posts that envelope once on the response channel, and
  then posts a FINISH signal when asked.
- `BaseResponse` is the mutable envelope with fields `code`, `message`, `data`,
  `dataState` and `exception`. Its `success` getter is derived from `code`.
  `DataState` is the seven-constant phase enum.
- `ResponseObserver.onChanged` is the sealed dispatch. It routes an envelope to
  `onSuccess(data)`, `onFailure(message, code)` or `onException(exception)` by
  its `dataState`, or to no handler.

Files, one module each:

- `optional.dfy`: Kotlin's nullable types.
- `data_state.dfy`: `DataState`, its `values()` and `ordinal`.
- `base_response.dfy`: `BaseResponse` as a class, and `Envelope`, the value of
  its fields at one moment.
- `loading_state.dfy`: `LoadingState`.
- `classification.dfy`: `isEmptyData`, and what the executor posts as pure
  functions of the block's outcome (`Classify`, `Settle`).
- `request_trace.dfy`: the order of the executor's steps across both channels
  (`CallTrace`), the log of a sequence of requests (`Trace`), and the
  guarantees that hold over such a log.
- `base_repository.dfy`: the imperative executor. `BaseRepository` holds the
  loading channel, and `ResponseMutableLiveData` is the response channel.
- `response_observer.dfy`: `onChanged` and its dispatch table.
- `protocol.dfy`: the executor and the observer taken together.

The request's block is an opaque suspending call. It becomes a value: either
`Returned(response)`, the object it returned, or `Threw(e)`. A LiveData channel
becomes the sequence of every value posted to it. `BaseRepository` also keeps a
ghost log `steps`. The log records each loading signal, each run of a block
and each posted envelope, in the order they happen across both channels.

Two consequences of the code are worth knowing:

- When the block throws, the executor posts the fresh default envelope. That
  envelope keeps `code == 0` (stated by `Classification.Settle`), so its
  `success` getter reads true even though its state is ERROR.
- When the block returns an envelope, the executor writes `dataState` into that
  same object and posts the object itself. The caller's object is therefore
  changed (`Repositories.BaseRepository.ExecuteRequest`:
  `block.Returned? ==> posted == block.value`).

## Model

| member | source | states |
|---|---|---|
| `DataStates.Ordinal` | app/src/main/java/com/cofbro/mvvmutils/base/BaseResponse.kt:31-39 | each constant sits at its ordinal in the declaration order INITIALIZE, LOADING, SUCCESS, EMPTY, FAILED, ERROR, FINISH |
| `DataStates.EntriesAreSevenDistinctStates` | app/src/main/java/com/cofbro/mvvmutils/base/BaseResponse.kt:31-39 | the enum has exactly seven constants; they are pairwise distinct, every state is among them, and ordinals number them 0 to 6 in order |
| `Responses.BaseResponse.constructor` | app/src/main/java/com/cofbro/mvvmutils/base/BaseResponse.kt:7-13 | the fields hold the given arguments; with no arguments they are code 0 and null message, data, dataState and exception |
| `Responses.BaseResponse.SetCode` | app/src/main/java/com/cofbro/mvvmutils/base/BaseResponse.kt:8-19 | assigning `code` changes nothing else, and afterwards `success` holds exactly when the new code is `ERROR_CODE_SUCCESS` (0) |
| `Classification.Classify` | app/src/main/java/com/cofbro/mvvmutils/base/BaseRepository.kt:45-53 | FAILED exactly when the code is not 0, whatever the payload; EMPTY exactly when the code is 0 and the payload is null or an empty List; SUCCESS exactly when the code is 0 and the payload is anything else |
| `Classification.IsEmptyData` | app/src/main/java/com/cofbro/mvvmutils/base/BaseRepository.kt:69-71 | a payload is empty exactly when it is null or the List with no elements |
| `Classification.NonListPayloadIsNeverEmpty` | app/src/main/java/com/cofbro/mvvmutils/base/BaseRepository.kt:69-71 | a payload that is not a List, whatever its value (an empty string included), is not empty, so code 0 with it gives SUCCESS |
| `Classification.SuccessOfSettledEnvelope` | app/src/main/java/com/cofbro/mvvmutils/base/BaseResponse.kt:18-19 | on a posted envelope the `success` getter is true exactly for SUCCESS and EMPTY when the block returned, and true on an ERROR envelope because its code stays 0 |
| `Classification.Settle` | app/src/main/java/com/cofbro/mvvmutils/base/BaseRepository.kt:39-56 | the posted state is always SUCCESS, EMPTY, FAILED or ERROR, and it is ERROR exactly when the block threw; on a throw the envelope is the default one (code 0, null message and data) with `exception` set to the thrown value; on a return, code, message, data and exception are the block's own and the state is its classification |
| `Classification.SettleDependsOnCodeAndEmptiness` | app/src/main/java/com/cofbro/mvvmutils/base/BaseRepository.kt:44-56 | two outcomes that agree on whether the block threw, on the code and on payload emptiness get the same state |
| `Repositories.SettleResponse` | app/src/main/java/com/cofbro/mvvmutils/base/BaseRepository.kt:39-56 | the try/catch leaves the envelope with the fields `Settle` gives; it is the block's own object when the block returned, and a fresh default object when it threw |
| `Repositories.ResponseMutableLiveData.constructor` | app/src/main/java/com/cofbro/mvvmutils/base/ResponseMutableLiveData.kt:24 | a new response channel has received nothing |
| `Repositories.ResponseMutableLiveData.PostValue` | app/src/main/java/com/cofbro/mvvmutils/base/ResponseMutableLiveData.kt:26-28 | posting appends exactly the value to the channel's history |
| `Repositories.BaseRepository.constructor` | app/src/main/java/com/cofbro/mvvmutils/base/BaseRepository.kt:13-15 | a new repository's loading channel and step log are empty |
| `Repositories.BaseRepository.PostLoading` | app/src/main/java/com/cofbro/mvvmutils/base/BaseRepository.kt:41-42 | the signal is appended to the loading channel and logged as a step |
| `Repositories.BaseRepository.ExecuteRequest` | app/src/main/java/com/cofbro/mvvmutils/base/BaseRepository.kt:33-63 | the response channel gains exactly one envelope, whose fields are `Settle` of what the block produced; the loading channel gains LOADING then FINISH with `loadingMsg` when `showLoading` is true and nothing otherwise; the log gains LOADING, block run, envelope posted, FINISH in that order; the posted envelope reaches a handler |
| `Repositories.RunInSequence` | app/src/main/java/com/cofbro/mvvmutils/base/BaseRepository.kt:33-63 | requests made one after the other on a new repository: the i-th call is logged with the i-th request's `showLoading` and `loadingMsg`, with its thrown exception when its block threw, and with the returned object's fields as they were before the run when that object is returned for the first time; the response channel keeps what it had and then gains, at position i, the very object the i-th block returned; the log is `Trace` of the calls, so the loading channel is LOADING/FINISH pairs, two per request that asked for them, bracketing each request, and the log holds one settled envelope per request, in order |
| `Repositories.ExecuteEach` | app/src/main/java/com/cofbro/mvvmutils/base/BaseRepository.kt:33-63 | running the requests in order on a repository with an empty log logs one call per request with that request's arguments and outcome (as for `RunInSequence`), leaves the log equal to `Trace` of the calls and its loading channel the projection of that log, and appends to the response channel, at offset i, the object the i-th block returned |
| `Repositories.ExecuteNext` | app/src/main/java/com/cofbro/mvvmutils/base/BaseRepository.kt:33-63 | one more request extends the log to `Trace` of the calls so far plus this call, keeps the loading channel the projection of the log, and appends one envelope to the response channel, the block's own object when it returned |
| `RequestTraces.CallChannels` | app/src/main/java/com/cofbro/mvvmutils/base/BaseRepository.kt:41-61 | one request puts exactly its LOADING/FINISH pair (or nothing) on the loading channel and exactly one envelope on the response channel |
| `RequestTraces.ChannelsOfNextCall` | app/src/main/java/com/cofbro/mvvmutils/base/BaseRepository.kt:41-61 | after earlier requests, one more request extends each channel by exactly what it posts |
| `RequestTraces.OneResponsePerCall` | app/src/main/java/com/cofbro/mvvmutils/base/BaseRepository.kt:57-58 | over any sequence of requests, the response channel holds one envelope per request, in request order, the i-th being that request's settled envelope |
| `RequestTraces.LoadingSignalsPaired` | app/src/main/java/com/cofbro/mvvmutils/base/BaseRepository.kt:41-61 | over any sequence of requests, the loading channel is a run of LOADING/FINISH pairs sharing a message, two signals for each request that asked for them |
| `RequestTraces.CallTraceBracketed` | app/src/main/java/com/cofbro/mvvmutils/base/BaseRepository.kt:40-62 | within one request, LOADING comes right before the block runs and FINISH right after the envelope is posted |
| `RequestTraces.SignalsBracketTheRequest` | app/src/main/java/com/cofbro/mvvmutils/base/BaseRepository.kt:40-62 | over any sequence of requests, every LOADING in the log is followed at once by a run of the block, and every FINISH follows at once a posted envelope |
| `Observers.Dispatch` | app/src/main/java/com/cofbro/mvvmutils/base/ResponseObserver.kt:15-27 | SUCCESS or EMPTY invokes `onSuccess(data)`, FAILED invokes `onFailure(message, code)` verbatim, ERROR invokes `onException(exception)`, each exactly for those states; any other state or a null state invokes nothing |
| `Observers.OnChanged` | app/src/main/java/com/cofbro/mvvmutils/base/ResponseObserver.kt:13-29 | a null envelope invokes no handler; any other envelope is dispatched on its current fields |
| `Observers.HandlerRunsIffResultState` | app/src/main/java/com/cofbro/mvvmutils/base/ResponseObserver.kt:15-27 | a handler runs exactly when the state is SUCCESS, EMPTY, FAILED or ERROR |
| `Observers.DispatchDependsOnlyOnState` | app/src/main/java/com/cofbro/mvvmutils/base/ResponseObserver.kt:13-28 | two envelopes with the same `dataState` reach the same handler |
| `Protocol.SettledEnvelopeReachesOneHandler` | app/src/main/java/com/cofbro/mvvmutils/base/ResponseObserver.kt:15-24 | every envelope the executor posts reaches exactly one handler: `onException(e)` for a throw, `onFailure(message, code)` for a non-zero code, `onSuccess(data)` for code 0 |
| `Protocol.EveryPostedEnvelopeIsHandled` | app/src/main/java/com/cofbro/mvvmutils/base/ResponseObserver.kt:13-28 | over any sequence of requests, every envelope on the response channel reaches a handler |
| `Protocol.Scenarios` | app/src/main/java/com/cofbro/mvvmutils/base/BaseRepository.kt:44-56 | code 0 with an empty list gives EMPTY and `onSuccess` with that list; code 403 with "forbidden" gives FAILED and `onFailure("forbidden", 403)`; a thrown timeout gives ERROR and `onException` with it |

## Left out

- Concurrency: the `suspend` machinery and several `executeRequest` calls in flight on the same channels are not modelled. One call is a sequential method, and the log and its lemmas cover calls made one after the other.
- LiveData delivery: `postValue` hands values across threads and may coalesce them before observers see them. A channel is the history of posted values, and the model makes no claim about what observers receive.
- Toasts: the leaf handlers `onException` and the default `onFailure` only show a toast, and `onSuccess` is abstract. The model records which handler is invoked and with which arguments.
- Throwables that are not `Exception`s: the executor does not catch JVM `Error`s. An `Error` would escape after both posts in the `finally` block. Only returned outcomes and `Exception`s are modelled.
- A block that returns null through a Java platform type is not modelled. In the source that would raise an exception inside the `catch` block.
- Exception identity: a `Throwable` is compared by its class name and message, not by object identity.
- Repositories.BaseRepository: it is generic in the payload type, whereas the Kotlin `executeRequest` is generic per call.
- Repositories.BaseRepository.ExecuteRequest: Kotlin's trailing-lambda call syntax has no counterpart; the defaults `showLoading = true` and `loadingMsg = null` are kept, and the block, which follows them, is passed by name.
- Repositories.BaseRepository.ExecuteRequest: the class keeps no invariant tying `loadingStates` to the projection of `steps`. The method states how each of them grows, `RequestTraces.ChannelsOfNextCall` shows that the two growths agree, and `Repositories.RunInSequence` carries the tie through a sequence of requests on a new repository.
- Repositories.BaseRepository.ExecuteRequest: the block is an effect-free outcome. A Kotlin block may itself post on `responseLiveData` or on the loading channel, change the repository, or run a nested `executeRequest`; those effects are not modelled. The "exactly one envelope" and "exactly LOADING then FINISH" guarantees hold for a block that touches neither channel.
- `RequestTraces.ResponseChannel` of a repository's log merges the envelopes posted to every response channel the calls were given; the source takes a response channel per call. `Repositories.RunInSequence` gives all calls one channel.
- Repositories.RunInSequence: for a request whose block threw, the fields of the fresh envelope are stated through the log (`RequestTraces.ResponseChannel`), not on the object the response channel received; `Repositories.BaseRepository.ExecuteRequest` states them per call.
- Repositories.RunInSequence: when one object is returned by several blocks, only its first call is logged with the fields it had before the run; later calls see the `dataState` the earlier ones wrote into it, and the model states only that they returned.
- `executeLCRequest` and the LeanCloud fields of `BaseRepository` are not modelled. They are SDK glue.
- Activity and Fragment lifecycle code, reflection helpers, SharedPreferences, `LeanCloudUtils`, `RetrofitCreator` and the build scripts are not modelled. They are not part of the protocol.
