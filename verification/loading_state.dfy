/** A loading-channel signal: an optional message paired with a phase. */
module LoadingStates {
  import opened Optional
  import opened DataStates

  datatype LoadingState = LoadingState(msg: Option<string>, state: DataState)
}
