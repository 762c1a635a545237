/** The response envelope `BaseResponse` and its success code. */
module Responses {
  import opened Optional
  import opened DataStates

  /** Kotlin's `Int`. */
  newtype Int32 = x: int | -0x8000_0000 <= x < 0x8000_0000

  /** The only result code the server uses for success. */
  const ERROR_CODE_SUCCESS: Int32 := 0

  /**
   * A non-null payload of type `T?`. The executor only asks whether it is a
   * `List`, and if so whether it has elements. A `List<*>`'s elements are
   * JVM references of unknown type, not values of `T`, so `ListOf` holds
   * them as references. Every other value (an empty string or map included)
   * is `NonList`.
   */
  datatype Payload<T> = ListOf(items: seq<object?>) | NonList(value: T)

  /** A thrown value, compared by its class and message. */
  datatype Throwable = Throwable(className: string, message: Option<string>)

  /** The field values of a `BaseResponse` at one moment. */
  datatype Envelope<T> = Envelope(
    code: Int32,
    message: Option<string>,
    data: Option<Payload<T>>,
    dataState: Option<DataState>,
    exception: Option<Throwable>)

  /**
   * The field values of `BaseResponse()` built with no arguments. The
   * constructor's default parameters below are the same values;
   * `Repositories.SettleResponse` builds `BaseResponse()` and is proved to
   * post this envelope on a throw, so the two cannot drift apart.
   */
  function DefaultEnvelope<T>(): Envelope<T> {
    Envelope(0, None, None, None, None)
  }

  class BaseResponse<T> {
    var code: Int32
    var message: Option<string>
    var data: Option<Payload<T>>
    var dataState: Option<DataState>
    var exception: Option<Throwable>

    constructor (code: Int32 := 0, message: Option<string> := None, data: Option<Payload<T>> := None,
                 dataState: Option<DataState> := None, exception: Option<Throwable> := None)
      ensures Value() == Envelope(code, message, data, dataState, exception)
    {
      this.code := code;
      this.message := message;
      this.data := data;
      this.dataState := dataState;
      this.exception := exception;
    }

    /** The current field values. */
    function Value(): Envelope<T>
      reads this
    {
      Envelope(code, message, data, dataState, exception)
    }

    /** The `success` getter, computed from the current `code` on every read. */
    predicate Success()
      reads this
    {
      code == ERROR_CODE_SUCCESS
    }

    /** The setter of `var code`: only `code` changes, and `Success()` follows it. */
    method SetCode(c: Int32)
      modifies this
      ensures Value() == old(Value()).(code := c)
      ensures Success() <==> c == ERROR_CODE_SUCCESS
    {
      code := c;
    }
  }
}
