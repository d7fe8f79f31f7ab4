/** The `{code, message | msg, data}` envelope every BiliBili API response comes in. */
module BiliBiliApi {
  import opened Wrappers
  import opened Errors

  const BaseUrl := "https://api.live.bilibili.com/"

  datatype BiliBiliResponse<T> = BiliBiliResponse(code: int, message: Option<string>, msg: Option<string>, data: Option<T>)
  {
    /** `isSuccess()`: the upstream status code is zero. */
    predicate IsSuccess() {
      code == 0
    }

    /**
     * `getOrThrow()`: fail on a non-zero code before looking at `data`, preferring
     * `message` over `msg`; with code zero, fail only when `data` is null.
     */
    function GetOrThrow(): (r: Result<T, Exception>)
      ensures r.Success? <==> IsSuccess() && data.Some?
      ensures r.Success? ==> r.value == data.value
      ensures !IsSuccess() ==> r == Failure(ApiException(code, message.GetOr(msg.GetOr("Unknown error"))))
      ensures IsSuccess() && data.None? ==> r == Failure(ApiException(-1, "Data is null"))
    {
      if code != 0 then Failure(ApiException(code, message.GetOr(msg.GetOr("Unknown error"))))
      else if data.None? then Failure(ApiException(-1, "Data is null"))
      else Success(data.value)
    }
  }

  /** A non-zero code fails even when the response carries data, and its message is never the data-null one. */
  lemma CodeCheckedFirst<T>(resp: BiliBiliResponse<T>)
    requires resp.code != 0
    ensures resp.GetOrThrow().Failure? && resp.GetOrThrow().error.code == resp.code
    ensures resp.message.Some? ==> resp.GetOrThrow().error.msg == resp.message.value
    ensures resp.message.None? && resp.msg.Some? ==> resp.GetOrThrow().error.msg == resp.msg.value
  {
  }

  /** What the HTTP call behind an API method produced: a decoded response, or an exception. */
  type Fetched<T> = Result<BiliBiliResponse<T>, Exception>

  /** Fetch, then `getOrThrow()`: an exception from either step is the result's failure. */
  function Unwrap<T>(fetched: Fetched<T>): (r: Result<T, Exception>)
    ensures fetched.Failure? ==> r == Failure(fetched.error)
    ensures fetched.Success? ==> r == fetched.value.GetOrThrow()
  {
    match fetched
    case Failure(e) => Failure(e)
    case Success(resp) => resp.GetOrThrow()
  }
}
