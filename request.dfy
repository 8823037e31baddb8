/** The HTTP client's interceptors: the request interceptor that attaches
    the session token, and the response interceptors that turn a reply into
    a resolved value or a rejection and end the session on 401. */
module Request {
  import opened Common
  import opened Types
  import opened Storage

  const DefaultFailure: string := "请求失败"
  const Unauthorized: string := "未登录或登录已过期"
  const Forbidden: string := "权限不足"
  const NotFound: string := "请求的资源不存在"
  const ServerError: string := "服务器内部错误"
  const NetworkError: string := "网络错误，请检查网络连接"
  const ConfigError: string := "请求配置错误"

  /** An outgoing request; `headers` is `None` when the config has no
      header object. */
  class RequestConfig {
    var headers: Option<map<string, string>>

    constructor(headers: Option<map<string, string>>)
      ensures this.headers == headers
    {
      this.headers := headers;
    }
  }

  /** The value of the Authorization header for a token. */
  function Bearer(token: string): (h: string)
    ensures |h| == |token| + 7 && h[..7] == "Bearer " && h[7..] == token
  {
    "Bearer " + token
  }

  /** The request interceptor: with a non-empty stored token and a header
      object, sets `Authorization` to the bearer token in place; otherwise
      leaves the headers as they were. */
  method OnRequest(config: RequestConfig, storage: LocalStorage) returns (r: RequestConfig)
    modifies config
    ensures r == config
    ensures StoredToken(storage.items) != "" && old(config.headers).Some? ==>
      config.headers == Some(old(config.headers).value["Authorization" := Bearer(StoredToken(storage.items))])
    ensures StoredToken(storage.items) == "" || old(config.headers).None? ==>
      config.headers == old(config.headers)
  {
    var token := storage.GetItem(TokenKey);
    if token.Some? && token.value.Text? && token.value.text != "" && config.headers.Some? {
      config.headers := Some(config.headers.value["Authorization" := Bearer(token.value.text)]);
    }
    r := config;
  }

  /** Why a call was rejected: the envelope carried a code other than 200
      (an `Error` with that message), or the transport failed (the axios
      error itself). */
  datatype Rejection = BusinessError(message: string) | TransportError(error: HttpError)

  datatype Settled<+T> = Resolved(value: T) | Rejected(reason: Rejection)

  /** What an interceptor does with one reply: how the promise settles, the
      toast it shows, and whether it ends the session (removing the stored
      token and user and sending the browser to `/login`). */
  datatype Verdict<+T> = Verdict(settled: Settled<T>, toast: Option<string>, endSession: bool)

  /** The reply of a failed HTTP exchange: the status and, when the body is
      an envelope, its message. */
  datatype ErrorResponse = ErrorResponse(status: int, message: Option<string>)

  /** A transport error: the response if one arrived, and whether a request
      was sent at all. */
  datatype HttpError = HttpError(response: Option<ErrorResponse>, requestSent: bool)

  /** `message || '请求失败'`. */
  function MessageOr(message: string): (m: string)
    ensures message != "" ==> m == message
    ensures message == "" ==> m == DefaultFailure
  {
    if message != "" then message else DefaultFailure
  }

  /** The success interceptor: code 200 resolves with the envelope's data;
      any other code rejects with the message, and 401 also ends the session. */
  function Classify<T>(res: ApiResponse<T>): (v: Verdict<T>)
    ensures v.settled.Resolved? <==> res.code == 200
    ensures v.settled.Resolved? ==> v.settled.value == res.data && v.toast == None
    ensures v.settled.Rejected? ==>
      v.settled.reason == BusinessError(MessageOr(res.message)) && v.toast == Some(MessageOr(res.message))
    ensures v.endSession <==> res.code == 401
  {
    if res.code != 200 then
      Verdict(Rejected(BusinessError(MessageOr(res.message))), Some(MessageOr(res.message)), res.code == 401)
    else
      Verdict(Resolved(res.data), None, false)
  }

  /** The toast of the error interceptor. */
  function ErrorToast(e: HttpError): (m: string)
    ensures e.response.Some? ==>
      var status := e.response.value.status;
      && (status == 401 ==> m == Unauthorized)
      && (status == 403 ==> m == Forbidden)
      && (status == 404 ==> m == NotFound)
      && (status == 500 ==> m == ServerError)
      && (status !in {401, 403, 404, 500} ==>
            m == MessageOr(if e.response.value.message.Some? then e.response.value.message.value else ""))
    ensures e.response.None? && e.requestSent ==> m == NetworkError
    ensures e.response.None? && !e.requestSent ==> m == ConfigError
  {
    match e.response
    case Some(resp) =>
      if resp.status == 401 then Unauthorized
      else if resp.status == 403 then Forbidden
      else if resp.status == 404 then NotFound
      else if resp.status == 500 then ServerError
      else MessageOr(if resp.message.Some? then resp.message.value else "")
    case None =>
      if e.requestSent then NetworkError else ConfigError
  }

  /** The error interceptor: always rejects with the error it was given;
      only an HTTP 401 ends the session. */
  function ClassifyError<T>(e: HttpError): (v: Verdict<T>)
    ensures v.settled == Rejected(TransportError(e))
    ensures v.toast == Some(ErrorToast(e))
    ensures v.endSession <==> e.response.Some? && e.response.value.status == 401
  {
    Verdict(Rejected(TransportError(e)), Some(ErrorToast(e)), e.response.Some? && e.response.value.status == 401)
  }

  /** An interceptor that ends the session removes exactly the two session
      keys from storage; otherwise storage is untouched. */
  method ApplyVerdict<T>(v: Verdict<T>, storage: LocalStorage)
    modifies storage
    ensures storage.items == if v.endSession then old(storage.items) - {TokenKey, UserKey} else old(storage.items)
  {
    if v.endSession {
      storage.RemoveItem(TokenKey);
      storage.RemoveItem(UserKey);
    }
  }

  /** The response interceptor's success handler with its storage effect. */
  method OnResponse<T>(res: ApiResponse<T>, storage: LocalStorage) returns (v: Verdict<T>)
    modifies storage
    ensures v == Classify(res)
    ensures storage.items == if res.code == 401 then old(storage.items) - {TokenKey, UserKey} else old(storage.items)
  {
    v := Classify(res);
    ApplyVerdict(v, storage);
  }

  /** The response interceptor's error handler with its storage effect. */
  method OnError<T>(e: HttpError, storage: LocalStorage) returns (v: Verdict<T>)
    modifies storage
    ensures v == ClassifyError(e)
    ensures storage.items ==
      if e.response.Some? && e.response.value.status == 401 then old(storage.items) - {TokenKey, UserKey}
      else old(storage.items)
  {
    v := ClassifyError(e);
    ApplyVerdict(v, storage);
  }
}
