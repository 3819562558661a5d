/** The error type of the registry. Every failure names the handle of the
    connection it happened on; the errors of the websocket and HTTP
    libraries and the timer's timeout error are foreign, so they are
    abstract types here and their display text is supplied by the caller
    of `Display`, as is the text of the handle. */
module Errors {
  import opened Handles

  /** `tide_websockets::Error`. */
  type WsError

  /** `http_types::Error`. */
  type HttpTypesError

  /** `async_std::future::TimeoutError`. */
  type TimeoutError

  datatype Option<T> = None | Some(value: T)

  /** `WebSocketStateError`. Every variant carries exactly one handle, so
      the shared destructor `handle` is total. */
  datatype WebSocketStateError =
    | Timeout(handle: Handle)
    | WebSocketError(wsError: WsError, handle: Handle)
    | HttpError(httpError: HttpTypesError, handle: Handle)
    | NoSuchWebSocketClient(handle: Handle)

  /** The crate's `Result<T>` alias, fixed to `WebSocketStateError`. */
  datatype Result<T> = Ok(value: T) | Err(error: WebSocketStateError)

  predicate StartsWith(s: string, prefix: string)
  {
    |prefix| <= |s| && s[..|prefix|] == prefix
  }

  predicate EndsWith(s: string, suffix: string)
  {
    |suffix| <= |s| && s[|s| - |suffix|..] == suffix
  }

  /** `Error::source`: only the websocket variant exposes its cause. */
  function Source(err: WebSocketStateError): (r: Option<WsError>)
    ensures r.Some? <==> err.WebSocketError?
    ensures r.Some? ==> r.value == err.wsError
  {
    match err
    case Timeout(_) => None
    case WebSocketError(e, _) => Some(e)
    case HttpError(_, _) => None
    case NoSuchWebSocketClient(_) => None
  }

  /** `Display::fmt`. `wsText` and `httpText` render the foreign errors
      and `handleText` renders the handle, whose `{}` formatting the crate
      does not define. */
  function Display(err: WebSocketStateError, handleText: Handle -> string,
                   wsText: WsError -> string,
                   httpText: HttpTypesError -> string): (s: string)
    ensures EndsWith(s, handleText(err.handle))
    ensures err.Timeout? ==>
      StartsWith(s, "Timeout ")
      && |s| == |"Timeout "| + |handleText(err.handle)|
    ensures err.NoSuchWebSocketClient? ==>
      StartsWith(s, "No such websocket handle: ")
      && |s| == |"No such websocket handle: "| + |handleText(err.handle)|
    ensures err.WebSocketError? ==>
      StartsWith(s, wsText(err.wsError) + ": websocket client ")
      && |s| == |wsText(err.wsError) + ": websocket client "| + |handleText(err.handle)|
    ensures err.HttpError? ==>
      StartsWith(s, httpText(err.httpError) + ": websocket client ")
      && |s| == |httpText(err.httpError) + ": websocket client "| + |handleText(err.handle)|
  {
    Prefix(err, wsText, httpText) + handleText(err.handle)
  }

  /** The part of the rendering that precedes the handle's text. */
  function Prefix(err: WebSocketStateError, wsText: WsError -> string,
                  httpText: HttpTypesError -> string): string
  {
    match err
    case Timeout(_) => "Timeout "
    case WebSocketError(e, _) => wsText(e) + ": websocket client "
    case HttpError(e, _) => httpText(e) + ": websocket client "
    case NoSuchWebSocketClient(_) => "No such websocket handle: "
  }

  /** `a` and `b` are the same variant and carry the same foreign error. */
  ghost predicate SameKindAndCause(a: WebSocketStateError, b: WebSocketStateError)
  {
    match a
    case Timeout(_) => b.Timeout?
    case WebSocketError(e, _) => b.WebSocketError? && b.wsError == e
    case HttpError(e, _) => b.HttpError? && b.httpError == e
    case NoSuchWebSocketClient(_) => b.NoSuchWebSocketClient?
  }

  /** Two errors of the same kind about the same foreign error render
      alike only if their handles render alike: the message attributes the
      failure unambiguously. */
  lemma DisplayAttributesHandle(a: WebSocketStateError, b: WebSocketStateError,
                                handleText: Handle -> string,
                                wsText: WsError -> string,
                                httpText: HttpTypesError -> string)
    requires SameKindAndCause(a, b)
    requires Display(a, handleText, wsText, httpText) == Display(b, handleText, wsText, httpText)
    ensures handleText(a.handle) == handleText(b.handle)
  {
    var p := Prefix(a, wsText, httpText);
    assert p == Prefix(b, wsText, httpText);
    var s := Display(a, handleText, wsText, httpText);
    assert handleText(a.handle) == s[|p|..] == handleText(b.handle);
  }

  /** The websocket and HTTP variants share one message format, so when
      the two foreign errors render alike, so do the two variants. */
  lemma TransportKindsRenderAlike(e: WsError, f: HttpTypesError, h: Handle,
                                  handleText: Handle -> string,
                                  wsText: WsError -> string,
                                  httpText: HttpTypesError -> string)
    requires wsText(e) == httpText(f)
    ensures Display(WebSocketError(e, h), handleText, wsText, httpText)
         == Display(HttpError(f, h), handleText, wsText, httpText)
  {
  }

  /** `From<(tide_websockets::Error, WebSocketHandle)>`. */
  function FromWsError(e: WsError, h: Handle): (r: WebSocketStateError)
    ensures r.WebSocketError? && r.wsError == e && r.handle == h
  {
    WebSocketError(e, h)
  }

  /** `From<(http_types::Error, WebSocketHandle)>`. */
  function FromHttpError(e: HttpTypesError, h: Handle): (r: WebSocketStateError)
    ensures r.HttpError? && r.httpError == e && r.handle == h
  {
    HttpError(e, h)
  }

  /** `From<(TimeoutError, WebSocketHandle)>`: the timeout value is dropped. */
  function FromTimeout(t: TimeoutError, h: Handle): (r: WebSocketStateError)
    ensures r.Timeout? && r.handle == h
  {
    Timeout(h)
  }

  /** A converted websocket error is reported back as the cause, and the
      conversions of the other two foreign errors report none. */
  lemma ConversionSources(e: WsError, f: HttpTypesError, t: TimeoutError, h: Handle)
    ensures Source(FromWsError(e, h)) == Some(e)
    ensures Source(FromHttpError(f, h)) == None
    ensures Source(FromTimeout(t, h)) == None
  {
  }

  /** Converting a timeout forgets which timeout it was: only the handle
      survives. */
  lemma TimeoutValueDiscarded(t1: TimeoutError, t2: TimeoutError, h: Handle)
    ensures FromTimeout(t1, h) == FromTimeout(t2, h)
  {
  }
}
