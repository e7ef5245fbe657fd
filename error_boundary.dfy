/** The general error boundary: extracting a message from a thrown value,
    and choosing which handler renders a route error. */
module ErrorBoundary {
  import opened Wrappers

  /** A thrown JavaScript value (numbers kept to integers). */
  datatype JsValue =
    | JsString(s: string)
    | JsNumber(n: int)
    | JsBoolean(b: bool)
    | JsNull
    | JsUndefined
    | JsObject(props: map<string, JsValue>)

  const UnknownError: string := "Unknown Error"

  /** An object with a string `message` property. */
  predicate HasStringMessage(e: JsValue)
  {
    e.JsObject? && "message" in e.props && e.props["message"].JsString?
  }

  /** `getErrorMessage`: a string is its own message; an object with a
      string `message` gives that; anything else is "Unknown Error". */
  function GetErrorMessage(e: JsValue): (message: string)
    ensures e.JsString? ==> message == e.s
    ensures HasStringMessage(e) ==> message == e.props["message"].s
    ensures !e.JsString? && !HasStringMessage(e) ==> message == UnknownError
  {
    if e.JsString? then e.s
    else if HasStringMessage(e) then e.props["message"].s
    else UnknownError
  }

  /** What the boundary receives: a route error response (a thrown
      Response with a status) or any other thrown value. */
  datatype RouteError =
    | ErrorResponse(status: int, statusText: string, data: JsValue)
    | Unexpected(value: JsValue)

  /** A render function supplied by the route, known by its name. */
  datatype Handler = Handler(name: string)

  /** The boundary's props; an absent `statusHandlers` is the empty map, an
      absent handler means the built-in default. */
  datatype Boundary = Boundary(
    defaultStatusHandler: Option<Handler>,
    statusHandlers: map<int, Handler>,
    unexpectedErrorHandler: Option<Handler>)

  /** What gets rendered: a supplied handler applied to the error, the
      built-in "status statusText" line, or the built-in message paragraph. */
  datatype Rendered =
    | ByHandler(handler: Handler, error: RouteError)
    | StatusLine(status: int, statusText: string)
    | MessageParagraph(message: string)

  /** `GeneralErrorBoundary`'s choice: a route error response goes to the
      handler registered for its status, else to the default status handler;
      any other value goes to the unexpected-error handler. */
  function Render(b: Boundary, e: RouteError): (r: Rendered)
    ensures e.ErrorResponse? && e.status in b.statusHandlers ==>
              r == ByHandler(b.statusHandlers[e.status], e)
    ensures e.ErrorResponse? && e.status !in b.statusHandlers ==>
              r == if b.defaultStatusHandler.Some? then ByHandler(b.defaultStatusHandler.value, e)
                   else StatusLine(e.status, e.statusText)
    ensures e.Unexpected? ==>
              r == if b.unexpectedErrorHandler.Some? then ByHandler(b.unexpectedErrorHandler.value, e)
                   else MessageParagraph(GetErrorMessage(e.value))
  {
    match e
    case ErrorResponse(status, statusText, _) =>
      if status in b.statusHandlers then ByHandler(b.statusHandlers[status], e)
      else if b.defaultStatusHandler.Some? then ByHandler(b.defaultStatusHandler.value, e)
      else StatusLine(status, statusText)
    case Unexpected(v) =>
      if b.unexpectedErrorHandler.Some? then ByHandler(b.unexpectedErrorHandler.value, e)
      else MessageParagraph(GetErrorMessage(v))
  }

  /** A route error response never reaches the unexpected-error handler, and
      no other value ever reaches a status handler. */
  lemma {:induction false} HandlersAreSeparate(b: Boundary, e: RouteError)
    requires b.unexpectedErrorHandler.Some?
    requires b.unexpectedErrorHandler.value !in b.statusHandlers.Values
    requires b.defaultStatusHandler != b.unexpectedErrorHandler
    ensures Render(b, e).ByHandler? && Render(b, e).handler == b.unexpectedErrorHandler.value <==> e.Unexpected?
  {
    match e
    case ErrorResponse(status, _, _) =>
      if status in b.statusHandlers {
        assert b.statusHandlers[status] in b.statusHandlers.Values;
      }
    case Unexpected(_) =>
  }

  /** The catch-all route registers only a 404 handler: its page is what a
      404 shows, and any other status gets the default status line. */
  lemma NotFoundPage(page: Handler, status: int, statusText: string, data: JsValue)
    ensures Render(Boundary(None, map[404 := page], None), ErrorResponse(404, statusText, data)) ==
            ByHandler(page, ErrorResponse(404, statusText, data))
    ensures status != 404 ==>
            Render(Boundary(None, map[404 := page], None), ErrorResponse(status, statusText, data)) ==
            StatusLine(status, statusText)
  {
  }
}
