/** The end of the middleware chain of backend/src/server.js, where a request
    that no route took and an error that a route raised are turned into one
    JSON response, and the start-up decision of whether and where to listen. */
module Server {
  import opened Wrappers

  /** An error as the error handler sees it: its `name` and `message`. */
  datatype Error = Error(name: string, message: string)

  /** An HTTP response: the status and the JSON body, written as its
      key/value pairs in order. */
  datatype Response = Response(status: nat, body: seq<(string, string)>)

  /** What happened to a request before the fallback handlers: no route
      matched it, a route answered it, or a route failed with an error. */
  datatype Routed =
    | Unmatched
    | Answered(response: Response)
    | Failed(error: Error)

  /** `ENV.NODE_ENV` is `"development"`. */
  predicate IsDevelopment(nodeEnv: Option<string>) {
    nodeEnv == Some("development")
  }

  /** The 404 handler (lines 50-52). */
  function NotFound(): (r: Response)
    ensures r.status == 404 && r.body == [("error", "Route not found")]
  {
    Response(404, [("error", "Route not found")])
  }

  /** The global error handler (lines 55-77). A `ValidationError` is a 400
      that carries the error's message as `details`; a `CastError` is a 400
      that carries no message; anything else is a 500 whose `message` is the
      error's own only in development. The early returns make the three
      cases exclusive. */
  function ErrorResponse(err: Error, nodeEnv: Option<string>): (r: Response)
    ensures r.status == 400 <==> err.name == "ValidationError" || err.name == "CastError"
    ensures r.status == 500 <==> err.name != "ValidationError" && err.name != "CastError"
    ensures err.name == "ValidationError" ==>
      r.body == [("error", "Validation Error"), ("details", err.message)]
    ensures err.name == "CastError" ==> r.body == [("error", "Invalid ID format")]
    ensures err.name != "ValidationError" && err.name != "CastError" ==>
      r.body == [("error", "Internal server error"),
                 ("message", if IsDevelopment(nodeEnv) then err.message else "Something went wrong")]
  {
    if err.name == "ValidationError" then
      Response(400, [("error", "Validation Error"), ("details", err.message)])
    else if err.name == "CastError" then
      Response(400, [("error", "Invalid ID format")])
    else
      Response(500, [("error", "Internal server error"),
                     ("message", if IsDevelopment(nodeEnv) then err.message else "Something went wrong")])
  }

  /** Outside development, an error that is not a `ValidationError` never
      reaches the client: the body has no `details` and its `message` is the
      fixed text. */
  lemma ErrorMessageHidden(err: Error, nodeEnv: Option<string>)
    requires !IsDevelopment(nodeEnv) && err.name != "ValidationError"
    ensures forall kv :: kv in ErrorResponse(err, nodeEnv).body ==>
      kv.0 != "details" && (kv.0 == "message" ==> kv.1 == "Something went wrong")
  {
  }

  /** The response to a request after the fallback handlers: a route's own
      answer, the 404 fallback when no route took it, or the error handler's
      answer when a route failed. The error handler never answers 404, so
      a 404 that the fallbacks produce always means that no route matched, and
      a failing route always gets a 400 or a 500. */
  function Respond(routed: Routed, nodeEnv: Option<string>): (r: Response)
    ensures routed.Answered? ==> r == routed.response
    ensures routed.Failed? ==> r.status == 400 || r.status == 500
    ensures !routed.Answered? ==> (r.status == 404 <==> routed.Unmatched?)
    ensures routed.Unmatched? ==> r.body == [("error", "Route not found")]
  {
    match routed
    case Unmatched => NotFound()
    case Answered(response) => response
    case Failed(error) => ErrorResponse(error, nodeEnv)
  }

  /** The port `app.listen` is given: `ENV.PORT` when it is set and not
      empty, the number 5001 otherwise. */
  datatype Port = EnvPort(value: string) | NumberPort(number: nat)

  /** What `startServer` ends in. */
  datatype Startup =
    | ExitWithError(code: nat)
    | Running(listening: Option<Port>)

  /** `startServer` (lines 79-96): a failed database connection exits with
      code 1; otherwise the server listens only when `NODE_ENV` is not
      `"production"`, on `ENV.PORT || 5001`. */
  function StartServer(dbConnected: bool, nodeEnv: Option<string>, port: Option<string>): (r: Startup)
    ensures !dbConnected <==> r == ExitWithError(1)
    ensures dbConnected ==> r.Running? && (r.listening.None? <==> nodeEnv == Some("production"))
    ensures dbConnected && r.listening.Some? ==>
      (r.listening.value == NumberPort(5001) <==> port.None? || port.value == "")
    ensures dbConnected && r.listening.Some? && r.listening.value.EnvPort? ==>
      Some(r.listening.value.value) == port
  {
    if !dbConnected then ExitWithError(1)
    else if nodeEnv == Some("production") then Running(None)
    else if port.Some? && port.value != "" then Running(Some(EnvPort(port.value)))
    else Running(Some(NumberPort(5001)))
  }
}
