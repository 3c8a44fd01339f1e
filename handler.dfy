/** Method and notification routing (jsonrpc/handler.go). */
module JsonRpcHandler {
  import opened Wrappers
  import opened JsonRpcErrors
  import opened JsonRpcMessage

  /** The part of a Go `context.Context` a handler can observe: whether it has been cancelled. */
  datatype Context = Context(cancelled: bool)

  /** An `error` a handler returns: a `*ResponseError`, or any other error, known by its text. */
  datatype GoError = RpcError(err: ResponseError) | OtherError(text: string)

  /** What a method handler returns: a result (nil when `None`) or an error. */
  datatype HandlerOutcome = Ok(result: Option<Value>) | Failed(error: GoError)

  type MethodHandler = (Context, Json) -> HandlerOutcome

  /** A notification handler returns only an error, or nil. */
  type NotificationHandler = (Context, Json) -> Option<GoError>

  function MethodNotFoundError(name: string): (e: ResponseError)
    ensures e.code == MethodNotFound && e.data.None?
    ensures e.message == "method not found: " + name
  {
    NewError(MethodNotFound, "method not found: " + name)
  }

  /**
   * The response for a handler's outcome: a `*ResponseError` is passed on unchanged, any other
   * error becomes an internal error carrying its text, and a result that cannot be marshalled
   * becomes an internal error naming the marshalling failure.
   */
  function Respond(id: Id, outcome: HandlerOutcome): (r: Response)
    ensures r.jsonrpc == Version && r.id == id
    ensures r.error.None? <==> outcome.Ok? && Encode(outcome.result).Success?
    ensures r.error.None? ==> r.result == Encode(outcome.result).value
    ensures r.error.Some? ==> r.result == []
    ensures outcome.Failed? && outcome.error.RpcError? ==> r.error == Some(outcome.error.err)
    ensures outcome.Failed? && outcome.error.OtherError? ==>
      r.error == Some(NewError(InternalError, outcome.error.text))
    ensures outcome.Ok? && Encode(outcome.result).Failure? ==>
      r.error == Some(NewError(InternalError, "failed to marshal result: " + Encode(outcome.result).error))
  {
    match outcome
    case Failed(RpcError(e)) => NewErrorResponse(id, e)
    case Failed(OtherError(text)) => NewErrorResponse(id, NewError(InternalError, text))
    case Ok(result) =>
      match NewResponse(id, result)
      case Failure(e) => NewErrorResponse(id, NewError(InternalError, "failed to marshal result: " + e))
      case Success(resp) => resp
  }

  /** JSON-RPC 2.0 wants exactly one of `result` and `error` in a response. */
  predicate OneOfResultOrError(r: Response) { (r.result != []) != r.error.Some? }

  /**
   * Every error outcome and every non-empty result gives a response with exactly one of the two
   * members; a nil result gives a response with neither (its `result` is omitted on the wire).
   */
  lemma RespondMembers(id: Id, outcome: HandlerOutcome)
    ensures OneOfResultOrError(Respond(id, outcome)) <==> !(outcome.Ok? && Encode(outcome.result) == Success([]))
    ensures outcome == Ok(None) ==> Respond(id, outcome).result == [] && Respond(id, outcome).error.None?
  {
  }

  /** What became of a notification: no handler was registered, or the handler ran and returned this error. */
  datatype Delivery = Dropped | Delivered(err: Option<GoError>)

  /** The method and notification tables of one connection. */
  class Dispatcher {
    var methods: map<string, MethodHandler>
    var notifications: map<string, NotificationHandler>

    /** `NewDispatcher`: both tables empty. */
    constructor ()
      ensures methods == map[] && notifications == map[]
    {
      methods := map[];
      notifications := map[];
    }

    /** Registers a method handler, replacing any earlier handler of that name. */
    method RegisterMethod(name: string, handler: MethodHandler)
      modifies this
      ensures methods == old(methods)[name := handler]
      ensures notifications == old(notifications)
    {
      methods := methods[name := handler];
    }

    /** Registers a notification handler, replacing any earlier handler of that name. */
    method RegisterNotification(name: string, handler: NotificationHandler)
      modifies this
      ensures notifications == old(notifications)[name := handler]
      ensures methods == old(methods)
    {
      notifications := notifications[name := handler];
    }

    /** A request for an unknown method is answered "method not found"; otherwise by its handler. */
    function HandleRequest(ctx: Context, req: Request): (r: Response)
      reads this
      ensures r.jsonrpc == Version && r.id == req.id
      ensures req.methodName !in methods ==>
        r.error == Some(MethodNotFoundError(req.methodName)) && r.result == []
      ensures req.methodName in methods ==> r == Respond(req.id, methods[req.methodName](ctx, req.params))
    {
      if req.methodName !in methods then NewErrorResponse(req.id, MethodNotFoundError(req.methodName))
      else Respond(req.id, methods[req.methodName](ctx, req.params))
    }

    /** An unknown notification is dropped; a known one runs its handler, whose error the caller discards. */
    function HandleNotification(ctx: Context, n: Notification): (r: Delivery)
      reads this
      ensures r.Dropped? <==> n.methodName !in notifications
      ensures r.Delivered? ==> r.err == notifications[n.methodName](ctx, n.params)
    {
      if n.methodName in notifications then Delivered(notifications[n.methodName](ctx, n.params)) else Dropped
    }
  }
}
